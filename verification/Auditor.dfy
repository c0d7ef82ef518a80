/**
 * The cached security audit (internal/security/auditor.go): serve what is cached,
 * inspect the rest concurrently, store what came back and evict what is gone.
 */
module Auditor {
  import opened Common
  import opened AlertModel
  import opened SecurityRules

  /** A listed container together with what inspecting it during this audit
      yields; `None` when the inspection fails. */
  datatype Listed = Listed(c: Display, answer: Option<Inspect>)

  type Cache = map<string, seq<Alert>>

  function Ids(listing: seq<Listed>): set<string> {
    set l | l in listing :: l.c.id
  }

  function Entries(listing: seq<Listed>): set<Listed> {
    set l | l in listing
  }

  /** Listing entry `l` of container `id` answers. */
  predicate Answers(l: Listed, id: string) {
    l.c.id == id && l.answer.Some?
  }

  /** The container is inspected, successfully, during this audit. */
  predicate Fetched(cache: Cache, listing: seq<Listed>, id: string) {
    id !in cache && exists l :: l in listing && Answers(l, id)
  }

  function FreshFindings(l: Listed, now: int): seq<Alert>
    requires l.answer.Some?
  {
    AllFindings(l.c, l.answer.value, now, now)
  }

  function Hits(before: Cache, after: Cache): Listed -> seq<Alert> {
    (l: Listed) => if l.c.id in before && l.c.id in after then after[l.c.id] else []
  }

  function Misses(before: Cache, after: Cache): Listed -> seq<Alert> {
    (l: Listed) => if l.c.id !in before && l.c.id in after then after[l.c.id] else []
  }

  function Reported(after: Cache): Listed -> seq<Alert> {
    (l: Listed) => if l.c.id in after then after[l.c.id] else []
  }

  /** The specification of one audit. */
  ghost predicate Audits(before: Cache, listing: seq<Listed>, now: int, after: Cache, alerts: seq<Alert>) {
    && (forall id :: id in after <==> id in Ids(listing) && (id in before || Fetched(before, listing, id)))
    && (forall id :: id in after && id in before ==> after[id] == Restamp(before[id], now))
    && (forall id :: id in after && id !in before ==>
          exists l :: l in listing && Answers(l, id) && after[id] == FreshFindings(l, now))
    && alerts == FlatMap(Hits(before, after), listing) + FlatMap(Misses(before, after), listing)
  }

  lemma OneReports<T>(h: seq<T>, m: seq<T>, hit: seq<T>, miss: seq<T>)
    ensures multiset((h + hit) + (m + miss)) == multiset(h + m) + (multiset(hit) + multiset(miss))
  {
  }

  /** Every listed container reports its cached alerts, once per listing entry. */
  lemma {:induction false} EachListedReports(before: Cache, after: Cache, listing: seq<Listed>)
    ensures multiset(FlatMap(Hits(before, after), listing) + FlatMap(Misses(before, after), listing)) ==
            multiset(FlatMap(Reported(after), listing))
  {
    if listing != [] {
      var n := |listing| - 1;
      EachListedReports(before, after, listing[..n]);
      OneReports(FlatMap(Hits(before, after), listing[..n]), FlatMap(Misses(before, after), listing[..n]),
                 Hits(before, after)(listing[n]), Misses(before, after)(listing[n]));
      assert multiset(Reported(after)(listing[n])) ==
             multiset(Hits(before, after)(listing[n])) + multiset(Misses(before, after)(listing[n]));
    }
  }

  // ---- The audit's phases ----------------------------------------------------------------

  function CachedAlerts(cache: Cache, now: int): Listed -> seq<Alert> {
    (l: Listed) => if l.c.id in cache then Restamp(cache[l.c.id], now) else []
  }

  function IfUncached(cache: Cache): Listed -> seq<Listed> {
    (l: Listed) => if l.c.id in cache then [] else [l]
  }

  function Touched(cache: Cache, seen: set<string>, now: int): Cache {
    map id | id in cache :: if id in seen then Restamp(cache[id], now) else cache[id]
  }

  /** `found` holds the findings of some answering entry per answering container. */
  ghost predicate FoundIn(entries: set<Listed>, now: int, found: Cache) {
    && (forall id :: id in found ==> exists l :: l in entries && Answers(l, id) && found[id] == FreshFindings(l, now))
    && (forall l :: l in entries && l.answer.Some? ==> l.c.id in found)
  }

  lemma {:induction false} MissesAreInspected(before: Cache, after: Cache, found: Cache, listing: seq<Listed>)
    requires forall id :: id in Ids(listing) && id !in before ==>
               (id in after <==> id in found) && (id in after ==> after[id] == found[id])
    ensures FlatMap(Reported(found), FlatMap(IfUncached(before), listing)) == FlatMap(Misses(before, after), listing)
  {
    if listing != [] {
      var n := |listing| - 1;
      MissesAreInspected(before, after, found, listing[..n]);
      var init, last := FlatMap(IfUncached(before), listing[..n]), listing[n];
      assert last.c.id in Ids(listing);
      if last.c.id in before {
        assert init + [] == init;
      } else {
        assert (init + [last])[..|init|] == init;
      }
    }
  }

  lemma {:induction false} SameHits(before: Cache, after: Cache, listing: seq<Listed>, now: int)
    requires forall id :: id in Ids(listing) && id in before ==> id in after && after[id] == Restamp(before[id], now)
    ensures FlatMap(CachedAlerts(before, now), listing) == FlatMap(Hits(before, after), listing)
  {
    if listing != [] {
      assert listing[|listing| - 1].c.id in Ids(listing);
      SameHits(before, after, listing[..|listing| - 1], now);
    }
  }

  lemma {:induction false} UncachedEntries(cache: Cache, listing: seq<Listed>)
    ensures forall l :: l in FlatMap(IfUncached(cache), listing) <==> l in listing && l.c.id !in cache
  {
    if listing != [] {
      UncachedEntries(cache, listing[..|listing| - 1]);
    }
  }

  function Kept(cache: Cache, active: set<string>): Cache {
    map id | id in cache && id in active :: cache[id]
  }

  lemma PhasesMakeAudit(before: Cache, listing: seq<Listed>, now: int, found: Cache, after: Cache, alerts: seq<Alert>)
    requires FoundIn(Entries(FlatMap(IfUncached(before), listing)), now, found)
    requires after == Kept(Touched(before, Ids(listing), now) + found, Ids(listing))
    requires alerts == FlatMap(CachedAlerts(before, now), listing)
                       + FlatMap(Reported(found), FlatMap(IfUncached(before), listing))
    ensures Audits(before, listing, now, after, alerts)
  {
    UncachedEntries(before, listing);
    FoundIsUncached(before, listing, now, found);
    SameHits(before, after, listing, now);
    MissesAreInspected(before, after, found, listing);
  }

  lemma FoundIsUncached(before: Cache, listing: seq<Listed>, now: int, found: Cache)
    requires FoundIn(Entries(FlatMap(IfUncached(before), listing)), now, found)
    ensures forall id :: id in found <==> Fetched(before, listing, id)
    ensures forall id :: id in found ==> id in Ids(listing)
    ensures forall id :: id in found ==>
              exists l :: l in listing && Answers(l, id) && found[id] == FreshFindings(l, now)
  {
    UncachedEntries(before, listing);
    forall id ensures id in found <==> Fetched(before, listing, id)
              ensures id in found ==> id in Ids(listing)
    {
      if id in found {
        var l :| l in FlatMap(IfUncached(before), listing) && Answers(l, id);
        assert l in listing;
      }
    }
  }

  class Auditor {
    var cache: Cache

    constructor ()
      ensures cache == map[]
    {
      cache := map[];
    }

    /** One audit. The entry `answer`s stand for the Docker daemon's replies. */
    method Audit(listing: seq<Listed>, now: int) returns (alerts: seq<Alert>)
      modifies this
      ensures Audits(old(cache), listing, now, cache, alerts)
    {
      ghost var before := cache;
      var toInspect: seq<Listed>;
      alerts, toInspect := ServeCached(listing, now);
      ghost var found: Cache := map[];
      if toInspect != [] {
        var newAlerts := InspectAll(toInspect, now);
        found := newAlerts;
        var more := Store(toInspect, newAlerts);
        alerts := alerts + more;
      }
      var activeIDs := Ids(listing);
      EvictInactive(activeIDs);
      assert cache == Kept(Touched(before, Ids(listing), now) + found, Ids(listing));
      PhasesMakeAudit(before, listing, now, found, cache, alerts);
    }

    /** Phase 1: cached alerts are re-stamped in place and reported. */
    method ServeCached(listing: seq<Listed>, now: int) returns (alerts: seq<Alert>, toInspect: seq<Listed>)
      modifies this
      ensures cache == Touched(old(cache), Ids(listing), now)
      ensures alerts == FlatMap(CachedAlerts(old(cache), now), listing)
      ensures toInspect == FlatMap(IfUncached(old(cache)), listing)
    {
      ghost var before := cache;
      alerts, toInspect := [], [];
      for i := 0 to |listing|
        invariant cache == Touched(before, Ids(listing[..i]), now)
        invariant alerts == FlatMap(CachedAlerts(before, now), listing[..i])
        invariant toInspect == FlatMap(IfUncached(before), listing[..i])
      {
        FlatMapExtend(CachedAlerts(before, now), listing, i);
        FlatMapExtend(IfUncached(before), listing, i);
        TouchOneMore(before, listing, i, now);
        var id := listing[i].c.id;
        if id in cache {
          var stamped := Restamped(cache[id], now);
          cache := cache[id := stamped];
          alerts := alerts + stamped;
        } else {
          toInspect := toInspect + [listing[i]];
        }
      }
      assert listing[..|listing|] == listing;
    }

    /** Phase 3a: findings go to the cache and into the report. */
    method Store(toInspect: seq<Listed>, found: Cache) returns (alerts: seq<Alert>)
      requires found.Keys <= Ids(toInspect)
      modifies this
      ensures cache == old(cache) + found
      ensures alerts == FlatMap(Reported(found), toInspect)
    {
      ghost var before := cache;
      alerts := [];
      for i := 0 to |toInspect|
        invariant cache == before + Kept(found, Ids(toInspect[..i]))
        invariant alerts == FlatMap(Reported(found), toInspect[..i])
      {
        FlatMapExtend(Reported(found), toInspect, i);
        var id := toInspect[i].c.id;
        KeepOneMore(before, found, toInspect, i);
        if id in found {
          cache := cache[id := found[id]];
          alerts := alerts + found[id];
        }
      }
      assert toInspect[..|toInspect|] == toInspect;
      assert Kept(found, Ids(toInspect)) == found;
    }

    /** Phase 3b. */
    method EvictInactive(activeIDs: set<string>)
      modifies this
      ensures cache == Kept(old(cache), activeIDs)
    {
      ghost var before := cache;
      var todo := cache.Keys;
      while todo != {}
        invariant todo <= before.Keys
        invariant cache == Kept(before, activeIDs + todo)
        decreases |todo|
      {
        var id :| id in todo;
        DropOne(before, activeIDs, todo, id);
        if id !in activeIDs {
          cache := cache - {id};
        }
        todo := todo - {id};
      }
      assert activeIDs + todo == activeIDs;
    }
  }

  lemma DropOne(before: Cache, active: set<string>, todo: set<string>, id: string)
    requires id in todo
    ensures var sofar, next := Kept(before, active + todo), Kept(before, active + (todo - {id}));
            next == if id in active then sofar else sofar - {id}
  {
  }

  lemma TouchOneMore(before: Cache, listing: seq<Listed>, i: nat, now: int)
    requires i < |listing|
    ensures var id := listing[i].c.id;
            var sofar, next := Touched(before, Ids(listing[..i]), now), Touched(before, Ids(listing[..i + 1]), now);
            && (id in before ==>
                  && Restamp(sofar[id], now) == Restamp(before[id], now)
                  && next == sofar[id := Restamp(before[id], now)])
            && (id !in before ==> next == sofar)
  {
    var id := listing[i].c.id;
    assert Ids(listing[..i + 1]) == Ids(listing[..i]) + {id};
    if id in before {
      assert Restamp(Restamp(before[id], now), now) == Restamp(before[id], now);
    }
  }

  lemma KeepOneMore(before: Cache, found: Cache, listing: seq<Listed>, i: nat)
    requires i < |listing|
    ensures var id := listing[i].c.id;
            var sofar, next := before + Kept(found, Ids(listing[..i])), before + Kept(found, Ids(listing[..i + 1]));
            next == if id in found then sofar[id := found[id]] else sofar
  {
    assert Ids(listing[..i + 1]) == Ids(listing[..i]) + {listing[i].c.id};
  }

  /** The loop that sets `FiredAt` entry by entry. */
  method Restamped(cached: seq<Alert>, now: int) returns (result: seq<Alert>)
    ensures result == Restamp(cached, now)
  {
    result := cached;
    for i := 0 to |cached|
      invariant |result| == |cached|
      invariant forall k :: 0 <= k < |cached| ==> result[k] == if k < i then cached[k].(firedAt := now) else cached[k]
    {
      result := result[i := result[i].(firedAt := now)];
    }
  }

  /** Phase 2: the inspections run concurrently, so they finish in any order; a
      later one of the same container overwrites an earlier one. */
  method InspectAll(toInspect: seq<Listed>, now: int) returns (found: Cache)
    ensures FoundIn(Entries(toInspect), now, found)
    ensures found.Keys <= Ids(toInspect)
  {
    found := map[];
    var running := Entries(toInspect);
    ghost var finished: set<Listed> := {};
    while running != {}
      invariant finished + running == Entries(toInspect)
      invariant FoundIn(finished, now, found)
      decreases |running|
    {
      var l :| l in running;
      if l.answer.Some? {
        var alerts := EvaluateAll(l.c, l.answer.value, now);
        FoundStep(finished, now, found, l);
        found := found[l.c.id := alerts];
      }
      finished := finished + {l};
      running := running - {l};
    }
    assert finished == Entries(toInspect);
  }

  lemma FoundStep(finished: set<Listed>, now: int, found: Cache, l: Listed)
    requires FoundIn(finished, now, found) && l.answer.Some?
    ensures FoundIn(finished + {l}, now, found[l.c.id := FreshFindings(l, now)])
  {
    assert Answers(l, l.c.id);
  }
}
