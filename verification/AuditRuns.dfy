/**
 * Whole runs of the cached audit, with inspections failing arbitrarily: what is
 * cached when, and agreement with an audit that inspects everything every time.
 */
module AuditRuns {
  import opened Common
  import opened AlertModel
  import opened SecurityRules
  import opened Auditor

  datatype Call = Call(listing: seq<Listed>, now: int)

  ghost predicate IsRun(calls: seq<Call>, caches: seq<Cache>, reports: seq<seq<Alert>>) {
    && |caches| == |calls| + 1 && |reports| == |calls|
    && caches[0] == map[]
    && forall k :: 0 <= k < |calls| ==> IsCall(calls, caches, reports, k)
  }

  ghost predicate IsCall(calls: seq<Call>, caches: seq<Cache>, reports: seq<seq<Alert>>, k: nat)
    requires |caches| == |calls| + 1 && |reports| == |calls| && k < |calls|
  {
    Audits(caches[k], calls[k].listing, calls[k].now, caches[k + 1], reports[k])
  }

  lemma CallOf(calls: seq<Call>, caches: seq<Cache>, reports: seq<seq<Alert>>, k: nat)
    requires IsRun(calls, caches, reports) && k < |calls|
    ensures Audits(caches[k], calls[k].listing, calls[k].now, caches[k + 1], reports[k])
  {
    assert IsCall(calls, caches, reports, k);
  }

  // ---- Presence ---------------------------------------------------------------------------

  ghost predicate IsListed(calls: seq<Call>, k: nat, id: string)
    requires k < |calls|
  {
    id in Ids(calls[k].listing)
  }

  /** The container is listed by every audit from `j` to `k`. */
  ghost predicate PresentFrom(calls: seq<Call>, j: nat, k: nat, id: string)
    requires k < |calls|
  {
    j <= k && forall i :: j <= i <= k ==> IsListed(calls, i, id)
  }

  /** Inspecting the container succeeds in audit `j`. */
  ghost predicate Succeeds(calls: seq<Call>, j: nat, id: string)
    requires j < |calls|
  {
    exists l :: l in calls[j].listing && Answers(l, id)
  }

  /** Audit `k0` is the first of the current uninterrupted presence that can inspect
      the container. */
  ghost predicate FirstSuccess(calls: seq<Call>, k0: nat, k: nat, id: string)
    requires k < |calls|
  {
    && PresentFrom(calls, k0, k, id)
    && Succeeds(calls, k0, id)
    && forall j: nat :: j < k0 && PresentFrom(calls, j, k, id) ==> !Succeeds(calls, j, id)
  }

  /** Some audit of the current uninterrupted presence can inspect the container. */
  ghost predicate OnceInspectable(calls: seq<Call>, k: nat, id: string)
    requires k < |calls|
  {
    exists j: nat :: PresentFrom(calls, j, k, id) && Succeeds(calls, j, id)
  }

  lemma OnceInspectableStep(calls: seq<Call>, k: nat, id: string)
    requires k < |calls|
    ensures OnceInspectable(calls, k, id) <==>
              IsListed(calls, k, id) && (Succeeds(calls, k, id) || (k > 0 && OnceInspectable(calls, k - 1, id)))
  {
    if OnceInspectable(calls, k, id) {
      var j: nat :| PresentFrom(calls, j, k, id) && Succeeds(calls, j, id);
      assert IsListed(calls, k, id);
      if j < k {
        assert PresentFrom(calls, j, k - 1, id);
      }
    }
    if IsListed(calls, k, id) && Succeeds(calls, k, id) {
      assert PresentFrom(calls, k, k, id);
    } else if IsListed(calls, k, id) && k > 0 && OnceInspectable(calls, k - 1, id) {
      var j: nat :| PresentFrom(calls, j, k - 1, id) && Succeeds(calls, j, id);
      assert PresentFrom(calls, j, k, id);
    }
  }

  /** After an audit the cache knows exactly the listed containers that some audit of
      their current uninterrupted presence could inspect. */
  lemma {:induction false} CachedIffInspectable(calls: seq<Call>, caches: seq<Cache>, reports: seq<seq<Alert>>,
                                                k: nat, id: string)
    requires IsRun(calls, caches, reports) && k < |calls|
    ensures id in caches[k + 1] <==> OnceInspectable(calls, k, id)
  {
    CallOf(calls, caches, reports, k);
    OnceInspectableStep(calls, k, id);
    if k > 0 {
      CachedIffInspectable(calls, caches, reports, k - 1, id);
    }
  }

  /** A cached entry is what the first success of this presence found, fired now. */
  lemma {:induction false} CachedSinceFirstSuccess(calls: seq<Call>, caches: seq<Cache>, reports: seq<seq<Alert>>,
                                                   k: nat, id: string)
    returns (k0: nat, l: Listed)
    requires IsRun(calls, caches, reports) && k < |calls| && id in caches[k + 1]
    ensures FirstSuccess(calls, k0, k, id)
    ensures l in calls[k0].listing && Answers(l, id)
    ensures caches[k + 1][id] == AllFindings(l.c, l.answer.value, calls[k0].now, calls[k].now)
  {
    if id in caches[k] {
      assert k > 0;
      k0, l := CachedSinceFirstSuccess(calls, caches, reports, k - 1, id);
      EntryPersists(calls, caches, reports, k, id);
      RestampAllFindings(l.c, l.answer.value, calls[k0].now, calls[k - 1].now, calls[k].now);
      FirstSuccessPersists(calls, k0, k, id);
    } else {
      k0 := k;
      l := EntryAppears(calls, caches, reports, k, id);
    }
  }

  lemma EntryPersists(calls: seq<Call>, caches: seq<Cache>, reports: seq<seq<Alert>>, k: nat, id: string)
    requires IsRun(calls, caches, reports) && k < |calls| && id in caches[k] && id in caches[k + 1]
    ensures IsListed(calls, k, id) && caches[k + 1][id] == Restamp(caches[k][id], calls[k].now)
  {
    CallOf(calls, caches, reports, k);
  }

  lemma EntryAppears(calls: seq<Call>, caches: seq<Cache>, reports: seq<seq<Alert>>, k: nat, id: string)
    returns (l: Listed)
    requires IsRun(calls, caches, reports) && k < |calls| && id !in caches[k] && id in caches[k + 1]
    ensures FirstSuccess(calls, k, k, id)
    ensures l in calls[k].listing && Answers(l, id) && caches[k + 1][id] == FreshFindings(l, calls[k].now)
  {
    CallOf(calls, caches, reports, k);
    l :| l in calls[k].listing && Answers(l, id) && caches[k + 1][id] == FreshFindings(l, calls[k].now);
    if k > 0 {
      CachedIffInspectable(calls, caches, reports, k - 1, id);
    }
    FirstSuccessNow(calls, k, id);
  }

  lemma FirstSuccessPersists(calls: seq<Call>, k0: nat, k: nat, id: string)
    requires 0 < k < |calls| && FirstSuccess(calls, k0, k - 1, id) && IsListed(calls, k, id)
    ensures FirstSuccess(calls, k0, k, id)
  {
    forall j: nat | j < k0 && PresentFrom(calls, j, k, id) ensures !Succeeds(calls, j, id) {
      assert PresentFrom(calls, j, k - 1, id);
    }
  }

  lemma FirstSuccessNow(calls: seq<Call>, k: nat, id: string)
    requires k < |calls| && IsListed(calls, k, id) && Succeeds(calls, k, id)
    requires k > 0 ==> !OnceInspectable(calls, k - 1, id)
    ensures FirstSuccess(calls, k, k, id)
  {
    forall j: nat | j < k && PresentFrom(calls, j, k, id) ensures !Succeeds(calls, j, id) {
      assert PresentFrom(calls, j, k - 1, id);
    }
  }

  lemma FirstSuccessUnique(calls: seq<Call>, k1: nat, k2: nat, k: nat, id: string)
    requires k < |calls|
    requires FirstSuccess(calls, k1, k, id) && FirstSuccess(calls, k2, k, id)
    ensures k1 == k2
  {
  }

  // ---- Agreement with the uncached audit ----------------------------------------------------

  ghost predicate Inspectable(calls: seq<Call>, k: nat, id: string)
    requires k < |calls|
  {
    exists k0: nat :: FirstSuccess(calls, k0, k, id)
  }

  ghost function Since(calls: seq<Call>, k: nat, id: string): int
    requires k < |calls| && Inspectable(calls, k, id)
  {
    var k0: nat :| FirstSuccess(calls, k0, k, id);
    calls[k0].now
  }

  /** What this container showed to its first successful audit still holds: its listed
      name is that of `c` and its inspect data is `data`. */
  ghost predicate SameSinceFirst(calls: seq<Call>, k: nat, c: Display, data: Inspect)
    requires k < |calls|
  {
    forall k0: nat, l :: FirstSuccess(calls, k0, k, c.id) && l in calls[k0].listing && Answers(l, c.id) ==>
      l.c == c && SameData(l.answer.value, data)
  }

  /** What an audit without a cache would report for one listing entry whose data is `data`,
      except that `activeSince` tells the first success of the current presence. */
  ghost function Expected(calls: seq<Call>, data: string -> Inspect, k: nat): Listed -> seq<Alert>
    requires k < |calls|
  {
    (l: Listed) =>
      if Inspectable(calls, k, l.c.id)
      then AllFindings(l.c, data(l.c.id), Since(calls, k, l.c.id), calls[k].now)
      else []
  }

  /** Over any run, a listed container that has not changed since its first successful audit
      reports exactly what the ten rules find in its data now, fired now and active since
      that audit, if any audit of its presence could inspect it, and nothing otherwise.
      What other containers do is irrelevant. */
  lemma EntryAsExpected(calls: seq<Call>, caches: seq<Cache>, reports: seq<seq<Alert>>,
                        data: string -> Inspect, k: nat, l: Listed)
    requires IsRun(calls, caches, reports) && k < |calls| && l in calls[k].listing
    requires SameSinceFirst(calls, k, l.c, data(l.c.id))
    ensures multiset(Reported(caches[k + 1])(l)) == multiset(Expected(calls, data, k)(l))
    ensures Inspectable(calls, k, l.c.id) <==>
              l.c.id in caches[k] || Fetched(caches[k], calls[k].listing, l.c.id)
  {
    var id := l.c.id;
    InspectableIffCached(calls, caches, reports, k, id);
    if id in caches[k + 1] {
      var k0, l0 := CachedSinceFirstSuccess(calls, caches, reports, k, id);
      var k1: nat :| FirstSuccess(calls, k1, k, id) && calls[k1].now == Since(calls, k, id);
      FirstSuccessUnique(calls, k0, k1, k, id);
      SameDataSameAlerts(l.c, l0.answer.value, data(id), calls[k0].now, calls[k].now);
    }
    InspectableIffKnown(calls, caches, reports, k, l);
  }

  lemma InspectableIffCached(calls: seq<Call>, caches: seq<Cache>, reports: seq<seq<Alert>>, k: nat, id: string)
    requires IsRun(calls, caches, reports) && k < |calls|
    ensures Inspectable(calls, k, id) <==> id in caches[k + 1]
  {
    CachedIffInspectable(calls, caches, reports, k, id);
    if id in caches[k + 1] {
      var k0, l := CachedSinceFirstSuccess(calls, caches, reports, k, id);
    }
  }

  /** Unconditionally: some audit of a listed container's presence could inspect it exactly
      when it was cached before or is inspected successfully now. */
  lemma InspectableIffKnown(calls: seq<Call>, caches: seq<Cache>, reports: seq<seq<Alert>>, k: nat, l: Listed)
    requires IsRun(calls, caches, reports) && k < |calls| && l in calls[k].listing
    ensures Inspectable(calls, k, l.c.id) <==>
              l.c.id in caches[k] || Fetched(caches[k], calls[k].listing, l.c.id)
  {
    CallOf(calls, caches, reports, k);
    InspectableIffCached(calls, caches, reports, k, l.c.id);
  }

  /** So what the audit reports of an unchanged container under one rule's name is what that
      rule's report of its data is. */
  lemma EntryRuleByRule(calls: seq<Call>, caches: seq<Cache>, reports: seq<seq<Alert>>,
                        data: string -> Inspect, k: nat, l: Listed, name: string)
    requires IsRun(calls, caches, reports) && k < |calls| && l in calls[k].listing
    requires SameSinceFirst(calls, k, l.c, data(l.c.id)) && Inspectable(calls, k, l.c.id)
    ensures multiset(ByRule(Reported(caches[k + 1])(l), name)) ==
            multiset(ByRule(AllFindings(l.c, data(l.c.id), Since(calls, k, l.c.id), calls[k].now), name))
  {
    EntryAsExpected(calls, caches, reports, data, k, l);
    FlatMapPermuted((a: Alert) => if a.ruleName == name then [a] else [],
                    Reported(caches[k + 1])(l), Expected(calls, data, k)(l));
  }

  /** So if no listed container has changed since its first successful audit, the audit
      reports exactly what one without a cache would. */
  lemma AuditMatchesUncached(calls: seq<Call>, caches: seq<Cache>, reports: seq<seq<Alert>>,
                             data: string -> Inspect, k: nat)
    requires IsRun(calls, caches, reports) && k < |calls|
    requires forall l :: l in calls[k].listing ==> SameSinceFirst(calls, k, l.c, data(l.c.id))
    ensures multiset(reports[k]) == multiset(FlatMap(Expected(calls, data, k), calls[k].listing))
    ensures forall l :: l in calls[k].listing ==>
              (Inspectable(calls, k, l.c.id) <==> l.c.id in caches[k] || Fetched(caches[k], calls[k].listing, l.c.id))
  {
    CallOf(calls, caches, reports, k);
    EachListedReports(caches[k], caches[k + 1], calls[k].listing);
    forall l | l in calls[k].listing
      ensures multiset(Reported(caches[k + 1])(l)) == multiset(Expected(calls, data, k)(l))
      ensures Inspectable(calls, k, l.c.id) <==>
                l.c.id in caches[k] || Fetched(caches[k], calls[k].listing, l.c.id)
    {
      EntryAsExpected(calls, caches, reports, data, k, l);
    }
    FlatMapBags(Reported(caches[k + 1]), Expected(calls, data, k), calls[k].listing);
  }

  // ---- Inspections saved ------------------------------------------------------------------------

  /** How many successful inspections of `id` one audit performs. */
  function Inspections(cache: Cache, listing: seq<Listed>, id: string): nat {
    if listing == [] then 0
    else Inspections(cache, listing[1..], id) + if id !in cache && Answers(listing[0], id) then 1 else 0
  }

  ghost predicate DistinctIds(listing: seq<Listed>) {
    forall i, j :: 0 <= i < j < |listing| ==> listing[i].c.id != listing[j].c.id
  }

  lemma {:induction false} InspectedAtMostOnce(cache: Cache, listing: seq<Listed>, id: string)
    requires DistinctIds(listing)
    ensures Inspections(cache, listing, id) <= 1
    ensures Inspections(cache, listing, id) > 0 ==> id !in cache && id in Ids(listing) && Fetched(cache, listing, id)
    ensures id !in Ids(listing) ==> Inspections(cache, listing, id) == 0
  {
    if listing != [] {
      InspectedAtMostOnce(cache, listing[1..], id);
      assert listing[0].c.id !in Ids(listing[1..]);
      assert forall l :: l in listing[1..] ==> l in listing;
    }
  }

  function TotalInspections(calls: seq<Call>, caches: seq<Cache>, j: nat, k: nat, id: string): nat
    requires j <= k <= |calls| && |caches| > |calls|
    decreases k
  {
    if j == k then 0
    else TotalInspections(calls, caches, j, k - 1, id) + Inspections(caches[k - 1], calls[k - 1].listing, id)
  }

  /** Within one uninterrupted presence a container is inspected successfully at most
      once, and never again after that. */
  lemma {:induction false} OneInspectionPerPresence(calls: seq<Call>, caches: seq<Cache>, reports: seq<seq<Alert>>,
                                                    j: nat, k: nat, id: string)
    requires IsRun(calls, caches, reports)
    requires forall i :: 0 <= i < |calls| ==> DistinctIds(calls[i].listing)
    requires j <= k < |calls| && PresentFrom(calls, j, k, id)
    ensures TotalInspections(calls, caches, j, k + 1, id) <= 1
    ensures TotalInspections(calls, caches, j, k + 1, id) == 1 ==> id in caches[k + 1]
    decreases k
  {
    CallOf(calls, caches, reports, k);
    InspectedAtMostOnce(caches[k], calls[k].listing, id);
    assert IsListed(calls, k, id);
    if j < k {
      assert PresentFrom(calls, j, k - 1, id);
      OneInspectionPerPresence(calls, caches, reports, j, k - 1, id);
    }
  }
}
