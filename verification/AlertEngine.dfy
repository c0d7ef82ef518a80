/**
 * The alert engine (internal/alerts/alerts.go): two maps keyed by
 * "container:rule" and a bounded history, updated by nested loops. `Evaluates`
 * is its specification: every slot takes one step of the timer automaton of
 * module AlertAutomaton, whatever the iteration order.
 */
module AlertEngine {
  import opened Common
  import opened AlertModel
  import opened AlertAutomaton

  const HISTORY_SIZE: nat := 50

  datatype EngineState = EngineState(
    start: map<string, int>, active: map<string, Alert>, history: seq<Alert>)

  const EMPTY := EngineState(map[], map[], [])

  // ---- The two maps read as slots ----------------------------------------------

  function PhaseAt(s: EngineState, c: string, r: Rule): Phase {
    var k := AlertKey(c, r.name);
    if k in s.active then Firing(s.active[k])
    else if k in s.start then Pending(s.start[k])
    else Idle
  }

  ghost predicate IsSlotKey(rules: seq<Rule>, k: string) {
    exists c, r :: ValidId(c) && r in rules && k == AlertKey(c, r.name)
  }

  ghost predicate WellFormed(rules: seq<Rule>, s: EngineState) {
    && (forall k :: k in s.start ==> IsSlotKey(rules, k))
    && (forall k :: k in s.active ==>
          && k in s.start
          && s.active[k].activeSince == s.start[k]
          && ValidId(s.active[k].containerID)
          && k == AlertKey(s.active[k].containerID, s.active[k].ruleName))
  }

  predicate DistinctNames(rules: seq<Rule>) {
    forall i, j :: 0 <= i < j < |rules| ==> rules[i].name != rules[j].name
  }

  /** Snapshots arrive keyed by the container they describe. */
  predicate WellKeyed(stats: map<string, Metrics>) {
    forall c :: c in stats ==> stats[c].containerID == c && ValidId(c)
  }

  function Containers(stats: map<string, Metrics>): set<string> {
    set c | c in stats :: stats[c].containerID
  }

  function SampleOf(stats: map<string, Metrics>, c: string, now: int): Sample {
    Sample(if c in stats then Some(stats[c]) else None, now)
  }

  /** The newest `HISTORY_SIZE` alerts, newest first. */
  function Recorded(fired: seq<Alert>, history: seq<Alert>): seq<Alert> {
    Take(Reverse(fired) + history, HISTORY_SIZE)
  }

  /** `a` is what the slot named in `a` emits on this evaluation. */
  ghost predicate Emitted(rules: seq<Rule>, s: EngineState, stats: map<string, Metrics>, now: int, a: Alert) {
    ValidId(a.containerID) && exists r :: r in rules && EmittedBy(s, stats, now, r, a)
  }

  ghost predicate EmittedBy(s: EngineState, stats: map<string, Metrics>, now: int, r: Rule, a: Alert) {
    && r.name == a.ruleName
    && Emission(r, PhaseAt(s, a.containerID, r), SampleOf(stats, a.containerID, now)) == Some(a)
  }

  /** The specification of one evaluation. */
  ghost predicate Evaluates(rules: seq<Rule>, s: EngineState, stats: map<string, Metrics>, now: int,
                            s': EngineState, fired: seq<Alert>)
  {
    && WellFormed(rules, s')
    && (forall c, r :: ValidId(c) && r in rules ==>
          PhaseAt(s', c, r) == Next(r, PhaseAt(s, c, r), SampleOf(stats, c, now)))
    && NoDuplicates(fired)
    && (forall a :: a in fired <==> Emitted(rules, s, stats, now, a))
    && s'.history == Recorded(fired, s.history)
  }

  // ---- Facts about slots ---------------------------------------------------------

  lemma SameNameSameRule(rules: seq<Rule>, r1: Rule, r2: Rule)
    requires DistinctNames(rules) && r1 in rules && r2 in rules && r1.name == r2.name
    ensures r1 == r2
  {
    var i :| 0 <= i < |rules| && rules[i] == r1;
    var j :| 0 <= j < |rules| && rules[j] == r2;
    if i < j { assert false; } else if j < i { assert false; }
  }

  /** Changing one key leaves every other slot alone. */
  lemma OtherSlotsUnchanged(rules: seq<Rule>, s: EngineState, s': EngineState,
                            c: string, r: Rule, c': string, r': Rule)
    requires DistinctNames(rules) && r in rules && r' in rules
    requires ValidId(c) && ValidId(c') && (c != c' || r != r')
    requires var k := AlertKey(c, r.name);
             s'.start - {k} == s.start - {k} && s'.active - {k} == s.active - {k}
    ensures PhaseAt(s', c', r') == PhaseAt(s, c', r')
  {
    var k, k' := AlertKey(c, r.name), AlertKey(c', r'.name);
    if k == k' {
      KeyInjective(c, r.name, c', r'.name);
      SameNameSameRule(rules, r, r');
      assert false;
    }
    SameWithout(s.start, s'.start, k, k');
    SameWithout(s.active, s'.active, k, k');
  }

  lemma SameWithout<V>(m: map<string, V>, m': map<string, V>, k: string, k': string)
    requires m' - {k} == m - {k} && k' != k
    ensures k' in m' <==> k' in m
    ensures k' in m ==> m'[k'] == m[k']
  {
    assert k' in m <==> k' in m - {k};
    assert k' in m' <==> k' in m' - {k};
    if k' in m {
      assert m'[k'] == (m' - {k})[k'] == (m - {k})[k'] == m[k'];
    }
  }

  lemma ChangedOnlyAt<V>(m: map<string, V>, k: string, v: V)
    ensures m[k := v] - {k} == m - {k}
  {
  }

  /** The three ways in which one key changes keep the maps well formed. */
  lemma ClearingKeepsForm(rules: seq<Rule>, s: EngineState, k: string)
    requires WellFormed(rules, s)
    ensures WellFormed(rules, EngineState(s.start - {k}, s.active - {k}, s.history))
  {
  }

  lemma StartingKeepsForm(rules: seq<Rule>, s: EngineState, k: string, now: int)
    requires WellFormed(rules, s) && IsSlotKey(rules, k) && k !in s.start
    ensures WellFormed(rules, EngineState(s.start[k := now], s.active, s.history))
  {
  }

  lemma FiringKeepsForm(rules: seq<Rule>, s: EngineState, a: Alert, h: seq<Alert>)
    requires WellFormed(rules, s) && ValidId(a.containerID)
    requires var k := AlertKey(a.containerID, a.ruleName);
             k in s.start && s.start[k] == a.activeSince
    ensures WellFormed(rules, EngineState(s.start, s.active[AlertKey(a.containerID, a.ruleName) := a], h))
  {
  }

  /** Among `visited`, the active keys whose container is not `present`. */
  ghost function Gone(s: EngineState, present: set<string>, visited: set<string>): set<string>
    requires visited <= s.active.Keys
  {
    set k | k in visited && s.active[k].containerID !in present
  }

  lemma GoneStep(s: EngineState, present: set<string>, todo: set<string>, k: string)
    requires todo <= s.active.Keys && k in todo
    ensures Gone(s, present, s.active.Keys - (todo - {k})) ==
            Gone(s, present, s.active.Keys - todo) + (if s.active[k].containerID in present then {} else {k})
  {
  }

  lemma RemoveOneMore<V>(m: map<string, V>, gone: set<string>, k: string)
    ensures (m - gone) - {k} == m - (gone + {k})
  {
  }

  lemma ClearedSlots(rules: seq<Rule>, s: EngineState, stats: map<string, Metrics>, gone: set<string>)
    requires WellFormed(rules, s)
    requires gone == Gone(s, stats.Keys, s.active.Keys)
    ensures var s' := EngineState(s.start - gone, s.active - gone, s.history);
            && WellFormed(rules, s')
            && forall c, r :: ValidId(c) && r in rules ==>
                 PhaseAt(s', c, r) ==
                   (if c !in stats && PhaseAt(s, c, r).Firing? then Idle else PhaseAt(s, c, r))
  {
    var s' := EngineState(s.start - gone, s.active - gone, s.history);
    forall c, r | ValidId(c) && r in rules
      ensures PhaseAt(s', c, r) ==
                (if c !in stats && PhaseAt(s, c, r).Firing? then Idle else PhaseAt(s, c, r))
    {
      var k := AlertKey(c, r.name);
      if k in s.active {
        KeyInjective(c, r.name, s.active[k].containerID, s.active[k].ruleName);
      }
    }
  }

  /** The slots determine both maps. */
  lemma SlotsDetermineState(rules: seq<Rule>, s1: EngineState, s2: EngineState)
    requires WellFormed(rules, s1) && WellFormed(rules, s2)
    requires forall c, r :: ValidId(c) && r in rules ==> PhaseAt(s1, c, r) == PhaseAt(s2, c, r)
    ensures s1.start == s2.start && s1.active == s2.active
  {
    forall k ensures k in s1.start <==> k in s2.start
             ensures k in s1.active <==> k in s2.active
             ensures k in s1.active && k in s2.active ==> s1.active[k] == s2.active[k]
             ensures k in s1.start && k in s2.start ==> s1.start[k] == s2.start[k]
    {
      if k in s1.start || k in s2.start {
        assert IsSlotKey(rules, k);
        var c, r :| ValidId(c) && r in rules && k == AlertKey(c, r.name);
        assert PhaseAt(s1, c, r) == PhaseAt(s2, c, r);
      }
    }
  }

  /** Evaluation is a function of the slots: two evaluations of the same input
      that visit containers in different orders agree on both maps and, as
      multisets, on the alerts they return. */
  lemma EvaluationOrderIrrelevant(rules: seq<Rule>, s: EngineState, stats: map<string, Metrics>, now: int,
                                  s1: EngineState, fired1: seq<Alert>, s2: EngineState, fired2: seq<Alert>)
    requires Evaluates(rules, s, stats, now, s1, fired1)
    requires Evaluates(rules, s, stats, now, s2, fired2)
    ensures s1.start == s2.start && s1.active == s2.active
    ensures multiset(fired1) == multiset(fired2)
  {
    SlotsDetermineState(rules, s1, s2);
    SameElementsSameMultiset(fired1, fired2);
  }

  // ---- One evaluation, slot by slot --------------------------------------------------

  /** Has the loop nest passed slot (c, r)? It has done all of `done` and the
      first `j` rules of `cur`. */
  ghost predicate Passed(rules: seq<Rule>, done: set<string>, cur: string, j: nat, c: string, r: Rule)
    requires j <= |rules|
  {
    c in done || (c == cur && r in rules[..j])
  }

  ghost predicate Partly(rules: seq<Rule>, s0: EngineState, stats: map<string, Metrics>, now: int,
                         done: set<string>, cur: string, j: nat, s: EngineState)
    requires j <= |rules|
  {
    && WellFormed(rules, s)
    && forall c, r :: ValidId(c) && r in rules ==>
         PhaseAt(s, c, r) ==
           if c !in stats || Passed(rules, done, cur, j, c, r)
           then Next(r, PhaseAt(s0, c, r), SampleOf(stats, c, now))
           else PhaseAt(s0, c, r)
  }

  ghost predicate PartlyFired(rules: seq<Rule>, s0: EngineState, stats: map<string, Metrics>, now: int,
                              done: set<string>, cur: string, j: nat, fired: seq<Alert>)
    requires j <= |rules|
  {
    && NoDuplicates(fired)
    && forall a :: a in fired <==>
         ValidId(a.containerID) && exists r :: r in rules && Passed(rules, done, cur, j, a.containerID, r)
                                            && EmittedBy(s0, stats, now, r, a)
  }

  lemma PartlyStep(rules: seq<Rule>, s0: EngineState, stats: map<string, Metrics>, now: int,
                   done: set<string>, cur: string, j: nat, s: EngineState, s': EngineState)
    requires DistinctNames(rules) && WellKeyed(stats)
    requires cur in stats && j < |rules|
    requires Partly(rules, s0, stats, now, done, cur, j, s) && WellFormed(rules, s')
    requires cur !in done
    requires var k := AlertKey(cur, rules[j].name);
             s'.start - {k} == s.start - {k} && s'.active - {k} == s.active - {k}
    requires PhaseAt(s', cur, rules[j]) == Next(rules[j], PhaseAt(s, cur, rules[j]), SampleOf(stats, cur, now))
    ensures PhaseAt(s, cur, rules[j]) == PhaseAt(s0, cur, rules[j])
    ensures Partly(rules, s0, stats, now, done, cur, j + 1, s')
  {
    var r0 := rules[j];
    assert r0 !in rules[..j];
    assert rules[..j + 1] == rules[..j] + [r0];
    forall c, r | ValidId(c) && r in rules
      ensures PhaseAt(s', c, r) ==
                if c !in stats || Passed(rules, done, cur, j + 1, c, r)
                then Next(r, PhaseAt(s0, c, r), SampleOf(stats, c, now))
                else PhaseAt(s0, c, r)
    {
      if c != cur || r != r0 {
        OtherSlotsUnchanged(rules, s, s', cur, r0, c, r);
      }
    }
  }

  lemma FiredStep(rules: seq<Rule>, s0: EngineState, stats: map<string, Metrics>, now: int,
                  done: set<string>, cur: string, j: nat, fired: seq<Alert>, alert: Option<Alert>)
    requires DistinctNames(rules) && WellKeyed(stats)
    requires cur in stats && cur !in done && j < |rules|
    requires PartlyFired(rules, s0, stats, now, done, cur, j, fired)
    requires alert == Emission(rules[j], PhaseAt(s0, cur, rules[j]), SampleOf(stats, cur, now))
    ensures PartlyFired(rules, s0, stats, now, done, cur, j + 1,
                        if alert.Some? then fired + [alert.value] else fired)
  {
    var r0 := rules[j];
    assert rules[..j + 1] == rules[..j] + [r0];
    var fired' := if alert.Some? then fired + [alert.value] else fired;
    forall a
      ensures a in fired' <==>
                ValidId(a.containerID) && exists r :: r in rules && Passed(rules, done, cur, j + 1, a.containerID, r)
                                                   && EmittedBy(s0, stats, now, r, a)
    {
      if a in fired {
        var r :| r in rules && Passed(rules, done, cur, j, a.containerID, r) && EmittedBy(s0, stats, now, r, a);
        assert Passed(rules, done, cur, j + 1, a.containerID, r);
      } else if a in fired' {
        assert Passed(rules, done, cur, j + 1, a.containerID, r0) && EmittedBy(s0, stats, now, r0, a);
      } else if r :| r in rules && Passed(rules, done, cur, j + 1, a.containerID, r)
                               && EmittedBy(s0, stats, now, r, a) {
        if Passed(rules, done, cur, j, a.containerID, r) && ValidId(a.containerID) {
          assert false;
        }
      }
    }
  }

  lemma Refocus(rules: seq<Rule>, s0: EngineState, stats: map<string, Metrics>, now: int,
                done: set<string>, c: string, s: EngineState, fired: seq<Alert>)
    requires Partly(rules, s0, stats, now, done, "", 0, s)
    requires PartlyFired(rules, s0, stats, now, done, "", 0, fired)
    ensures Partly(rules, s0, stats, now, done, c, 0, s)
    ensures PartlyFired(rules, s0, stats, now, done, c, 0, fired)
  {
    assert forall c', r :: Passed(rules, done, c, 0, c', r) == Passed(rules, done, "", 0, c', r);
  }

  lemma CloseContainer(rules: seq<Rule>, s0: EngineState, stats: map<string, Metrics>, now: int,
                       done: set<string>, c: string, s: EngineState, fired: seq<Alert>)
    requires Partly(rules, s0, stats, now, done, c, |rules|, s)
    requires PartlyFired(rules, s0, stats, now, done, c, |rules|, fired)
    ensures Partly(rules, s0, stats, now, done + {c}, "", 0, s)
    ensures PartlyFired(rules, s0, stats, now, done + {c}, "", 0, fired)
  {
    assert rules[..|rules|] == rules;
    assert forall c', r :: r in rules ==>
      Passed(rules, done, c, |rules|, c', r) == Passed(rules, done + {c}, "", 0, c', r);
  }

  lemma NothingPassed(rules: seq<Rule>, s0: EngineState, stats: map<string, Metrics>, now: int)
    requires WellFormed(rules, s0) && WellKeyed(stats) && |s0.history| <= HISTORY_SIZE
    ensures var gone := Gone(s0, Containers(stats), s0.active.Keys);
            Partly(rules, s0, stats, now, {}, "", 0, EngineState(s0.start - gone, s0.active - gone, s0.history))
    ensures PartlyFired(rules, s0, stats, now, {}, "", 0, [])
    ensures s0.history == Recorded([], s0.history)
  {
    assert Containers(stats) == stats.Keys;
    ClearedSlots(rules, s0, stats, Gone(s0, stats.Keys, s0.active.Keys));
  }

  lemma AllPassed(rules: seq<Rule>, s0: EngineState, stats: map<string, Metrics>, now: int,
                  s: EngineState, fired: seq<Alert>)
    requires Partly(rules, s0, stats, now, stats.Keys, "", 0, s)
    requires PartlyFired(rules, s0, stats, now, stats.Keys, "", 0, fired)
    requires s.history == Recorded(fired, s0.history)
    ensures Evaluates(rules, s0, stats, now, s, fired)
  {
    forall a ensures a in fired <==> Emitted(rules, s0, stats, now, a) {
      if Emitted(rules, s0, stats, now, a) {
        var r :| r in rules && EmittedBy(s0, stats, now, r, a);
        assert Passed(rules, stats.Keys, "", 0, a.containerID, r);
      }
    }
  }

  lemma RecordedInTwo(f1: seq<Alert>, f2: seq<Alert>, h: seq<Alert>)
    ensures Recorded(f2, Recorded(f1, h)) == Recorded(f1 + f2, h)
  {
    ReverseConcat(f1, f2);
    assert Reverse(f2) + (Reverse(f1) + h) == Reverse(f1 + f2) + h;
  }

  lemma RecordedFirst(a: Alert, h: seq<Alert>)
    ensures Recorded([a], h) == var l := [a] + h; if |l| > HISTORY_SIZE then l[..HISTORY_SIZE] else l
  {
    assert Reverse([a]) == [a];
  }

  // ---- One alert per container and metric ---------------------------------------------

  predicate SameGroup(a: Alert, b: Alert) {
    a.containerID == b.containerID && a.metric == b.metric
  }

  /** `result` holds exactly one active alert per (container, metric) that has one,
      and none of the group outranks it. */
  ghost predicate BestPerGroup(active: map<string, Alert>, result: seq<Alert>) {
    && (forall a :: a in result ==> a in active.Values)
    && (forall i, j :: 0 <= i < j < |result| ==> !SameGroup(result[i], result[j]))
    && (forall b {:trigger Covered(result, b)} :: b in active.Values ==> Covered(result, b))
  }

  /** Some listed alert of `b`'s group is at least as severe. */
  ghost predicate Covered(result: seq<Alert>, b: Alert) {
    exists a :: a in result && Outranks(a, b)
  }

  predicate Outranks(a: Alert, b: Alert) {
    SameGroup(a, b) && SeverityWeight(a.severity) >= SeverityWeight(b.severity)
  }

  ghost predicate BestSoFar(active: map<string, Alert>, seen: set<string>, best: map<string, Alert>)
    requires seen <= active.Keys
  {
    && (forall g :: g in best ==>
          && best[g] in active.Values
          && ValidId(best[g].containerID)
          && g == AlertKey(best[g].containerID, best[g].metric))
    && (forall k :: k in seen ==>
          && AlertKey(active[k].containerID, active[k].metric) in best
          && Outranks(best[AlertKey(active[k].containerID, active[k].metric)], active[k]))
  }

  lemma BestStep(active: map<string, Alert>, seen: set<string>, best: map<string, Alert>, k: string)
    requires seen <= active.Keys && k in active && ValidId(active[k].containerID)
    requires BestSoFar(active, seen, best)
    ensures var a := active[k];
            var g := AlertKey(a.containerID, a.metric);
            var better := g !in best || SeverityWeight(a.severity) > SeverityWeight(best[g].severity);
            BestSoFar(active, seen + {k}, if better then best[g := a] else best)
  {
    var a := active[k];
    var g := AlertKey(a.containerID, a.metric);
    if g in best {
      KeyInjective(a.containerID, a.metric, best[g].containerID, best[g].metric);
    }
  }

  ghost predicate Lists(best: map<string, Alert>, listed: set<string>, result: seq<Alert>)
    requires listed <= best.Keys
  {
    && (forall g :: g in listed ==> best[g] in result)
    && (forall a :: a in result ==> ListsOne(best, listed, a))
    && (forall i, j :: 0 <= i < j < |result| ==> !SameGroup(result[i], result[j]))
  }

  ghost predicate ListsOne(best: map<string, Alert>, listed: set<string>, a: Alert)
    requires listed <= best.Keys
  {
    exists g :: g in listed && best[g] == a
  }

  ghost predicate KeyedByGroup(best: map<string, Alert>) {
    forall g :: g in best ==> g == AlertKey(best[g].containerID, best[g].metric)
  }

  lemma ListsStep(best: map<string, Alert>, listed: set<string>, result: seq<Alert>, g: string)
    requires listed <= best.Keys && g in best && g !in listed
    requires KeyedByGroup(best)
    requires Lists(best, listed, result)
    ensures Lists(best, listed + {g}, result + [best[g]])
  {
    var result' := result + [best[g]];
    forall a | a in result' ensures ListsOne(best, listed + {g}, a) {
      if a in result {
        var g' :| g' in listed && best[g'] == a;
        assert g' in listed + {g};
      } else {
        assert g in listed + {g};
      }
    }
    forall i, j | 0 <= i < j < |result'| ensures !SameGroup(result'[i], result'[j]) {
      if j == |result| {
        assert result'[i] in result;
        assert ListsOne(best, listed, result'[i]);
      }
    }
  }

  lemma ListedBestIsBest(active: map<string, Alert>, best: map<string, Alert>, result: seq<Alert>)
    requires BestSoFar(active, active.Keys, best)
    requires Lists(best, best.Keys, result)
    ensures BestPerGroup(active, result)
  {
    forall b | b in active.Values ensures Covered(result, b) {
      var k :| k in active && active[k] == b;
      assert best[AlertKey(b.containerID, b.metric)] in result;
    }
  }

  /** In such a list, every active alert has exactly one entry of its container and metric, and
      it is at least as severe. */
  lemma OneEntryPerGroup(active: map<string, Alert>, result: seq<Alert>, b: Alert) returns (i: nat)
    requires BestPerGroup(active, result) && b in active.Values
    ensures i < |result| && result[i] in active.Values
    ensures result[i].containerID == b.containerID && result[i].metric == b.metric
    ensures SeverityWeight(result[i].severity) >= SeverityWeight(b.severity)
    ensures forall j :: 0 <= j < |result| && result[j].containerID == b.containerID && result[j].metric == b.metric ==>
              j == i
  {
    assert Covered(result, b);
    var a :| a in result && Outranks(a, b);
    i :| i < |result| && result[i] == a;
    forall j | 0 <= j < |result| && SameGroup(result[j], b) ensures j == i {
    }
  }

  lemma SubmapSize<V, W>(small: map<string, V>, large: map<string, W>)
    requires small.Keys <= large.Keys
    ensures |large.Keys - small.Keys| == |large| - |small|
  {
    assert large.Keys == small.Keys + (large.Keys - small.Keys);
    assert |small| == |small.Keys| && |large| == |large.Keys|;
  }

  // ---- The engine ------------------------------------------------------------------

  class Engine {
    const rules: seq<Rule>
    var conditionStart: map<string, int>
    var activeAlerts: map<string, Alert>
    var firedAlerts: seq<Alert>

    ghost function State(): EngineState
      reads this
    {
      EngineState(conditionStart, activeAlerts, firedAlerts)
    }

    ghost predicate Valid()
      reads this
    {
      && DistinctNames(rules)
      && WellFormed(rules, State())
      && |firedAlerts| <= HISTORY_SIZE
    }

    constructor (rules: seq<Rule>)
      requires DistinctNames(rules)
      ensures this.rules == rules
      ensures State() == EMPTY
      ensures Valid()
    {
      this.rules := rules;
      conditionStart, activeAlerts, firedAlerts := map[], map[], [];
    }

    /** Deletes from both maps the keys of active alerts whose container is gone.
        Keys that are only pending stay. */
    method ClearInactiveAlerts(stats: map<string, Metrics>)
      modifies this`conditionStart, this`activeAlerts
      ensures var gone := Gone(old(State()), Containers(stats), old(activeAlerts).Keys);
              activeAlerts == old(activeAlerts) - gone && conditionStart == old(conditionStart) - gone
    {
      var validContainers := Containers(stats);
      ghost var s0 := State();
      ghost var gone: set<string> := {};
      var todo := activeAlerts.Keys;
      while todo != {}
        invariant todo <= s0.active.Keys
        invariant gone == Gone(s0, validContainers, s0.active.Keys - todo)
        invariant activeAlerts == s0.active - gone && conditionStart == s0.start - gone
        decreases |todo|
      {
        var k :| k in todo;
        assert k !in gone;
        RemoveOneMore(s0.active, gone, k);
        RemoveOneMore(s0.start, gone, k);
        GoneStep(s0, validContainers, todo, k);
        if activeAlerts[k].containerID !in validContainers {
          activeAlerts := activeAlerts - {k};
          conditionStart := conditionStart - {k};
          gone := gone + {k};
        }
        todo := todo - {k};
      }
      assert s0.active.Keys - todo == s0.active.Keys;
    }

    /** One container against one rule: exactly one slot takes a step. */
    method EvaluateRule(m: Metrics, r: Rule, now: int) returns (alert: Option<Alert>)
      requires Valid() && r in rules && ValidId(m.containerID)
      modifies this
      ensures Valid()
      ensures var k := AlertKey(m.containerID, r.name);
              && conditionStart - {k} == old(conditionStart) - {k}
              && activeAlerts - {k} == old(activeAlerts) - {k}
      ensures Holds(r, m) <==> AlertKey(m.containerID, r.name) in conditionStart
      ensures !Holds(r, m) ==> AlertKey(m.containerID, r.name) !in activeAlerts
      ensures var p := old(PhaseAt(State(), m.containerID, r));
              && PhaseAt(State(), m.containerID, r) == Next(r, p, Sample(Some(m), now))
              && alert == Emission(r, p, Sample(Some(m), now))
      ensures firedAlerts == (if alert.Some? then Recorded([alert.value], old(firedAlerts)) else old(firedAlerts))
    {
      var key := AlertKey(m.containerID, r.name);
      ghost var s0 := State();
      var value := MetricValue(m, r.metric);

      if !Compare(value, r.operator, r.threshold) {
        conditionStart := conditionStart - {key};
        activeAlerts := activeAlerts - {key};
        ClearingKeepsForm(rules, s0, key);
        assert State() == EngineState(s0.start - {key}, s0.active - {key}, s0.history);
        return None;
      }
      if key !in conditionStart {
        conditionStart := conditionStart[key := now];
        StartingKeepsForm(rules, s0, key, now);
        ChangedOnlyAt(s0.start, key, now);
        return None;
      }
      var startTime := conditionStart[key];
      if now - startTime < r.duration {
        return None;
      }
      if key in activeAlerts {
        return None;
      }
      var a := Alert(r.name, m.containerID, m.containerName, r.metric, value,
                     r.threshold, r.severity, now, startTime);
      activeAlerts := activeAlerts[key := a];
      RecordedFirst(a, firedAlerts);
      firedAlerts := [a] + firedAlerts;
      if |firedAlerts| > HISTORY_SIZE {
        firedAlerts := firedAlerts[..HISTORY_SIZE];
      }
      FiringKeepsForm(rules, s0, a, firedAlerts);
      ChangedOnlyAt(s0.active, key, a);
      return Some(a);
    }

    /** One evaluation of every container against every rule, containers in any order. */
    method Evaluate(stats: map<string, Metrics>, now: int) returns (newAlerts: seq<Alert>)
      requires Valid() && WellKeyed(stats)
      modifies this
      ensures Valid()
      ensures Evaluates(rules, old(State()), stats, now, State(), newAlerts)
    {
      ghost var s0 := State();
      newAlerts := [];
      ClearInactiveAlerts(stats);
      NothingPassed(rules, s0, stats, now);
      ghost var done: set<string> := {};
      var todo := stats.Keys;
      while todo != {}
        invariant todo <= stats.Keys && done == stats.Keys - todo
        invariant Partly(rules, s0, stats, now, done, "", 0, State())
        invariant PartlyFired(rules, s0, stats, now, done, "", 0, newAlerts)
        invariant firedAlerts == Recorded(newAlerts, s0.history)
        decreases |todo|
      {
        var c :| c in todo;
        Refocus(rules, s0, stats, now, done, c, State(), newAlerts);
        newAlerts := EvaluateContainer(stats, c, now, s0, done, newAlerts);
        CloseContainer(rules, s0, stats, now, done, c, State(), newAlerts);
        done := done + {c};
        todo := todo - {c};
      }
      assert done == stats.Keys;
      AllPassed(rules, s0, stats, now, State(), newAlerts);
    }

    /** The inner loop: one container against every rule. */
    method EvaluateContainer(stats: map<string, Metrics>, c: string, now: int,
                             ghost s0: EngineState, ghost done: set<string>, before: seq<Alert>)
      returns (newAlerts: seq<Alert>)
      requires Valid() && WellKeyed(stats) && c in stats && c !in done
      requires Partly(rules, s0, stats, now, done, c, 0, State())
      requires PartlyFired(rules, s0, stats, now, done, c, 0, before)
      requires firedAlerts == Recorded(before, s0.history)
      modifies this
      ensures Valid()
      ensures Partly(rules, s0, stats, now, done, c, |rules|, State())
      ensures PartlyFired(rules, s0, stats, now, done, c, |rules|, newAlerts)
      ensures firedAlerts == Recorded(newAlerts, s0.history)
    {
      newAlerts := before;
      for j := 0 to |rules|
        invariant Valid()
        invariant Partly(rules, s0, stats, now, done, c, j, State())
        invariant PartlyFired(rules, s0, stats, now, done, c, j, newAlerts)
        invariant firedAlerts == Recorded(newAlerts, s0.history)
      {
        ghost var s := State();
        var alert := EvaluateRule(stats[c], rules[j], now);
        PartlyStep(rules, s0, stats, now, done, c, j, s, State());
        FiredStep(rules, s0, stats, now, done, c, j, newAlerts, alert);
        if alert.Some? {
          RecordedInTwo(newAlerts, [alert.value], s0.history);
          newAlerts := newAlerts + [alert.value];
        }
      }
    }

    /** All active alerts, reduced to one of the highest severity per container and metric. */
    method GetActiveAlerts() returns (result: seq<Alert>)
      requires Valid()
      ensures BestPerGroup(activeAlerts, result)
    {
      var bestAlerts := HighestSeverities(activeAlerts);
      result := ListValues(bestAlerts);
      ListedBestIsBest(activeAlerts, bestAlerts, result);
    }

    /** The number of slots whose timer runs without an alert: since every active
        key also has a start time, the difference of the two map sizes. */
    method GetPendingCount() returns (pending: nat)
      requires Valid()
      ensures pending == |conditionStart| - |activeAlerts|
      ensures pending == |set k | k in conditionStart && k !in activeAlerts|
    {
      pending := CountUnfired(conditionStart, activeAlerts);
      assert conditionStart.Keys - activeAlerts.Keys == set k | k in conditionStart && k !in activeAlerts;
      SubmapSize(activeAlerts, conditionStart);
    }
  }

  /** First loop of `GetActiveAlerts`. */
  method HighestSeverities(active: map<string, Alert>) returns (best: map<string, Alert>)
    requires forall k :: k in active ==> ValidId(active[k].containerID)
    ensures BestSoFar(active, active.Keys, best)
  {
    best := map[];
    var todo := active.Keys;
    ghost var seen: set<string> := {};
    while todo != {}
      invariant seen == active.Keys - todo && todo <= active.Keys
      invariant BestSoFar(active, seen, best)
      decreases |todo|
    {
      var k :| k in todo;
      var a := active[k];
      var key := AlertKey(a.containerID, a.metric);
      BestStep(active, seen, best, k);
      if key !in best || SeverityWeight(a.severity) > SeverityWeight(best[key].severity) {
        best := best[key := a];
      }
      seen := seen + {k};
      todo := todo - {k};
    }
    assert seen == active.Keys;
  }

  /** Second loop of `GetActiveAlerts`. */
  method ListValues(best: map<string, Alert>) returns (result: seq<Alert>)
    requires KeyedByGroup(best)
    ensures Lists(best, best.Keys, result)
  {
    result := [];
    var todo := best.Keys;
    ghost var listed: set<string> := {};
    while todo != {}
      invariant listed == best.Keys - todo && todo <= best.Keys
      invariant Lists(best, listed, result)
      decreases |todo|
    {
      var g :| g in todo;
      ListsStep(best, listed, result, g);
      result := result + [best[g]];
      todo := todo - {g};
      listed := listed + {g};
    }
    assert listed == best.Keys;
  }

  /** The loop of `GetPendingCount`. */
  method CountUnfired(start: map<string, int>, active: map<string, Alert>) returns (pending: nat)
    ensures pending == |start.Keys - active.Keys|
  {
    pending := 0;
    var todo := start.Keys;
    while todo != {}
      invariant pending + |todo - active.Keys| == |start.Keys - active.Keys|
      decreases |todo|
    {
      var k :| k in todo;
      OneFewer(todo, active.Keys, k);
      if k !in active {
        pending := pending + 1;
      }
      todo := todo - {k};
    }
  }

  lemma OneFewer(todo: set<string>, skip: set<string>, k: string)
    requires k in todo
    ensures |todo - skip| == |(todo - {k}) - skip| + if k in skip then 0 else 1
  {
    if k in skip {
      assert (todo - {k}) - skip == todo - skip;
    } else {
      assert (todo - {k}) - skip == (todo - skip) - {k};
    }
  }
}
