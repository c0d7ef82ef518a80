/**
 * Whole runs of the alert engine: any number of evaluations from a new engine,
 * each meeting the specification `Evaluates`. The per-slot facts of
 * AlertAutomaton become facts about the alerts the engine returns.
 */
module AlertRuns {
  import opened Common
  import opened AlertModel
  import opened AlertAutomaton
  import opened AlertEngine

  datatype Tick = Tick(stats: map<string, Metrics>, now: int)

  ghost predicate IsRun(rules: seq<Rule>, ticks: seq<Tick>, states: seq<EngineState>, outs: seq<seq<Alert>>) {
    && |states| == |ticks| + 1 && |outs| == |ticks|
    && states[0] == EMPTY
    && forall i :: 0 <= i < |ticks| ==> IsTick(rules, ticks, states, outs, i)
  }

  ghost predicate IsTick(rules: seq<Rule>, ticks: seq<Tick>, states: seq<EngineState>, outs: seq<seq<Alert>>, i: nat)
    requires |states| == |ticks| + 1 && |outs| == |ticks| && i < |ticks|
  {
    && WellKeyed(ticks[i].stats)
    && Evaluates(rules, states[i], ticks[i].stats, ticks[i].now, states[i + 1], outs[i])
  }

  lemma TickOf(rules: seq<Rule>, ticks: seq<Tick>, states: seq<EngineState>, outs: seq<seq<Alert>>, n: nat)
    requires IsRun(rules, ticks, states, outs) && n < |ticks|
    ensures WellKeyed(ticks[n].stats)
    ensures Evaluates(rules, states[n], ticks[n].stats, ticks[n].now, states[n + 1], outs[n])
  {
    assert IsTick(rules, ticks, states, outs, n);
  }

  /** What the run shows of one container. */
  function Samples(ticks: seq<Tick>, c: string): (h: seq<Sample>)
    ensures |h| == |ticks|
  {
    seq(|ticks|, i requires 0 <= i < |ticks| => SampleOf(ticks[i].stats, c, ticks[i].now))
  }

  ghost predicate ClockMonotone(ticks: seq<Tick>) {
    forall i, j :: 0 <= i <= j < |ticks| ==> ticks[i].now <= ticks[j].now
  }

  // ---- Refinement ------------------------------------------------------------------

  /** After any run, each slot of the maps is in the phase that its own automaton
      reaches on its container's samples alone. */
  lemma {:induction false} SlotsRunAutomata(rules: seq<Rule>, ticks: seq<Tick>, states: seq<EngineState>,
                                            outs: seq<seq<Alert>>, n: nat, c: string, r: Rule)
    requires IsRun(rules, ticks, states, outs) && n <= |ticks|
    requires ValidId(c) && r in rules
    ensures PhaseAt(states[n], c, r) == PhaseAfter(r, Samples(ticks, c), n)
  {
    if n > 0 {
      SlotsRunAutomata(rules, ticks, states, outs, n - 1, c, r);
      TickOf(rules, ticks, states, outs, n - 1);
    }
  }

  /** Two runs on the same snapshots end in the same maps and return the same
      alerts up to order: iteration order never matters. */
  lemma RunsAgree(rules: seq<Rule>, ticks: seq<Tick>, states1: seq<EngineState>, outs1: seq<seq<Alert>>,
                  states2: seq<EngineState>, outs2: seq<seq<Alert>>, n: nat)
    requires IsRun(rules, ticks, states1, outs1) && IsRun(rules, ticks, states2, outs2)
    requires n < |ticks|
    ensures states1[n + 1].start == states2[n + 1].start && states1[n + 1].active == states2[n + 1].active
    ensures multiset(outs1[n]) == multiset(outs2[n])
  {
    forall c, r | ValidId(c) && r in rules
      ensures PhaseAt(states1[n], c, r) == PhaseAt(states2[n], c, r)
      ensures PhaseAt(states1[n + 1], c, r) == PhaseAt(states2[n + 1], c, r)
    {
      SlotsRunAutomata(rules, ticks, states1, outs1, n, c, r);
      SlotsRunAutomata(rules, ticks, states2, outs2, n, c, r);
      SlotsRunAutomata(rules, ticks, states1, outs1, n + 1, c, r);
      SlotsRunAutomata(rules, ticks, states2, outs2, n + 1, c, r);
    }
    TickOf(rules, ticks, states1, outs1, n);
    TickOf(rules, ticks, states2, outs2, n);
    SlotsDetermineState(rules, states1[n + 1], states2[n + 1]);
    forall a ensures a in outs1[n] <==> a in outs2[n] {
      assert Emitted(rules, states1[n], ticks[n].stats, ticks[n].now, a) <==>
             Emitted(rules, states2[n], ticks[n].stats, ticks[n].now, a);
    }
    SameElementsSameMultiset(outs1[n], outs2[n]);
  }

  // ---- Which alerts a run returns -----------------------------------------------------

  ghost predicate FiredBySlot(rules: seq<Rule>, ticks: seq<Tick>, n: nat, r: Rule, a: Alert)
    requires n < |ticks|
  {
    r in rules && r.name == a.ruleName && FiresAt(r, Samples(ticks, a.containerID), n) == Some(a)
  }

  lemma ReturnedIffSlotFires(rules: seq<Rule>, ticks: seq<Tick>, states: seq<EngineState>,
                             outs: seq<seq<Alert>>, n: nat, a: Alert)
    requires IsRun(rules, ticks, states, outs) && n < |ticks|
    ensures a in outs[n] <==> ValidId(a.containerID) && exists r :: FiredBySlot(rules, ticks, n, r, a)
  {
    TickOf(rules, ticks, states, outs, n);
    forall r | r in rules && ValidId(a.containerID)
      ensures FiredBySlot(rules, ticks, n, r, a) <==> EmittedBy(states[n], ticks[n].stats, ticks[n].now, r, a)
    {
      SlotsRunAutomata(rules, ticks, states, outs, n, a.containerID, r);
    }
    if a in outs[n] {
      var r :| r in rules && EmittedBy(states[n], ticks[n].stats, ticks[n].now, r, a);
      assert FiredBySlot(rules, ticks, n, r, a);
    }
    if ValidId(a.containerID) && exists r :: FiredBySlot(rules, ticks, n, r, a) {
      var r :| FiredBySlot(rules, ticks, n, r, a);
      assert EmittedBy(states[n], ticks[n].stats, ticks[n].now, r, a);
      assert Emitted(rules, states[n], ticks[n].stats, ticks[n].now, a);
    }
  }

  /** An evaluation returns an alert exactly when it closes a firing window of one
      of the rules, and the alert then carries both ends of that window. */
  lemma ReturnedIffWindowCloses(rules: seq<Rule>, ticks: seq<Tick>, states: seq<EngineState>,
                                outs: seq<seq<Alert>>, n: nat, a: Alert)
    requires IsRun(rules, ticks, states, outs) && n < |ticks|
    ensures a in outs[n] <==>
            && ValidId(a.containerID)
            && var h := Samples(ticks, a.containerID);
               exists r, m: nat :: m < n && r in rules && FiringWindow(r, h, m, n)
                                && a == AlertFor(r, h[n].obs.value, h[m].now, h[n].now)
  {
    ReturnedIffSlotFires(rules, ticks, states, outs, n, a);
    var h := Samples(ticks, a.containerID);
    if a in outs[n] {
      var r :| FiredBySlot(rules, ticks, n, r, a);
      FiresExactlyAtWindowEnd(r, h, n, a);
    }
    if r, m: nat :| m < n && r in rules && FiringWindow(r, h, m, n)
                    && a == AlertFor(r, h[n].obs.value, h[m].now, h[n].now) {
      FiresExactlyAtWindowEnd(r, h, n, a);
      assert FiredBySlot(rules, ticks, n, r, a);
    }
  }

  /** What a returned alert says, in terms of the rule and of the snapshot that fired it. */
  lemma ReturnedAlertTells(rules: seq<Rule>, ticks: seq<Tick>, states: seq<EngineState>,
                           outs: seq<seq<Alert>>, n: nat, a: Alert) returns (r: Rule)
    requires IsRun(rules, ticks, states, outs) && n < |ticks| && a in outs[n]
    ensures r in rules && a.containerID in ticks[n].stats
    ensures var m := ticks[n].stats[a.containerID];
            && a.containerName == m.containerName && a.firedAt == ticks[n].now
            && a.ruleName == r.name && a.metric == r.metric
            && a.threshold == r.threshold && a.severity == r.severity
            && a.currentValue == MetricValue(m, r.metric) && Holds(r, m)
  {
    ReturnedIffWindowCloses(rules, ticks, states, outs, n, a);
    var h := Samples(ticks, a.containerID);
    r :| r in rules && exists m: nat :: m < n && FiringWindow(r, h, m, n)
                                     && a == AlertFor(r, h[n].obs.value, h[m].now, h[n].now);
  }

  // ---- When an alert stands -------------------------------------------------------------

  /** After any run an alert is active exactly when it was returned and no evaluation since
      then found its container missing or its condition false. */
  lemma ActiveExactlyUntilCleared(rules: seq<Rule>, ticks: seq<Tick>, states: seq<EngineState>,
                                  outs: seq<seq<Alert>>, n: nat, c: string, r: Rule, a: Alert)
    requires IsRun(rules, ticks, states, outs) && DistinctNames(rules) && n <= |ticks|
    requires ValidId(c) && r in rules
    ensures var k, h := AlertKey(c, r.name), Samples(ticks, c);
            k in states[n].active && states[n].active[k] == a <==>
              && a.containerID == c && a.ruleName == r.name
              && exists e: nat :: e < n && a in outs[e] && forall j :: e < j < n ==> !Clears(r, h[j])
  {
    var k, h := AlertKey(c, r.name), Samples(ticks, c);
    SlotsRunAutomata(rules, ticks, states, outs, n, c, r);
    if k in states[n].active && states[n].active[k] == a {
      var e := StandingWasReturned(rules, ticks, states, outs, n, c, r);
    }
    if e: nat :| e < n && a in outs[e] && a.containerID == c && a.ruleName == r.name
                 && forall j :: e < j < n ==> !Clears(r, h[j]) {
      ReturnedStands(rules, ticks, states, outs, e, n, c, r, a);
    }
  }

  lemma StandingWasReturned(rules: seq<Rule>, ticks: seq<Tick>, states: seq<EngineState>,
                            outs: seq<seq<Alert>>, n: nat, c: string, r: Rule) returns (e: nat)
    requires IsRun(rules, ticks, states, outs) && n <= |ticks| && ValidId(c) && r in rules
    requires PhaseAfter(r, Samples(ticks, c), n).Firing?
    ensures var a, h := PhaseAfter(r, Samples(ticks, c), n).alert, Samples(ticks, c);
            && a.containerID == c && a.ruleName == r.name
            && e < n && a in outs[e] && forall j :: e < j < n ==> !Clears(r, h[j])
  {
    var h := Samples(ticks, c);
    PhaseFromSamples(r, h, n);
    var m: nat, e': nat :| m < n && Stands(r, h, m, e', n);
    e := e';
    TickOf(rules, ticks, states, outs, e);
    ReturnedIffWindowCloses(rules, ticks, states, outs, e, PhaseAfter(r, h, n).alert);
  }

  lemma ReturnedStands(rules: seq<Rule>, ticks: seq<Tick>, states: seq<EngineState>,
                       outs: seq<seq<Alert>>, e: nat, n: nat, c: string, r: Rule, a: Alert)
    requires IsRun(rules, ticks, states, outs) && DistinctNames(rules) && e < n <= |ticks| && r in rules
    requires a in outs[e] && a.containerID == c && a.ruleName == r.name
    requires forall j :: e < j < n ==> !Clears(r, Samples(ticks, c)[j])
    ensures PhaseAfter(r, Samples(ticks, c), n) == Firing(a)
  {
    var h := Samples(ticks, c);
    ReturnedIffSlotFires(rules, ticks, states, outs, e, a);
    var r' :| FiredBySlot(rules, ticks, e, r', a);
    SameNameSameRule(rules, r, r');
    var m := WindowOf(r, h, e);
    assert Stands(r, h, m, e, n);
    PhaseFromSamples(r, h, n);
  }

  /** A slot is pending exactly while a timer that the samples started still runs, and its
      recorded start is the time of the sample that started it. */
  lemma PendingExactlyWhileWaiting(rules: seq<Rule>, ticks: seq<Tick>, states: seq<EngineState>,
                                   outs: seq<seq<Alert>>, n: nat, c: string, r: Rule)
    requires IsRun(rules, ticks, states, outs) && n <= |ticks|
    requires ValidId(c) && r in rules
    ensures var k, h := AlertKey(c, r.name), Samples(ticks, c);
            && (k in states[n].start && k !in states[n].active <==> Waiting(r, h, n))
            && forall m: nat :: Building(r, h, m, n) ==>
                 m < n && k in states[n].start && states[n].start[k] == h[m].now
  {
    SlotsRunAutomata(rules, ticks, states, outs, n, c, r);
    PhaseFromSamples(r, Samples(ticks, c), n);
  }

  /** Two alerts of one slot: the container was missing or the condition false
      strictly between them, and their [activeSince, firedAt] intervals are disjoint
      (they can share an instant only if the clock stood still). */
  lemma AlertsOfASlotAreSeparated(rules: seq<Rule>, ticks: seq<Tick>, states: seq<EngineState>,
                                  outs: seq<seq<Alert>>, n1: nat, n2: nat, a1: Alert, a2: Alert)
    requires IsRun(rules, ticks, states, outs) && ClockMonotone(ticks) && DistinctNames(rules)
    requires n1 < n2 < |ticks| && a1 in outs[n1] && a2 in outs[n2]
    requires a1.containerID == a2.containerID && a1.ruleName == a2.ruleName
    ensures a1.firedAt <= a2.activeSince
    ensures exists r, j: nat, m: nat ::
              && r in rules && r.name == a1.ruleName && n1 < j < m < n2
              && Clears(r, Samples(ticks, a1.containerID)[j])
              && ticks[m].now == a2.activeSince
  {
    ReturnedIffSlotFires(rules, ticks, states, outs, n1, a1);
    ReturnedIffSlotFires(rules, ticks, states, outs, n2, a2);
    var r1 :| FiredBySlot(rules, ticks, n1, r1, a1);
    var r2 :| FiredBySlot(rules, ticks, n2, r2, a2);
    SameNameSameRule(rules, r1, r2);
    FiringsAreSeparated(r1, Samples(ticks, a1.containerID), n1, n2);
  }

  // ---- How many alerts a slot can produce ------------------------------------------

  function CountSlot(fired: seq<Alert>, c: string, name: string): nat {
    if fired == [] then 0
    else CountSlot(fired[1..], c, name) +
         if fired[0].containerID == c && fired[0].ruleName == name then 1 else 0
  }

  lemma {:induction false} CountSlotAppend(f1: seq<Alert>, f2: seq<Alert>, c: string, name: string)
    ensures CountSlot(f1 + f2, c, name) == CountSlot(f1, c, name) + CountSlot(f2, c, name)
  {
    if f1 == [] {
      assert f1 + f2 == f2;
    } else {
      assert (f1 + f2)[1..] == f1[1..] + f2;
      CountSlotAppend(f1[1..], f2, c, name);
    }
  }

  lemma {:induction false} CountSlotUnique(fired: seq<Alert>, c: string, name: string, a: Option<Alert>)
    requires NoDuplicates(fired)
    requires a.Some? ==> a.value.containerID == c && a.value.ruleName == name
    requires forall b :: b in fired && b.containerID == c && b.ruleName == name ==> a == Some(b)
    ensures CountSlot(fired, c, name) == if a.Some? && a.value in fired then 1 else 0
  {
    if fired != [] {
      var b, rest := fired[0], fired[1..];
      assert fired == [b] + rest;
      assert b !in rest;
      CountSlotUnique(rest, c, name, if b.containerID == c && b.ruleName == name then None else a);
    }
  }

  lemma CountedAt(rules: seq<Rule>, ticks: seq<Tick>, states: seq<EngineState>,
                  outs: seq<seq<Alert>>, n: nat, c: string, r: Rule)
    requires IsRun(rules, ticks, states, outs) && n < |ticks|
    requires DistinctNames(rules) && ValidId(c) && r in rules
    ensures CountSlot(outs[n], c, r.name) == if FiresAt(r, Samples(ticks, c), n).Some? then 1 else 0
  {
    TickOf(rules, ticks, states, outs, n);
    var a := FiresAt(r, Samples(ticks, c), n);
    if a.Some? {
      ReturnedIffSlotFires(rules, ticks, states, outs, n, a.value);
      assert FiredBySlot(rules, ticks, n, r, a.value);
    }
    forall b | b in outs[n] && b.containerID == c && b.ruleName == r.name ensures a == Some(b) {
      ReturnedIffSlotFires(rules, ticks, states, outs, n, b);
      var r' :| FiredBySlot(rules, ticks, n, r', b);
      SameNameSameRule(rules, r, r');
    }
    CountSlotUnique(outs[n], c, r.name, a);
  }

  lemma {:induction false} CountedFirings(rules: seq<Rule>, ticks: seq<Tick>, states: seq<EngineState>,
                                          outs: seq<seq<Alert>>, n: nat, c: string, r: Rule)
    requires IsRun(rules, ticks, states, outs) && n <= |ticks|
    requires DistinctNames(rules) && ValidId(c) && r in rules
    ensures CountSlot(Concat(outs[..n]), c, r.name) == FireCount(r, Samples(ticks, c), n)
  {
    if n > 0 {
      CountedFirings(rules, ticks, states, outs, n - 1, c, r);
      assert outs[..n][..n - 1] == outs[..n - 1];
      CountSlotAppend(Concat(outs[..n - 1]), outs[n - 1], c, r.name);
      CountedAt(rules, ticks, states, outs, n - 1, c, r);
    }
  }

  /** If a slot returned k alerts over a run, the run lasted at least k durations. */
  lemma AlertRate(rules: seq<Rule>, ticks: seq<Tick>, states: seq<EngineState>,
                  outs: seq<seq<Alert>>, c: string, r: Rule)
    requires IsRun(rules, ticks, states, outs) && ClockMonotone(ticks) && ticks != []
    requires DistinctNames(rules) && ValidId(c) && r in rules
    ensures CountSlot(Concat(outs), c, r.name) * r.duration <= ticks[|ticks| - 1].now - ticks[0].now
  {
    assert outs[..|ticks|] == outs;
    CountedFirings(rules, ticks, states, outs, |ticks|, c, r);
    FiringRate(r, Samples(ticks, c), |ticks|);
  }

  // ---- History ------------------------------------------------------------------------

  /** The history is the newest 50 of all alerts ever fired, newest first. */
  lemma {:induction false} HistoryIsNewest(rules: seq<Rule>, ticks: seq<Tick>, states: seq<EngineState>,
                                           outs: seq<seq<Alert>>, n: nat)
    requires IsRun(rules, ticks, states, outs) && n <= |ticks|
    ensures states[n].history == Take(Reverse(Concat(outs[..n])), 50)
  {
    if n > 0 {
      HistoryIsNewest(rules, ticks, states, outs, n - 1);
      TickOf(rules, ticks, states, outs, n - 1);
      assert outs[..n][..n - 1] == outs[..n - 1];
      RecordedNewest(Concat(outs[..n - 1]), outs[n - 1]);
    }
  }

  lemma RecordedNewest(before: seq<Alert>, fired: seq<Alert>)
    ensures Recorded(fired, Take(Reverse(before), HISTORY_SIZE)) == Take(Reverse(before + fired), HISTORY_SIZE)
  {
    assert Reverse(before) + [] == Reverse(before);
    RecordedInTwo(before, fired, []);
    assert Reverse(before + fired) + [] == Reverse(before + fired);
  }

  ghost predicate OldestFirst(all: seq<Alert>) {
    forall i, j :: 0 <= i <= j < |all| ==> all[i].firedAt <= all[j].firedAt
  }

  lemma OldestFirstAppend(before: seq<Alert>, now: int, fired: seq<Alert>)
    requires OldestFirst(before) && forall a :: a in before ==> a.firedAt <= now
    requires forall a :: a in fired ==> a.firedAt == now
    ensures OldestFirst(before + fired) && forall a :: a in before + fired ==> a.firedAt <= now
  {
    assert forall i :: 0 <= i < |before| ==> before[i] in before;
    assert forall i :: 0 <= i < |fired| ==> fired[i] in fired;
  }

  lemma {:induction false} FiredInOrder(rules: seq<Rule>, ticks: seq<Tick>, states: seq<EngineState>,
                                        outs: seq<seq<Alert>>, n: nat)
    requires IsRun(rules, ticks, states, outs) && ClockMonotone(ticks) && n <= |ticks|
    ensures OldestFirst(Concat(outs[..n]))
    ensures forall a :: a in Concat(outs[..n]) ==> n > 0 && a.firedAt <= ticks[n - 1].now
  {
    if n > 0 {
      FiredInOrder(rules, ticks, states, outs, n - 1);
      assert outs[..n][..n - 1] == outs[..n - 1];
      TickOf(rules, ticks, states, outs, n - 1);
      var now := ticks[n - 1].now;
      forall a | a in outs[n - 1] ensures a.firedAt == now {
        assert Emitted(rules, states[n - 1], ticks[n - 1].stats, now, a);
      }
      assert n > 1 ==> ticks[n - 2].now <= now;
      OldestFirstAppend(Concat(outs[..n - 1]), now, outs[n - 1]);
    }
  }

  lemma HistoryNewestFirst(rules: seq<Rule>, ticks: seq<Tick>, states: seq<EngineState>,
                           outs: seq<seq<Alert>>, n: nat)
    requires IsRun(rules, ticks, states, outs) && ClockMonotone(ticks) && n <= |ticks|
    ensures var h := states[n].history;
            && |h| <= HISTORY_SIZE
            && forall i, j :: 0 <= i <= j < |h| ==> h[i].firedAt >= h[j].firedAt
  {
    HistoryIsNewest(rules, ticks, states, outs, n);
    FiredInOrder(rules, ticks, states, outs, n);
  }
}
