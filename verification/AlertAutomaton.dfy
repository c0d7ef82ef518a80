/**
 * One (container, rule) slot of the alert engine seen alone: a three-phase timer
 * automaton, and what its runs look like. Nothing here mentions the engine's
 * flattened maps; module AlertEngine proves that they implement it.
 */
module AlertAutomaton {
  import opened Common
  import opened AlertModel

  datatype Phase =
    | Idle
    | Pending(since: int)
    | Firing(alert: Alert)

  /** What one evaluation shows of one container, and when. */
  datatype Sample = Sample(obs: Option<Metrics>, now: int)

  function AlertFor(r: Rule, m: Metrics, since: int, now: int): Alert {
    Alert(r.name, m.containerID, m.containerName, r.metric, MetricValue(m, r.metric),
          r.threshold, r.severity, now, since)
  }

  /** The container was sampled and the rule's condition held. */
  predicate Active(r: Rule, s: Sample) {
    s.obs.Some? && Holds(r, s.obs.value)
  }

  function Emission(r: Rule, p: Phase, s: Sample): Option<Alert> {
    if p.Pending? && Active(r, s) && s.now - p.since >= r.duration
    then Some(AlertFor(r, s.obs.value, p.since, s.now))
    else None
  }

  /** A firing slot whose container is missing is cleared; a pending one keeps its timer. */
  function Next(r: Rule, p: Phase, s: Sample): Phase {
    if s.obs.None? then
      (if p.Firing? then Idle else p)
    else if !Active(r, s) then
      Idle
    else if p.Idle? then
      Pending(s.now)
    else if Emission(r, p, s).Some? then
      Firing(Emission(r, p, s).value)
    else
      p
  }

  function PhaseAfter(r: Rule, h: seq<Sample>, n: nat): Phase
    requires n <= |h|
  {
    if n == 0 then Idle else Next(r, PhaseAfter(r, h, n - 1), h[n - 1])
  }

  function FiresAt(r: Rule, h: seq<Sample>, n: nat): Option<Alert>
    requires n < |h|
  {
    Emission(r, PhaseAfter(r, h, n), h[n])
  }

  // ---- The phase from the samples alone ---------------------------------------------------

  /** Every sample of the container strictly between `m` and `n` satisfies the condition
      while less than the duration has passed since `m`. */
  ghost predicate Quiet(r: Rule, h: seq<Sample>, m: nat, n: nat)
    requires m < n <= |h|
  {
    forall j :: m < j < n && h[j].obs.Some? ==> Active(r, h[j]) && h[j].now - h[m].now < r.duration
  }

  /** A true condition while neither a timer runs nor an alert stands. */
  ghost predicate Starts(r: Rule, h: seq<Sample>, m: nat)
    requires m < |h|
    decreases m, 1
  {
    Active(r, h[m]) && !Waiting(r, h, m) && !Standing(r, h, m)
  }

  /** `m` started the timer, which still runs after `n` samples. */
  ghost predicate Building(r: Rule, h: seq<Sample>, m: nat, n: nat)
    decreases m, 2
  {
    m < n <= |h| && Starts(r, h, m) && Quiet(r, h, m, n)
  }

  ghost predicate Waiting(r: Rule, h: seq<Sample>, n: nat)
    requires n <= |h|
    decreases n, 0
  {
    exists m: nat :: m < n && Building(r, h, m, n)
  }

  /** The timer that `m` started reaches the duration at `e`. */
  ghost predicate FiringWindow(r: Rule, h: seq<Sample>, m: nat, e: nat)
    decreases m, 3
  {
    && e < |h|
    && Building(r, h, m, e)
    && Active(r, h[e])
    && h[e].now - h[m].now >= r.duration
  }

  /** The sample shows the container missing or the condition false. */
  predicate Clears(r: Rule, s: Sample) {
    s.obs.None? || !Holds(r, s.obs.value)
  }

  /** The window closed at `e`, and no sample since shows the container missing or the
      condition false. */
  ghost predicate Stands(r: Rule, h: seq<Sample>, m: nat, e: nat, n: nat)
    requires n <= |h|
    decreases m, 4
  {
    m < e < n && FiringWindow(r, h, m, e) && forall j :: e < j < n ==> !Clears(r, h[j])
  }

  ghost predicate Standing(r: Rule, h: seq<Sample>, n: nat)
    requires n <= |h|
    decreases n, 0
  {
    exists m: nat, e: nat :: m < n && Stands(r, h, m, e, n)
  }

  lemma BuildingStep(r: Rule, h: seq<Sample>, m: nat, n: nat)
    requires n < |h|
    ensures Building(r, h, m, n + 1) <==>
              (m == n && Starts(r, h, n))
              || (Building(r, h, m, n)
                  && (h[n].obs.Some? ==> Active(r, h[n]) && h[n].now - h[m].now < r.duration))
  {
  }

  lemma StandsStep(r: Rule, h: seq<Sample>, m: nat, e: nat, n: nat)
    requires n < |h|
    ensures Stands(r, h, m, e, n + 1) <==>
              (e == n && FiringWindow(r, h, m, n)) || (Stands(r, h, m, e, n) && !Clears(r, h[n]))
  {
  }

  /** The automaton is pending exactly while a timer runs, and firing exactly while an alert
      stands: what it knows after `n` samples is a matter of the samples alone. */
  lemma {:induction false} PhaseFromSamples(r: Rule, h: seq<Sample>, n: nat)
    requires n <= |h|
    ensures PhaseAfter(r, h, n).Pending? <==> Waiting(r, h, n)
    ensures PhaseAfter(r, h, n).Firing? <==> Standing(r, h, n)
    ensures forall m: nat :: Building(r, h, m, n) ==> PhaseAfter(r, h, n) == Pending(h[m].now)
    ensures forall m: nat, e: nat :: Stands(r, h, m, e, n) ==>
              m < e < n && h[e].obs.Some? &&
              PhaseAfter(r, h, n) == Firing(AlertFor(r, h[e].obs.value, h[m].now, h[e].now))
  {
    if n > 0 {
      PhaseFromSamples(r, h, n - 1);
      forall m: nat | Building(r, h, m, n) ensures PhaseAfter(r, h, n) == Pending(h[m].now) {
        BuildingStep(r, h, m, n - 1);
      }
      forall m: nat, e: nat | Stands(r, h, m, e, n)
        ensures m < e < n && h[e].obs.Some?
        ensures PhaseAfter(r, h, n) == Firing(AlertFor(r, h[e].obs.value, h[m].now, h[e].now))
      {
        StandsStep(r, h, m, e, n - 1);
      }
      if PhaseAfter(r, h, n).Pending? {
        PendingIsBuilding(r, h, n);
      }
      if PhaseAfter(r, h, n).Firing? {
        FiringStands(r, h, n);
      }
    }
  }

  /** One step of the equivalence: a pending slot has a running timer. */
  lemma PendingIsBuilding(r: Rule, h: seq<Sample>, n: nat)
    requires 0 < n <= |h| && PhaseAfter(r, h, n).Pending?
    requires PhaseAfter(r, h, n - 1).Pending? ==> Waiting(r, h, n - 1)
    requires Waiting(r, h, n - 1) ==> PhaseAfter(r, h, n - 1).Pending?
    requires Standing(r, h, n - 1) ==> PhaseAfter(r, h, n - 1).Firing?
    requires forall m: nat :: Building(r, h, m, n - 1) ==> PhaseAfter(r, h, n - 1) == Pending(h[m].now)
    ensures Waiting(r, h, n)
  {
    if PhaseAfter(r, h, n - 1).Idle? {
      BuildingStep(r, h, n - 1, n - 1);
      assert Building(r, h, n - 1, n);
    } else {
      var m: nat :| m < n - 1 && Building(r, h, m, n - 1);
      BuildingStep(r, h, m, n - 1);
      assert Building(r, h, m, n);
    }
  }

  /** One step of the equivalence: a firing slot has a standing alert. */
  lemma FiringStands(r: Rule, h: seq<Sample>, n: nat)
    requires 0 < n <= |h| && PhaseAfter(r, h, n).Firing?
    requires PhaseAfter(r, h, n - 1).Pending? ==> Waiting(r, h, n - 1)
    requires PhaseAfter(r, h, n - 1).Firing? ==> Standing(r, h, n - 1)
    requires forall m: nat :: Building(r, h, m, n - 1) ==> PhaseAfter(r, h, n - 1) == Pending(h[m].now)
    ensures Standing(r, h, n)
  {
    if PhaseAfter(r, h, n - 1).Pending? {
      var m: nat :| m < n - 1 && Building(r, h, m, n - 1);
      StandsStep(r, h, m, n - 1, n - 1);
      assert Stands(r, h, m, n - 1, n);
    } else {
      var m: nat, e: nat :| m < n - 1 && Stands(r, h, m, e, n - 1);
      StandsStep(r, h, m, e, n - 1);
      assert Stands(r, h, m, e, n);
    }
  }

  /** After a missing container or a false condition no alert stands. */
  lemma ClearedNeverFires(r: Rule, h: seq<Sample>, n: nat)
    requires 0 < n <= |h| && Clears(r, h[n - 1])
    ensures !PhaseAfter(r, h, n).Firing?
    ensures h[n - 1].obs.Some? ==> PhaseAfter(r, h, n).Idle?
  {
  }

  // ---- When exactly an alert fires --------------------------------------------------------

  /** An alert fires exactly at the end of a firing window, and carries both ends of it.
      So the condition held at both ends and whenever sampled in between, the
      duration was first reached at the firing sample, and that sample is never
      the one that started the timer. */
  lemma FiresExactlyAtWindowEnd(r: Rule, h: seq<Sample>, n: nat, a: Alert)
    requires n < |h|
    ensures FiresAt(r, h, n) == Some(a) <==>
            exists m: nat :: m < n && FiringWindow(r, h, m, n)
                     && a == AlertFor(r, h[n].obs.value, h[m].now, h[n].now)
  {
    if FiresAt(r, h, n) == Some(a) {
      PhaseFromSamples(r, h, n);
      var m: nat :| m < n && Building(r, h, m, n);
      assert FiringWindow(r, h, m, n);
    }
    if m: nat :| m < n && FiringWindow(r, h, m, n) && a == AlertFor(r, h[n].obs.value, h[m].now, h[n].now) {
      PhaseFromSamples(r, h, n);
    }
  }

  /** A firing window may contain the container's absence: every rule whose condition some
      snapshot meets has a run that fires across one. */
  lemma FiresAcrossAbsence(r: Rule, m: Metrics) returns (h: seq<Sample>)
    requires Holds(r, m)
    ensures Chronological(h) && FiringWindow(r, h, 0, 2) && h[1].obs.None?
    ensures FiresAt(r, h, 2).Some?
  {
    var d := if r.duration > 0 then r.duration else 0;
    h := [Sample(Some(m), 0), Sample(None, 0), Sample(Some(m), d)];
    assert Building(r, h, 0, 2);
    PhaseFromSamples(r, h, 2);
  }

  // ---- How often it fires ------------------------------------------------------

  ghost predicate Chronological(h: seq<Sample>) {
    forall i, j :: 0 <= i <= j < |h| ==> h[i].now <= h[j].now
  }

  lemma {:induction false} FiringEndsByClearing(r: Rule, h: seq<Sample>, i: nat, m: nat) returns (j: nat)
    requires i <= m <= |h|
    requires PhaseAfter(r, h, i).Firing? && PhaseAfter(r, h, m).Idle?
    ensures i <= j < m && Clears(r, h[j])
    decreases m - i
  {
    if Clears(r, h[i]) {
      j := i;
    } else {
      j := FiringEndsByClearing(r, h, i + 1, m);
    }
  }

  /** Between two firings of a slot lies a clearing sample, and the second
      alert's timer started only after it: the two intervals do not overlap. */
  lemma FiringsAreSeparated(r: Rule, h: seq<Sample>, n1: nat, n2: nat)
    requires Chronological(h)
    requires n1 < n2 < |h|
    requires FiresAt(r, h, n1).Some? && FiresAt(r, h, n2).Some?
    ensures exists j: nat, m: nat :: n1 < j < m < n2 && Clears(r, h[j])
                        && FiringWindow(r, h, m, n2)
                        && FiresAt(r, h, n2).value.activeSince == h[m].now
    ensures FiresAt(r, h, n1).value.firedAt <= FiresAt(r, h, n2).value.activeSince
  {
    var m := WindowOf(r, h, n2);
    TimerStartsLater(r, h, n1, m, n2);
    var j := FiringEndsByClearing(r, h, n1 + 1, m);
    assert h[n1].now <= h[m].now;
  }

  lemma WindowOf(r: Rule, h: seq<Sample>, n: nat) returns (m: nat)
    requires n < |h| && FiresAt(r, h, n).Some?
    ensures m < n && FiringWindow(r, h, m, n)
    ensures FiresAt(r, h, n).value == AlertFor(r, h[n].obs.value, h[m].now, h[n].now)
  {
    PhaseFromSamples(r, h, n);
    m :| m < n && Building(r, h, m, n);
  }

  lemma TimerStartsLater(r: Rule, h: seq<Sample>, n1: nat, m: nat, n2: nat)
    requires n1 < n2 <= |h| && FiresAt(r, h, n1).Some? && Building(r, h, m, n2)
    ensures n1 < m < n2 && PhaseAfter(r, h, m).Idle? && PhaseAfter(r, h, n1 + 1).Firing?
  {
    PhaseFromSamples(r, h, m);
    PhaseFromSamples(r, h, n1 + 1);
    if m <= n1 {
      assert Building(r, h, m, n1 + 1);
      assert false;
    }
  }

  /** The two intervals may share an instant: every rule whose condition some snapshot meets
      has a run in which the second alert's timer starts when the first one fires. */
  lemma FiringsMayTouch(r: Rule, m: Metrics) returns (h: seq<Sample>)
    requires Holds(r, m)
    ensures Chronological(h) && |h| == 5 && FiresAt(r, h, 1).Some? && FiresAt(r, h, 4).Some?
    ensures FiresAt(r, h, 1).value.firedAt == FiresAt(r, h, 4).value.activeSince
  {
    var d := if r.duration > 0 then r.duration else 0;
    h := [Sample(Some(m), 0), Sample(Some(m), d), Sample(None, d), Sample(Some(m), d), Sample(Some(m), d + d)];
    assert PhaseAfter(r, h, 1) == Pending(0);
    assert PhaseAfter(r, h, 2).Firing?;
    assert PhaseAfter(r, h, 3).Idle?;
    assert PhaseAfter(r, h, 4) == Pending(d);
  }

  function FireCount(r: Rule, h: seq<Sample>, n: nat): nat
    requires n <= |h|
  {
    if n == 0 then 0
    else FireCount(r, h, n - 1) + if FiresAt(r, h, n - 1).Some? then 1 else 0
  }

  /** Every firing uses up one duration of the elapsed time. */
  lemma {:induction false} FiringRate(r: Rule, h: seq<Sample>, n: nat)
    requires Chronological(h)
    requires 0 < n <= |h|
    ensures FireCount(r, h, n) * r.duration <= h[n - 1].now - h[0].now
    ensures PhaseAfter(r, h, n).Pending? ==>
              FireCount(r, h, n) * r.duration <= PhaseAfter(r, h, n).since - h[0].now
  {
    if n == 1 {
      assert FireCount(r, h, 1) == 0;
    } else {
      FiringRate(r, h, n - 1);
      OneMore(FireCount(r, h, n - 1), r.duration);
      assert h[0].now <= h[n - 2].now <= h[n - 1].now;
    }
  }

  lemma OneMore(k: nat, d: int)
    ensures (k + 1) * d == k * d + d
  {
  }
}
