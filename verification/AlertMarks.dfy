/**
 * The alert mark of each container row (`updateAlertMarks` in internal/tui/tui.go),
 * computed from the security alerts and the reduced list of active alerts.
 */
module AlertMarks {
  import opened Common
  import opened AlertModel
  import opened AlertEngine

  datatype Mark = ActiveCritical | SecurityCritical | ActiveOther | SecurityOther

  predicate Concerns(alerts: seq<Alert>, c: string) {
    exists a :: a in alerts && a.containerID == c
  }

  predicate Critical(alerts: seq<Alert>, c: string) {
    exists a :: a in alerts && a.containerID == c && a.severity == "critical"
  }

  /** The priority: active critical, security critical, other active, other security. */
  function MarkOf(security: seq<Alert>, active: seq<Alert>, c: string): Option<Mark> {
    if Critical(active, c) then Some(ActiveCritical)
    else if Critical(security, c) then Some(SecurityCritical)
    else if Concerns(active, c) then Some(ActiveOther)
    else if Concerns(security, c) then Some(SecurityOther)
    else None
  }

  /** A row has a mark exactly when some alert is of its container, and each mark has its own
      condition. */
  ghost predicate MarkedByPriority(security: seq<Alert>, active: seq<Alert>, c: string, mark: Option<Mark>) {
    && (mark.Some? <==> Concerns(active, c) || Concerns(security, c))
    && (mark == Some(ActiveCritical) <==> Critical(active, c))
    && (mark == Some(SecurityCritical) <==> Critical(security, c) && !Critical(active, c))
    && (mark == Some(ActiveOther) <==> Concerns(active, c) && !Critical(active, c) && !Critical(security, c))
    && (mark == Some(SecurityOther) <==> Concerns(security, c) && !Concerns(active, c) && !Critical(security, c))
  }

  function Lookup(marks: map<string, Mark>, c: string): Option<Mark> {
    if c in marks then Some(marks[c]) else None
  }

  lemma ExtendAlerts(alerts: seq<Alert>, i: nat, c: string)
    requires i < |alerts|
    ensures Concerns(alerts[..i + 1], c) <==> Concerns(alerts[..i], c) || alerts[i].containerID == c
    ensures Critical(alerts[..i + 1], c) <==>
              Critical(alerts[..i], c) || (alerts[i].containerID == c && alerts[i].severity == "critical")
  {
    assert alerts[..i + 1] == alerts[..i] + [alerts[i]];
    assert alerts[i] in alerts[..i + 1];
  }

  /** Two passes over two lists; later entries overwrite only what they outrank. */
  method UpdateAlertMarks(security: seq<Alert>, active: seq<Alert>) returns (marks: map<string, Mark>)
    ensures forall c :: Lookup(marks, c) == MarkOf(security, active, c)
    ensures forall c :: MarkedByPriority(security, active, c, Lookup(marks, c))
  {
    marks := SecurityPass(security);
    for i := 0 to |active|
      invariant forall c :: Lookup(marks, c) == MarkOf(security, active[..i], c)
    {
      var a := active[i];
      var c := a.containerID;
      ghost var before := marks;
      if a.severity == "critical" {
        marks := marks[c := ActiveCritical];
      } else if Lookup(marks, c) != Some(ActiveCritical) && Lookup(marks, c) != Some(SecurityCritical) {
        marks := marks[c := ActiveOther];
      }
      forall x ensures Lookup(marks, x) == MarkOf(security, active[..i + 1], x) {
        assert Lookup(before, x) == MarkOf(security, active[..i], x);
        ExtendAlerts(active, i, x);
      }
    }
    assert active[..|active|] == active;
  }

  method SecurityPass(security: seq<Alert>) returns (marks: map<string, Mark>)
    ensures forall c :: Lookup(marks, c) == MarkOf(security, [], c)
  {
    marks := map[];
    for i := 0 to |security|
      invariant forall c :: Lookup(marks, c) == MarkOf(security[..i], [], c)
    {
      var a := security[i];
      ghost var before := marks;
      if a.severity == "critical" {
        marks := marks[a.containerID := SecurityCritical];
      } else if Lookup(marks, a.containerID) != Some(SecurityCritical) {
        marks := marks[a.containerID := SecurityOther];
      }
      forall x ensures Lookup(marks, x) == MarkOf(security[..i + 1], [], x) {
        assert Lookup(before, x) == MarkOf(security[..i], [], x);
        ExtendAlerts(security, i, x);
      }
    }
    assert security[..|security|] == security;
  }

  lemma OnlyCriticalWeighsThree(severity: string)
    ensures SeverityWeight(severity) >= 3 <==> severity == "critical"
  {
  }

  ghost predicate Lists(all: seq<Alert>, activeAlerts: map<string, Alert>) {
    forall a :: a in all <==> a in activeAlerts.Values
  }

  lemma ReducedConcerns(activeAlerts: map<string, Alert>, reduced: seq<Alert>, all: seq<Alert>, c: string)
    requires BestPerGroup(activeAlerts, reduced) && Lists(all, activeAlerts)
    ensures Concerns(reduced, c) <==> Concerns(all, c)
  {
    if Concerns(all, c) {
      var b :| b in all && b.containerID == c;
      assert Covered(reduced, b);
      var a :| a in reduced && Outranks(a, b);
      assert a.containerID == c;
    }
  }

  lemma ReducedCritical(activeAlerts: map<string, Alert>, reduced: seq<Alert>, all: seq<Alert>, c: string)
    requires BestPerGroup(activeAlerts, reduced) && Lists(all, activeAlerts)
    ensures Critical(reduced, c) <==> Critical(all, c)
  {
    if Critical(all, c) {
      var b :| b in all && b.containerID == c && b.severity == "critical";
      assert Covered(reduced, b);
      var a :| a in reduced && Outranks(a, b);
      OnlyCriticalWeighsThree(a.severity);
      assert a.containerID == c && a.severity == "critical";
    }
  }

  /** Marks computed from the one-per-group list the engine returns are the marks of
      all active alerts: the reduction loses nothing the dashboard shows. */
  lemma ReducedListSameMarks(activeAlerts: map<string, Alert>, reduced: seq<Alert>, all: seq<Alert>,
                             security: seq<Alert>, c: string)
    requires BestPerGroup(activeAlerts, reduced) && Lists(all, activeAlerts)
    ensures MarkOf(security, reduced, c) == MarkOf(security, all, c)
  {
    ReducedConcerns(activeAlerts, reduced, all, c);
    ReducedCritical(activeAlerts, reduced, all, c);
  }
}
