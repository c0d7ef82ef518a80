/**
 * The values the alert engine works on and its pure leaf functions
 * (internal/alerts/alerts.go). Times and durations are integers (nanoseconds in
 * the source), metric values are reals.
 */
module AlertModel {
  import opened Common

  datatype Rule = Rule(
    name: string, metric: string, operator: string, threshold: real,
    duration: int, severity: string)

  /** The part of a metrics snapshot that the engine reads. */
  datatype Metrics = Metrics(
    containerID: string, containerName: string,
    cpuPercent: real, memoryPercent: real,
    memoryUsage: nat, networkRx: nat, networkTx: nat)

  datatype Alert = Alert(
    ruleName: string, containerID: string, containerName: string,
    metric: string, currentValue: real, threshold: real, severity: string,
    firedAt: int, activeSince: int)

  function MetricValue(m: Metrics, metric: string): real {
    match metric
    case "cpu_percent" => m.cpuPercent
    case "memory_percent" => m.memoryPercent
    case "memory_usage" => m.memoryUsage as real
    case "network_rx" => m.networkRx as real
    case "network_tx" => m.networkTx as real
    case _ => 0.0
  }

  predicate Compare(value: real, operator: string, threshold: real) {
    match operator
    case ">" => value > threshold
    case ">=" => value >= threshold
    case "<" => value < threshold
    case "<=" => value <= threshold
    case "==" => value == threshold
    case _ => false
  }

  /** Does the rule's condition hold of this snapshot? */
  predicate Holds(r: Rule, m: Metrics) {
    Compare(MetricValue(m, r.metric), r.operator, r.threshold)
  }

  function SeverityWeight(severity: string): nat {
    match severity
    case "critical" => 3
    case "warning" => 2
    case "info" => 1
    case _ => 0
  }

  /** The condition in full: five metrics, zero for any other name; five operators, and never
      with any other. */
  lemma HoldsExactly(r: Rule, m: Metrics)
    ensures var v := if r.metric == "cpu_percent" then m.cpuPercent
                     else if r.metric == "memory_percent" then m.memoryPercent
                     else if r.metric == "memory_usage" then m.memoryUsage as real
                     else if r.metric == "network_rx" then m.networkRx as real
                     else if r.metric == "network_tx" then m.networkTx as real
                     else 0.0;
            && MetricValue(m, r.metric) == v
            && (Holds(r, m) <==>
                  || (r.operator == ">" && v > r.threshold) || (r.operator == ">=" && v >= r.threshold)
                  || (r.operator == "<" && v < r.threshold) || (r.operator == "<=" && v <= r.threshold)
                  || (r.operator == "==" && v == r.threshold))
  {
  }

  /** The order of severities: critical over warning over info over anything else. */
  lemma SeverityOrder(a: string, b: string)
    ensures SeverityWeight(a) > SeverityWeight(b) <==>
              || (a == "critical" && b != "critical")
              || (a == "warning" && b != "critical" && b != "warning")
              || (a == "info" && b != "critical" && b != "warning" && b != "info")
  {
  }

  function AlertKey(containerID: string, suffix: string): string {
    containerID + ":" + suffix
  }

  /** Container IDs are hexadecimal digests: they hold no separator. */
  predicate ValidId(id: string) {
    ':' !in id
  }

  /** A flattened key of a valid ID splits in one way only. */
  lemma KeyInjective(c1: string, n1: string, c2: string, n2: string)
    requires ValidId(c1) && ValidId(c2)
    requires AlertKey(c1, n1) == AlertKey(c2, n2)
    ensures c1 == c2 && n1 == n2
  {
    var k := AlertKey(c1, n1);
    assert k[|c1|] == ':' && k[|c2|] == ':';
    assert k[..|c1|] == c1 && k[..|c2|] == c2;
    assert |c1| == |c2|;
    assert n1 == k[|c1| + 1..] && n2 == k[|c2| + 1..];
  }

  /** Slot (c2, n2) hides the separator and the end of the other slot's key in its ID. */
  ghost predicate Straddles(c1: string, n1: string, c2: string, n2: string) {
    exists t :: c2 == c1 + ":" + t && n1 == t + ":" + n2
  }

  /** Without the restriction on IDs, two slots share a key exactly when they are the
      same slot or the longer ID carries the separator and the start of the other
      slot's name. */
  lemma KeysCollideExactly(c1: string, n1: string, c2: string, n2: string)
    ensures AlertKey(c1, n1) == AlertKey(c2, n2) <==>
            (c1 == c2 && n1 == n2) || Straddles(c1, n1, c2, n2) || Straddles(c2, n2, c1, n1)
  {
    if |c1| < |c2| {
      LongerIdCollides(c1, n1, c2, n2);
    } else if |c2| < |c1| {
      LongerIdCollides(c2, n2, c1, n1);
    } else {
      var k1, k2 := AlertKey(c1, n1), AlertKey(c2, n2);
      assert k1[..|c1|] == c1 && k2[..|c1|] == c2;
      assert k1[|c1| + 1..] == n1 && k2[|c1| + 1..] == n2;
    }
  }

  lemma LongerIdCollides(c1: string, n1: string, c2: string, n2: string)
    requires |c1| < |c2|
    ensures AlertKey(c1, n1) == AlertKey(c2, n2) <==> Straddles(c1, n1, c2, n2)
  {
    var k1, k2 := AlertKey(c1, n1), AlertKey(c2, n2);
    if k1 == k2 {
      var t := c2[|c1| + 1..];
      assert c2 == k1[..|c2|];
      assert c1 == k1[..|c1|] && k1[|c1|] == ':';
      assert c2 == c1 + ":" + t;
      assert n1 == k1[|c1| + 1..] == k2[|c1| + 1..] == t + ":" + n2;
    }
    if t :| c2 == c1 + ":" + t && n1 == t + ":" + n2 {
      assert k1 == c1 + ":" + (t + ":" + n2) == (c1 + ":" + t) + ":" + n2 == k2;
    }
  }
}
