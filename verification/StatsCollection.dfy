/**
 * Where the alert engine's input comes from: the parallel collection of container
 * statistics (internal/docker/client.go) and the merge with what the workers sent
 * (internal/tui/tui.go). It is what makes the map well keyed for AlertEngine.
 */
module StatsCollection {
  import opened Common
  import opened AlertModel
  import opened AlertEngine

  const SHORT_ID: nat := 12

  /** A container and what the daemon's statistics call answers for it. */
  datatype Listed = Listed(id: string, name: string, reply: Option<Metrics>)

  function ShortId(id: string): string {
    if |id| > SHORT_ID then id[..SHORT_ID] else id
  }

  /** No filter, or a name that contains one of the filter's texts. */
  ghost predicate Monitored(includes: seq<string>, name: string) {
    includes == [] || exists i :: 0 <= i < |includes| && Contains(name, includes[i])
  }

  method IsMonitored(includes: seq<string>, name: string) returns (b: bool)
    ensures b == Monitored(includes, name)
    ensures b <==> includes == [] || exists i, k :: 0 <= i < |includes| && MatchesAt(name, includes[i], k)
  {
    if |includes| == 0 {
      return true;
    }
    for i := 0 to |includes|
      invariant forall k :: 0 <= k < i ==> !Contains(name, includes[k])
    {
      if Contains(name, includes[i]) {
        return true;
      }
    }
    return false;
  }

  function Labelled(c: Listed): Metrics
    requires c.reply.Some?
  {
    c.reply.value.(containerID := ShortId(c.id), containerName := c.name)
  }

  ghost predicate Reports(includes: seq<string>, c: Listed, k: string) {
    Monitored(includes, c.name) && c.reply.Some? && ShortId(c.id) == k
  }

  // ---- Completion orders ---------------------------------------------------------------------

  /** The goroutines: one per monitored entry of the listing. */
  ghost function Running(includes: seq<string>, containers: seq<Listed>): seq<Listed> {
    FlatMap(Started(includes), containers)
  }

  ghost function Started(includes: seq<string>): Listed -> seq<Listed> {
    (c: Listed) => if Monitored(includes, c.name) then [c] else []
  }

  /** One order in which all goroutines may finish. */
  ghost predicate IsOrder(includes: seq<string>, containers: seq<Listed>, order: seq<Listed>) {
    multiset(order) == multiset(Running(includes, containers))
  }

  /** The shared map when the goroutines finish in this order. */
  function CollectIn(order: seq<Listed>): map<string, Metrics> {
    if order == [] then map[]
    else
      var before, c := CollectIn(order[..|order| - 1]), order[|order| - 1];
      if c.reply.Some? then before[ShortId(c.id) := Labelled(c)] else before
  }

  predicate Answers(c: Listed, k: string) {
    c.reply.Some? && ShortId(c.id) == k
  }

  /** Among those that answer for `k`, the `i`-th of the order finishes last. */
  ghost predicate FinishesLast(order: seq<Listed>, i: nat, k: string) {
    && i < |order| && Answers(order[i], k)
    && forall j :: i < j < |order| ==> !Answers(order[j], k)
  }

  /** A short ID has an entry exactly when some goroutine answers for it, and the entry is
      that of the one that finishes last. */
  lemma {:induction false} LastToFinishWins(order: seq<Listed>, k: string)
    ensures k in CollectIn(order) <==> exists i: nat :: FinishesLast(order, i, k)
    ensures k in CollectIn(order) <==> exists c :: c in order && Answers(c, k)
    ensures forall i: nat :: FinishesLast(order, i, k) ==>
              k in CollectIn(order) && CollectIn(order)[k] == Labelled(order[i])
  {
    if order != [] {
      var n := |order| - 1;
      assert order == order[..n] + [order[n]];
      if Answers(order[n], k) {
        assert FinishesLast(order, n, k);
      } else {
        LastToFinishWins(order[..n], k);
        forall i: nat ensures FinishesLast(order, i, k) <==> FinishesLast(order[..n], i, k) {
          assert forall j :: 0 <= j < n ==> order[..n][j] == order[j];
        }
      }
    }
  }

  lemma {:induction false} RunningExactly(includes: seq<string>, containers: seq<Listed>, c: Listed)
    ensures c in Running(includes, containers) <==> c in containers && Monitored(includes, c.name)
  {
    if containers != [] {
      var n := |containers| - 1;
      assert containers == containers[..n] + [containers[n]];
      RunningExactly(includes, containers[..n], c);
    }
  }

  /** `results` holds one entry per short ID that some monitored, answering container
      has, and the entry is such a container's. */
  ghost predicate Collects(includes: seq<string>, containers: seq<Listed>, results: map<string, Metrics>) {
    && (forall c, k :: c in containers && Reports(includes, c, k) ==> k in results)
    && (forall k :: k in results ==>
          exists c :: c in containers && Reports(includes, c, k) && results[k] == Labelled(c))
  }

  lemma OrderCollects(includes: seq<string>, containers: seq<Listed>, order: seq<Listed>)
    requires IsOrder(includes, containers, order)
    ensures Collects(includes, containers, CollectIn(order))
  {
    forall c, k | c in containers && Reports(includes, c, k) ensures k in CollectIn(order) {
      RunningExactly(includes, containers, c);
      InOrder(includes, containers, order, c);
      LastToFinishWins(order, k);
    }
    forall k | k in CollectIn(order)
      ensures exists c :: c in containers && Reports(includes, c, k) && CollectIn(order)[k] == Labelled(c)
    {
      LastToFinishWins(order, k);
      var i: nat :| FinishesLast(order, i, k);
      InOrder(includes, containers, order, order[i]);
      RunningExactly(includes, containers, order[i]);
      assert Reports(includes, order[i], k);
    }
  }

  lemma InOrder(includes: seq<string>, containers: seq<Listed>, order: seq<Listed>, c: Listed)
    requires IsOrder(includes, containers, order)
    ensures c in order <==> c in Running(includes, containers)
  {
    assert c in order <==> c in multiset(order);
    assert c in Running(includes, containers) <==> c in multiset(Running(includes, containers));
  }

  /** The loop that starts the goroutines. */
  method StartAll(includes: seq<string>, containers: seq<Listed>) returns (running: seq<Listed>)
    ensures running == Running(includes, containers)
  {
    running := [];
    for i := 0 to |containers|
      invariant running == Running(includes, containers[..i])
    {
      FlatMapExtend(Started(includes), containers, i);
      var monitored := IsMonitored(includes, containers[i].name);
      if monitored {
        running := running + [containers[i]];
      }
    }
    assert containers[..|containers|] == containers;
  }

  /** One goroutine labels its container's statistics and stores them. */
  method StoreStats(results: map<string, Metrics>, c: Listed, ghost order: seq<Listed>)
    returns (results': map<string, Metrics>)
    requires results == CollectIn(order)
    ensures results' == CollectIn(order + [c])
  {
    assert (order + [c])[..|order|] == order;
    if c.reply.None? {
      return results;
    }
    var stats := c.reply.value.(containerID := c.id);
    if |stats.containerID| > SHORT_ID {
      stats := stats.(containerID := stats.containerID[..SHORT_ID]);
    }
    stats := stats.(containerName := c.name);
    return results[stats.containerID := stats];
  }

  /** Starts a goroutine per monitored container; they finish in any order. */
  method GetAllContainerStats(includes: seq<string>, containers: seq<Listed>)
    returns (results: map<string, Metrics>, ghost order: seq<Listed>)
    ensures IsOrder(includes, containers, order) && results == CollectIn(order)
    ensures Collects(includes, containers, results)
    ensures forall k :: k in results ==>
              exists c :: c in containers && Monitored(includes, c.name) && c.reply.Some?
                       && k == (if |c.id| > 12 then c.id[..12] else c.id)
                       && results[k] == c.reply.value.(containerID := k, containerName := c.name)
  {
    results, order := map[], [];
    var running := StartAll(includes, containers);
    while running != []
      invariant multiset(order) + multiset(running) == multiset(Running(includes, containers))
      invariant results == CollectIn(order)
      decreases |running|
    {
      var i: nat :| i < |running|;
      RemoveFromBag(running, i);
      results := StoreStats(results, running[i], order);
      order := order + [running[i]];
      running := running[..i] + running[i + 1..];
    }
    OrderCollects(includes, containers, order);
  }

  // ---- When the order matters ------------------------------------------------------------------

  /** Whatever the completion order, one map comes out. */
  ghost predicate Determined(includes: seq<string>, containers: seq<Listed>) {
    forall o1, o2 :: IsOrder(includes, containers, o1) && IsOrder(includes, containers, o2) ==>
      CollectIn(o1) == CollectIn(o2)
  }

  /** Answering containers that share a short ID have the same statistics and name. */
  ghost predicate Unambiguous(includes: seq<string>, containers: seq<Listed>) {
    forall c, d, k :: c in containers && d in containers && Reports(includes, c, k) && Reports(includes, d, k) ==>
      Labelled(c) == Labelled(d)
  }

  /** The map does not depend on the completion order exactly when no two answering
      containers that share a short ID differ. */
  lemma CollectionUniqueExactly(includes: seq<string>, containers: seq<Listed>)
    ensures Determined(includes, containers) <==> Unambiguous(includes, containers)
  {
    if Unambiguous(includes, containers) {
      forall o1, o2 | IsOrder(includes, containers, o1) && IsOrder(includes, containers, o2)
        ensures CollectIn(o1) == CollectIn(o2)
      {
        OrderCollects(includes, containers, o1);
        OrderCollects(includes, containers, o2);
        SameCollection(includes, containers, CollectIn(o1), CollectIn(o2));
      }
    } else {
      var c, d, k :| c in containers && d in containers && Reports(includes, c, k) && Reports(includes, d, k)
                     && Labelled(c) != Labelled(d);
      var o1 := OrderEndingWith(includes, containers, c, k);
      var o2 := OrderEndingWith(includes, containers, d, k);
      assert CollectIn(o1)[k] != CollectIn(o2)[k];
    }
  }

  lemma SameCollection(includes: seq<string>, containers: seq<Listed>,
                       r1: map<string, Metrics>, r2: map<string, Metrics>)
    requires Unambiguous(includes, containers)
    requires Collects(includes, containers, r1) && Collects(includes, containers, r2)
    ensures r1 == r2
  {
    forall k ensures k in r1 <==> k in r2
             ensures k in r1 && k in r2 ==> r1[k] == r2[k]
    {
      if k in r1 {
        var c :| c in containers && Reports(includes, c, k) && r1[k] == Labelled(c);
      }
      if k in r2 {
        var c :| c in containers && Reports(includes, c, k) && r2[k] == Labelled(c);
      }
    }
  }

  /** Any answering goroutine may be the last to finish, and then its entry stays. */
  lemma OrderEndingWith(includes: seq<string>, containers: seq<Listed>, c: Listed, k: string)
    returns (order: seq<Listed>)
    requires c in containers && Reports(includes, c, k)
    ensures IsOrder(includes, containers, order)
    ensures k in CollectIn(order) && CollectIn(order)[k] == Labelled(c)
  {
    var running := Running(includes, containers);
    RunningExactly(includes, containers, c);
    var i: nat :| i < |running| && running[i] == c;
    order := (running[..i] + running[i + 1..]) + [c];
    RemoveFromBag(running, i);
  }

  // ---- Before the daemon answers --------------------------------------------------------------

  /** What a caller knows of a container before the call. */
  datatype Asked = Asked(id: string, name: string)

  /** The daemon answers the `i`-th goroutine with `replies[i]`. */
  function Answered(asked: seq<Asked>, replies: seq<Option<Metrics>>): (containers: seq<Listed>)
    requires |replies| == |asked|
    ensures |containers| == |asked|
  {
    seq(|asked|, i requires 0 <= i < |asked| => Listed(asked[i].id, asked[i].name, replies[i]))
  }

  ghost predicate Clash(includes: seq<string>, asked: seq<Asked>, i: nat, j: nat)
    requires i < |asked| && j < |asked|
  {
    && i != j && ShortId(asked[i].id) == ShortId(asked[j].id)
    && Monitored(includes, asked[i].name) && Monitored(includes, asked[j].name)
  }

  /** The collected map is independent of the completion order for all replies exactly when
      no two monitored entries share the first twelve characters of their IDs. */
  lemma DeterminedExactlyWithoutClash(includes: seq<string>, asked: seq<Asked>)
    ensures (forall replies :: |replies| == |asked| ==>
               Determined(includes, Answered(asked, replies))) <==>
            (forall i, j :: 0 <= i < |asked| && 0 <= j < |asked| ==> !Clash(includes, asked, i, j))
  {
    if i: nat, j: nat :| i < |asked| && j < |asked| && Clash(includes, asked, i, j) {
      var replies := ClashingReplies(includes, asked, i, j);
      CollectionUniqueExactly(includes, Answered(asked, replies));
    } else {
      forall replies | |replies| == |asked| ensures Determined(includes, Answered(asked, replies)) {
        NoClashIsUnambiguous(includes, asked, replies);
        CollectionUniqueExactly(includes, Answered(asked, replies));
      }
    }
  }

  lemma NoClashIsUnambiguous(includes: seq<string>, asked: seq<Asked>, replies: seq<Option<Metrics>>)
    requires |replies| == |asked|
    requires forall i, j :: 0 <= i < |asked| && 0 <= j < |asked| ==> !Clash(includes, asked, i, j)
    ensures Unambiguous(includes, Answered(asked, replies))
  {
    var containers := Answered(asked, replies);
    forall c, d, k | c in containers && d in containers
                     && Reports(includes, c, k) && Reports(includes, d, k)
      ensures Labelled(c) == Labelled(d)
    {
      var i :| 0 <= i < |asked| && containers[i] == c;
      var j :| 0 <= j < |asked| && containers[j] == d;
      assert !Clash(includes, asked, i, j);
    }
  }

  /** Two different answers to clashing containers make the order matter. */
  lemma ClashingReplies(includes: seq<string>, asked: seq<Asked>, i: nat, j: nat)
    returns (replies: seq<Option<Metrics>>)
    requires i < |asked| && j < |asked| && Clash(includes, asked, i, j)
    ensures |replies| == |asked| && !Unambiguous(includes, Answered(asked, replies))
  {
    var idle, busy := Metrics("", "", 0.0, 0.0, 0, 0, 0), Metrics("", "", 1.0, 0.0, 0, 0, 0);
    replies := seq(|asked|, k => if k == i then Some(idle) else Some(busy));
    var containers := Answered(asked, replies);
    var c, d, k := containers[i], containers[j], ShortId(asked[i].id);
    assert Reports(includes, c, k) && Reports(includes, d, k);
    assert Labelled(c).cpuPercent != Labelled(d).cpuPercent;
    assert c in containers && d in containers;
  }

  // ---- Merging ------------------------------------------------------------------------------

  /** The last of the workers' entries for `k`, or else the local one. */
  function Latest(stats: map<string, Metrics>, remote: seq<Metrics>, k: string): Option<Metrics> {
    if remote == [] then (if k in stats then Some(stats[k]) else None)
    else
      var last := remote[|remote| - 1];
      if last.containerID == k then Some(last) else Latest(stats, remote[..|remote| - 1], k)
  }

  /** No worker's entry after the `i`-th is for `k`. */
  ghost predicate IsLast(remote: seq<Metrics>, i: nat, k: string) {
    && i < |remote| && remote[i].containerID == k
    && forall j :: i < j < |remote| ==> remote[j].containerID != k
  }

  ghost predicate Known(remote: seq<Metrics>, k: string) {
    exists i: nat :: IsLast(remote, i, k)
  }

  lemma {:induction false} LatestExactly(stats: map<string, Metrics>, remote: seq<Metrics>, k: string)
    ensures forall i: nat :: IsLast(remote, i, k) ==> Latest(stats, remote, k) == Some(remote[i])
    ensures !Known(remote, k) ==> Latest(stats, remote, k) == if k in stats then Some(stats[k]) else None
  {
    if remote != [] {
      var n := |remote| - 1;
      if remote[n].containerID == k {
        assert IsLast(remote, n, k);
      } else {
        LatestExactly(stats, remote[..n], k);
        forall i: nat ensures IsLast(remote, i, k) <==> IsLast(remote[..n], i, k) {
          assert forall j :: 0 <= j < n ==> remote[..n][j] == remote[j];
        }
      }
    }
  }

  method MergeRemote(local: map<string, Metrics>, remote: seq<Metrics>) returns (stats: map<string, Metrics>)
    ensures forall k :: Latest(local, remote, k) == if k in stats then Some(stats[k]) else None
  {
    stats := local;
    for i := 0 to |remote|
      invariant forall k :: Latest(local, remote[..i], k) == if k in stats then Some(stats[k]) else None
    {
      assert remote[..i + 1][..i] == remote[..i];
      stats := stats[remote[i].containerID := remote[i]];
    }
    assert remote[..|remote|] == remote;
  }

  /** The last worker entry for `k`, or without one a local container's, or without
      either nothing. */
  ghost predicate Merged(includes: seq<string>, containers: seq<Listed>, remote: seq<Metrics>,
                         stats: map<string, Metrics>, k: string)
  {
    && (forall i: nat :: IsLast(remote, i, k) ==> k in stats && stats[k] == remote[i])
    && (!Known(remote, k) && k in stats ==>
          exists c :: c in containers && Reports(includes, c, k) && stats[k] == Labelled(c))
    && (forall c :: c in containers && Reports(includes, c, k) ==> k in stats)
  }

  lemma MergedFromLatest(includes: seq<string>, containers: seq<Listed>, remote: seq<Metrics>,
                         local: map<string, Metrics>, stats: map<string, Metrics>, k: string)
    requires Collects(includes, containers, local)
    requires Latest(local, remote, k) == if k in stats then Some(stats[k]) else None
    ensures Merged(includes, containers, remote, stats, k)
  {
    LatestExactly(local, remote, k);
    if k in local {
      var c :| c in containers && Reports(includes, c, k) && local[k] == Labelled(c);
    }
  }

  lemma MergedIsKeyed(includes: seq<string>, containers: seq<Listed>, remote: seq<Metrics>,
                      stats: map<string, Metrics>, k: string)
    requires SeparatorFree(containers, remote)
    requires Merged(includes, containers, remote, stats, k) && k in stats
    ensures stats[k].containerID == k && ValidId(k)
  {
    if Known(remote, k) {
      var i: nat :| IsLast(remote, i, k);
    }
  }

  ghost predicate SeparatorFree(containers: seq<Listed>, remote: seq<Metrics>) {
    && (forall c :: c in containers ==> ValidId(c.id))
    && (forall i :: 0 <= i < |remote| ==> ValidId(remote[i].containerID))
  }

  /** Whatever the workers and the daemon answer: a worker's entry replaces a local one, no
      other keys appear, and with separator-free IDs the map handed to the alert engine is
      keyed by the containers its entries describe. */
  method FetchStats(includes: seq<string>, containers: seq<Listed>, remote: seq<Metrics>)
    returns (stats: map<string, Metrics>)
    ensures forall k :: Merged(includes, containers, remote, stats, k)
    ensures SeparatorFree(containers, remote) ==> WellKeyed(stats)
  {
    ghost var order;
    var local;
    local, order := GetAllContainerStats(includes, containers);
    stats := MergeRemote(local, remote);
    forall k ensures Merged(includes, containers, remote, stats, k) {
      MergedFromLatest(includes, containers, remote, local, stats, k);
    }
    if SeparatorFree(containers, remote) {
      forall k | k in stats ensures stats[k].containerID == k && ValidId(k) {
        MergedIsKeyed(includes, containers, remote, stats, k);
      }
    }
  }
}
