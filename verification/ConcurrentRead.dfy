/**
 * Concurrent reads of the sharded store (internal/cluster/receiver.go). The getter
 * locks one shard at a time, so pushes of other goroutines fall between its
 * visits. States and steps below give every interleaving; the shards are
 * represented by the flat map that ClusterStore proves them to be.
 */
module ConcurrentRead {
  import opened Common
  import opened ShardHash
  import opened ClusterStore

  datatype Contribution<M, C> = Contribution(host: HostID, data: HostData<M, C>)

  /** `now` is the reader's clock reading, `next` the shard it locks next, and `taken`
      what it has copied so far. */
  datatype State<M, C> = State(hosts: Hosts<M, C>, now: int, next: nat, taken: seq<Contribution<M, C>>)

  /** A push replaces one host's entry. The stamp is taken under the shard's lock,
      so the stamps of one host do not decrease; across hosts nothing is assumed. */
  ghost predicate Push<M(!new), C(!new)>(s: State<M, C>, s': State<M, C>, d: HostData<M, C>) {
    var h := d.payload.hostID;
    && (h in s.hosts ==> s.hosts[h].lastUpdate <= d.lastUpdate)
    && s' == s.(hosts := s.hosts[h := d])
  }

  /** `c` is a fresh entry of shard `i`. */
  ghost predicate Readable<M(!new), C(!new)>(s: State<M, C>, i: nat, c: Contribution<M, C>) {
    && ShardIndex(c.host) == i
    && c.host in s.hosts && s.hosts[c.host] == c.data
    && Fresh(c.data, s.now)
  }

  /** On the flat map of `maps`, what is readable in shard `i` is what that shard's own
      map holds: a visit looks at one shard only. */
  lemma ReadableInOneShard<M(!new), C(!new)>(maps: seq<Hosts<M, C>>, s: State<M, C>, i: nat, c: Contribution<M, C>)
    requires Placed(maps) && s.hosts == Flatten(maps) && i < |maps|
    ensures Readable(s, i, c) <==>
              c.host in maps[i] && maps[i][c.host] == c.data && s.now - c.data.lastUpdate <= 30_000_000_000
  {
    FlattenLooksUpShard(maps, c.host);
  }

  /** The reader locks shard `next` and copies its fresh entries in some order. */
  ghost predicate Visit<M(!new), C(!new)>(s: State<M, C>, s': State<M, C>, found: seq<Contribution<M, C>>) {
    && s.next < SHARD_COUNT
    && NoDuplicates(found)
    && (forall c :: c in found <==> Readable(s, s.next, c))
    && s' == s.(next := s.next + 1, taken := s.taken + found)
  }

  ghost predicate Step<M(!new), C(!new)>(s: State<M, C>, s': State<M, C>) {
    (exists d :: Push(s, s', d)) || (exists found :: Visit(s, s', found))
  }

  /** The states from the moment the reader reads its clock. */
  ghost predicate IsRead<M(!new), C(!new)>(run: seq<State<M, C>>) {
    && run != []
    && run[0].next == 0 && run[0].taken == []
    && forall i :: 0 <= i < |run| - 1 ==> Step(run[i], run[i + 1])
  }

  /** `c` was current, and fresh, when the reader visited its shard at step `i`. */
  ghost predicate SeenAt<M(!new), C(!new)>(run: seq<State<M, C>>, n: nat, i: nat, c: Contribution<M, C>)
    requires n < |run|
  {
    && i < n
    && run[i + 1].next == run[i].next + 1
    && Readable(run[i], run[i].next, c)
  }

  ghost predicate Seen<M(!new), C(!new)>(run: seq<State<M, C>>, n: nat, c: Contribution<M, C>)
    requires n < |run|
  {
    exists i: nat :: SeenAt(run, n, i, c)
  }

  lemma {:induction false} ReaderClockFixed<M(!new), C(!new)>(run: seq<State<M, C>>, n: nat)
    requires IsRead(run) && n < |run|
    ensures run[n].now == run[0].now
  {
    if n > 0 {
      ReaderClockFixed(run, n - 1);
      assert Step(run[n - 1], run[n]);
    }
  }

  lemma {:induction false} EntriesOnlyGrowNewer<M(!new), C(!new)>(run: seq<State<M, C>>, n: nat, h: HostID)
    requires IsRead(run) && n < |run|
    requires h in run[0].hosts
    ensures h in run[n].hosts && run[0].hosts[h].lastUpdate <= run[n].hosts[h].lastUpdate
  {
    if n > 0 {
      EntriesOnlyGrowNewer(run, n - 1, h);
      assert Step(run[n - 1], run[n]);
    }
  }

  /** What has been copied is exactly what was readable at the visits so far, and
      only from shards already visited. */
  lemma {:induction false} TakenIsSeen<M(!new), C(!new)>(run: seq<State<M, C>>, n: nat)
    requires IsRead(run) && n < |run|
    ensures forall c :: c in run[n].taken <==> Seen(run, n, c)
    ensures forall c :: c in run[n].taken ==> ShardIndex(c.host) < run[n].next
  {
    if n > 0 {
      TakenIsSeen(run, n - 1);
      assert Step(run[n - 1], run[n]);
      forall c ensures c in run[n].taken <==> Seen(run, n, c)
               ensures c in run[n].taken ==> ShardIndex(c.host) < run[n].next
      {
        TakenStep(run, n, c);
      }
    }
  }

  lemma TakenStep<M(!new), C(!new)>(run: seq<State<M, C>>, n: nat, c: Contribution<M, C>)
    requires 0 < n < |run|
    requires Step(run[n - 1], run[n])
    requires c in run[n - 1].taken <==> Seen(run, n - 1, c)
    requires c in run[n - 1].taken ==> ShardIndex(c.host) < run[n - 1].next
    ensures c in run[n].taken <==> Seen(run, n, c)
    ensures c in run[n].taken ==> ShardIndex(c.host) < run[n].next
  {
    if c in run[n - 1].taken {
      var i: nat :| SeenAt(run, n - 1, i, c);
      assert SeenAt(run, n, i, c);
    } else if c in run[n].taken {
      assert SeenAt(run, n, n - 1, c);
    }
    if i: nat :| SeenAt(run, n, i, c) {
      if i < n - 1 {
        assert SeenAt(run, n - 1, i, c);
      }
    }
  }

  lemma {:induction false} AtMostOnce<M(!new), C(!new)>(run: seq<State<M, C>>, n: nat)
    requires IsRead(run) && n < |run|
    ensures var t := run[n].taken; forall i, j :: 0 <= i < j < |t| ==> t[i].host != t[j].host
  {
    if n > 0 {
      AtMostOnce(run, n - 1);
      TakenIsSeen(run, n - 1);
      var s, s' := run[n - 1], run[n];
      assert Step(s, s');
      if found :| Visit(s, s', found) {
        VisitAddsNewHosts(s, s', found);
      }
    }
  }

  lemma VisitAddsNewHosts<M(!new), C(!new)>(s: State<M, C>, s': State<M, C>, found: seq<Contribution<M, C>>)
    requires Visit(s, s', found)
    requires forall i, j :: 0 <= i < j < |s.taken| ==> s.taken[i].host != s.taken[j].host
    requires forall c :: c in s.taken ==> ShardIndex(c.host) < s.next
    ensures var t := s'.taken; forall i, j :: 0 <= i < j < |t| ==> t[i].host != t[j].host
  {
    var t := s'.taken;
    forall i, j | 0 <= i < j < |t| ensures t[i].host != t[j].host {
      if j >= |s.taken| {
        assert t[j] in found && Readable(s, s.next, t[j]);
        if i >= |s.taken| {
          assert t[i] in found && Readable(s, s.next, t[i]);
          assert t[i] != t[j];
        } else {
          assert t[i] in s.taken;
        }
      }
    }
  }

  /** The step at which shard `k` was visited. */
  lemma {:induction false} VisitOf<M(!new), C(!new)>(run: seq<State<M, C>>, n: nat, k: nat) returns (i: nat)
    requires IsRead(run) && n < |run|
    requires k < run[n].next
    ensures i < n && run[i].next == k && run[i + 1].next == k + 1
  {
    assert Step(run[n - 1], run[n]);
    if run[n - 1].next == k {
      i := n - 1;
    } else {
      i := VisitOf(run, n - 1, k);
    }
  }

  /**
   * The guarantee of a finished read, whatever the writers did meanwhile:
   * every host contributes at most once; what it contributes was its current,
   * fresh entry when its shard was visited; and a host that was fresh when the
   * read began contributes, with an entry no older than the one it had then.
   */
  lemma ReadGuarantee<M(!new), C(!new)>(run: seq<State<M, C>>, n: nat)
    requires IsRead(run) && n < |run| && run[n].next == SHARD_COUNT
    ensures var t := run[n].taken; forall i, j :: 0 <= i < j < |t| ==> t[i].host != t[j].host
    ensures forall c :: c in run[n].taken <==> Seen(run, n, c)
    ensures forall c :: c in run[n].taken ==> run[0].now - c.data.lastUpdate <= 30_000_000_000
    ensures forall h :: h in run[0].hosts && run[0].now - run[0].hosts[h].lastUpdate <= 30_000_000_000 ==>
              exists c :: c in run[n].taken && c.host == h
                       && run[0].hosts[h].lastUpdate <= c.data.lastUpdate
  {
    AtMostOnce(run, n);
    TakenIsSeen(run, n);
    forall c | c in run[n].taken ensures run[0].now - c.data.lastUpdate <= 30_000_000_000 {
      var i: nat :| SeenAt(run, n, i, c);
      ReaderClockFixed(run, i);
    }
    forall h | h in run[0].hosts && run[0].now - run[0].hosts[h].lastUpdate <= 30_000_000_000
      ensures exists c :: c in run[n].taken && c.host == h && run[0].hosts[h].lastUpdate <= c.data.lastUpdate
    {
      var i := VisitOf(run, n, ShardIndex(h));
      EntriesOnlyGrowNewer(run, i, h);
      ReaderClockFixed(run, i);
      var c := Contribution(h, run[i].hosts[h]);
      assert SeenAt(run, n, i, c);
    }
  }

  // ---- Nothing blocks -------------------------------------------------------------------

  /** Any host may push at any moment, with a stamp that is not older than its last. */
  lemma AnyPushMayHappen<M(!new), C(!new)>(s: State<M, C>, d: HostData<M, C>)
    requires d.payload.hostID in s.hosts ==> s.hosts[d.payload.hostID].lastUpdate <= d.lastUpdate
    ensures Step(s, s.(hosts := s.hosts[d.payload.hostID := d]))
  {
    assert Push(s, s.(hosts := s.hosts[d.payload.hostID := d]), d);
  }

  /** A reader that has shards left may visit the next one, whatever the store holds. */
  lemma NextVisitMayHappen<M(!new), C(!new)>(s: State<M, C>) returns (s': State<M, C>)
    requires s.next < SHARD_COUNT
    ensures Step(s, s') && s'.next == s.next + 1 && s'.hosts == s.hosts
  {
    var found := ReadableAmong(s, s.hosts.Keys);
    s' := s.(next := s.next + 1, taken := s.taken + found);
    assert Visit(s, s', found);
  }

  lemma {:induction false} ReadableAmong<M(!new), C(!new)>(s: State<M, C>, hosts: set<HostID>)
    returns (found: seq<Contribution<M, C>>)
    ensures NoDuplicates(found)
    ensures forall c :: c in found <==> c.host in hosts && Readable(s, s.next, c)
  {
    found := [];
    if hosts != {} {
      var h :| h in hosts;
      found := ReadableAmong(s, hosts - {h});
      if h in s.hosts && Readable(s, s.next, Contribution(h, s.hosts[h])) {
        var c := Contribution(h, s.hosts[h]);
        assert c !in found;
        found := found + [c];
      }
    }
  }

  // ---- A read need not be a snapshot -------------------------------------------------------

  /** `hosts` alone explains what was taken: as if all shards had been locked at once. */
  ghost predicate Explains<M(!new), C(!new)>(s: State<M, C>, taken: seq<Contribution<M, C>>) {
    forall c :: c in taken <==> Readable(s, ShardIndex(c.host), c)
  }

  ghost predicate IsSnapshot<M(!new), C(!new)>(run: seq<State<M, C>>)
    requires run != []
  {
    exists i: nat :: i < |run| && Explains(run[i], run[|run| - 1].taken)
  }

  ghost predicate Finished<M(!new), C(!new)>(run: seq<State<M, C>>) {
    run != [] && run[|run| - 1].next == SHARD_COUNT
  }

  /** A step in which, if it is a push, one of `writers` pushes. */
  ghost predicate StepAmid<M(!new), C(!new)>(s: State<M, C>, s': State<M, C>, writers: iset<HostID>) {
    || (exists d: HostData<M, C> :: d.payload.hostID in writers && Push(s, s', d))
    || (exists found :: Visit(s, s', found))
  }

  /** A read during which only `writers` push. */
  ghost predicate IsReadAmid<M(!new), C(!new)>(run: seq<State<M, C>>, writers: iset<HostID>) {
    && run != []
    && run[0].next == 0 && run[0].taken == []
    && forall i :: 0 <= i < |run| - 1 ==> StepAmid(run[i], run[i + 1], writers)
  }

  lemma ReadAmidIsRead<M(!new), C(!new)>(run: seq<State<M, C>>, writers: iset<HostID>)
    requires IsReadAmid(run, writers)
    ensures IsRead(run)
  {
    forall i | 0 <= i < |run| - 1 ensures Step(run[i], run[i + 1]) {
      assert StepAmid(run[i], run[i + 1], writers);
    }
  }

  /** One read during which `a`, then `b`, push for the first time, after shard
      `ShardIndex(a)` was visited and before shard `ShardIndex(b)` is. */
  function MissingFirstPush<M, C>(a: HostData<M, C>, b: HostData<M, C>, now: int, k: nat): State<M, C> {
    var i, j := ShardIndex(a.payload.hostID), ShardIndex(b.payload.hostID);
    var hosts: Hosts<M, C> :=
      if k <= i + 1 then map[]
      else if k == i + 2 then map[a.payload.hostID := a]
      else map[a.payload.hostID := a, b.payload.hostID := b];
    var next := if k <= i + 1 then k else if k <= i + 3 then i + 1 else k - 2;
    State(hosts, now, next, if next > j then [Contribution(b.payload.hostID, b)] else [])
  }

  lemma MissingFirstPushVisit<M(!new), C(!new)>(a: HostData<M, C>, b: HostData<M, C>, now: int, k: nat,
                                                writers: iset<HostID>)
    requires ShardIndex(a.payload.hostID) < ShardIndex(b.payload.hostID)
    requires Fresh(b, now)
    requires k <= ShardIndex(a.payload.hostID) || ShardIndex(a.payload.hostID) + 3 <= k < SHARD_COUNT + 2
    ensures StepAmid(MissingFirstPush(a, b, now, k), MissingFirstPush(a, b, now, k + 1), writers)
  {
    var s, s' := MissingFirstPush(a, b, now, k), MissingFirstPush(a, b, now, k + 1);
    var cb := Contribution(b.payload.hostID, b);
    var found := if s.next == ShardIndex(cb.host) then [cb] else [];
    forall c ensures c in found <==> Readable(s, s.next, c) {
    }
    assert s'.taken == s.taken + found;
    assert Visit(s, s', found);
  }

  lemma MissingFirstPushStep<M(!new), C(!new)>(a: HostData<M, C>, b: HostData<M, C>, now: int, k: nat,
                                               writers: iset<HostID>)
    requires ShardIndex(a.payload.hostID) < ShardIndex(b.payload.hostID)
    requires Fresh(a, now) && Fresh(b, now)
    requires a.payload.hostID in writers && b.payload.hostID in writers
    requires k < SHARD_COUNT + 2
    ensures StepAmid(MissingFirstPush(a, b, now, k), MissingFirstPush(a, b, now, k + 1), writers)
  {
    var s, s' := MissingFirstPush(a, b, now, k), MissingFirstPush(a, b, now, k + 1);
    var i := ShardIndex(a.payload.hostID);
    if k == i + 1 {
      assert Push(s, s', a);
    } else if k == i + 2 {
      assert Push(s, s', b);
    } else {
      MissingFirstPushVisit(a, b, now, k, writers);
    }
  }

  /** For any two new hosts in increasing shard order there is a finished read that returns
      the later push without the earlier one, which no state of the store ever showed. */
  lemma ReadMissesFirstPush<M(!new), C(!new)>(a: HostData<M, C>, b: HostData<M, C>, now: int, writers: iset<HostID>)
    returns (run: seq<State<M, C>>)
    requires ShardIndex(a.payload.hostID) < ShardIndex(b.payload.hostID)
    requires a.payload.hostID in writers && b.payload.hostID in writers
    requires Fresh(a, now) && Fresh(b, now)
    ensures IsReadAmid(run, writers) && Finished(run)
    ensures run[|run| - 1].taken == [Contribution(b.payload.hostID, b)]
    ensures forall i :: 0 <= i < |run| && b.payload.hostID in run[i].hosts ==>
              a.payload.hostID in run[i].hosts && run[i].hosts[a.payload.hostID] == a
    ensures !IsSnapshot(run)
  {
    run := seq(SHARD_COUNT + 3, k requires k >= 0 => MissingFirstPush(a, b, now, k));
    forall k | 0 <= k < |run| - 1 ensures StepAmid(run[k], run[k + 1], writers) {
      MissingFirstPushStep(a, b, now, k, writers);
    }
    var ca, cb := Contribution(a.payload.hostID, a), Contribution(b.payload.hostID, b);
    assert run[|run| - 1].taken == [cb];
    forall k | 0 <= k < |run| ensures !Explains(run[k], [cb]) {
      if Readable(run[k], ShardIndex(cb.host), cb) {
        assert Readable(run[k], ShardIndex(ca.host), ca);
        assert ca !in [cb];
      } else {
        assert cb in [cb];
      }
    }
  }

  // ---- When it is one -------------------------------------------------------------------

  /** Outside shard `k` nothing moves while only that shard's hosts push. */
  lemma {:induction false} OtherShardsStill<M(!new), C(!new)>(run: seq<State<M, C>>, n: nat, writers: iset<HostID>,
                                                              k: nat, i: nat, c: Contribution<M, C>)
    requires IsReadAmid(run, writers) && n < |run|
    requires forall h :: h in writers ==> ShardIndex(h) == k
    requires i != k
    ensures Readable(run[n], i, c) <==> Readable(run[0], i, c)
  {
    if n > 0 {
      OtherShardsStill(run, n - 1, writers, k, i, c);
      assert StepAmid(run[n - 1], run[n], writers);
    }
  }

  lemma {:induction false} NextOnlyGrows<M(!new), C(!new)>(run: seq<State<M, C>>, i: nat, n: nat)
    requires IsRead(run) && i <= n < |run|
    ensures run[i].next <= run[n].next
    decreases n
  {
    if i < n {
      NextOnlyGrows(run, i, n - 1);
      assert Step(run[n - 1], run[n]);
    }
  }

  lemma VisitedOnce<M(!new), C(!new)>(run: seq<State<M, C>>, i: nat, j: nat)
    requires IsRead(run) && i < |run| - 1 && j < |run| - 1
    requires run[i + 1].next == run[i].next + 1 && run[j + 1].next == run[j].next + 1
    requires run[i].next == run[j].next
    ensures i == j
  {
    if i < j {
      NextOnlyGrows(run, i + 1, j);
    } else if j < i {
      NextOnlyGrows(run, j + 1, i);
    }
  }

  /** While only hosts of shard `k` push, what the reader took is what the whole store
      showed when it visited that shard, at step `i`. */
  lemma OneShardIsSnapshot<M(!new), C(!new)>(run: seq<State<M, C>>, writers: iset<HostID>, k: nat) returns (i: nat)
    requires IsReadAmid(run, writers) && Finished(run)
    requires k < SHARD_COUNT && forall h :: h in writers ==> ShardIndex(h) == k
    ensures i < |run| - 1 && run[i].next == k && run[i + 1].next == k + 1
    ensures Explains(run[i], run[|run| - 1].taken)
    ensures IsSnapshot(run)
  {
    var n := |run| - 1;
    ReadAmidIsRead(run, writers);
    i := VisitOf(run, n, k);
    TakenIsSeen(run, n);
    forall c ensures c in run[n].taken <==> Readable(run[i], ShardIndex(c.host), c) {
      var j := VisitOf(run, n, ShardIndex(c.host));
      SeenAtItsVisit(run, n, j, c);
      if ShardIndex(c.host) == k {
        VisitedOnce(run, i, j);
      } else {
        OtherShardsStill(run, i, writers, k, ShardIndex(c.host), c);
        OtherShardsStill(run, j, writers, k, ShardIndex(c.host), c);
      }
    }
    assert Explains(run[i], run[n].taken);
  }

  lemma SeenAtItsVisit<M(!new), C(!new)>(run: seq<State<M, C>>, n: nat, j: nat, c: Contribution<M, C>)
    requires IsRead(run) && j < n < |run|
    requires run[j].next == ShardIndex(c.host) && run[j + 1].next == run[j].next + 1
    ensures Seen(run, n, c) <==> Readable(run[j], ShardIndex(c.host), c)
  {
    if Seen(run, n, c) {
      var i: nat :| SeenAt(run, n, i, c);
      VisitedOnce(run, i, j);
    }
    if Readable(run[j], ShardIndex(c.host), c) {
      assert SeenAt(run, n, j, c);
    }
  }

  /**
   * When a read is atomic: every finished read amid pushes of `writers` shows one state
   * of the store if and only if all of `writers` share a shard.
   */
  lemma SnapshotExactlyWithinOneShard<M(!new), C(!new)>(writers: iset<HostID>)
    ensures (forall run: seq<State<M, C>> :: IsReadAmid(run, writers) && Finished(run) ==> IsSnapshot(run)) <==>
            (forall g, h :: g in writers && h in writers ==> ShardIndex(g) == ShardIndex(h))
  {
    if forall g, h :: g in writers && h in writers ==> ShardIndex(g) == ShardIndex(h) {
      var k := 0;
      if w :| w in writers {
        k := ShardIndex(w);
      }
      forall run: seq<State<M, C>> | IsReadAmid(run, writers) && Finished(run) ensures IsSnapshot(run) {
        var i := OneShardIsSnapshot(run, writers, k);
      }
    } else {
      var g, h :| g in writers && h in writers && ShardIndex(g) < ShardIndex(h);
      var a: HostData<M, C>, b: HostData<M, C> := HostData(0, Payload(g, [], [])), HostData(0, Payload(h, [], []));
      var run := ReadMissesFirstPush(a, b, 0, writers);
    }
  }
}
