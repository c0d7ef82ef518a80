/**
 * The sharded in-memory store (internal/cluster/receiver.go): sixteen maps that
 * together stand for one map from host to its latest push.
 */
module ClusterStore {
  import opened ShardHash

  datatype Payload<M, C> = Payload(hostID: HostID, containers: seq<C>, metrics: seq<M>)

  datatype HostData<M, C> = HostData(lastUpdate: int, payload: Payload<M, C>)

  type Hosts<M, C> = map<HostID, HostData<M, C>>

  /** Thirty seconds, in the source's nanoseconds. */
  const FRESHNESS: int := 30_000_000_000

  predicate Fresh<M, C>(d: HostData<M, C>, now: int) {
    now - d.lastUpdate <= FRESHNESS
  }

  // ---- The flat map behind the shards ------------------------------------------------

  function Flatten<M, C>(maps: seq<Hosts<M, C>>): Hosts<M, C> {
    if maps == [] then map[] else Flatten(maps[..|maps| - 1]) + maps[|maps| - 1]
  }

  /** Every host is in the shard its hash selects. */
  ghost predicate Placed<M, C>(maps: seq<Hosts<M, C>>) {
    forall i, h :: 0 <= i < |maps| && h in maps[i] ==> ShardIndex(h) == i
  }

  lemma {:induction false} FlattenLooksUpShard<M, C>(maps: seq<Hosts<M, C>>, h: HostID)
    requires Placed(maps)
    ensures h in Flatten(maps) <==> ShardIndex(h) < |maps| && h in maps[ShardIndex(h)]
    ensures h in Flatten(maps) ==> Flatten(maps)[h] == maps[ShardIndex(h)][h]
  {
    if maps != [] {
      FlattenLooksUpShard(maps[..|maps| - 1], h);
    }
  }

  /** One push, seen on the shards' maps: one entry of one shard is replaced. */
  function PushInto<M, C>(maps: seq<Hosts<M, C>>, d: HostData<M, C>): (maps': seq<Hosts<M, C>>)
    requires |maps| == SHARD_COUNT
    ensures |maps'| == SHARD_COUNT
  {
    var h := d.payload.hostID;
    maps[ShardIndex(h) := maps[ShardIndex(h)][h := d]]
  }

  lemma PushUpdatesFlat<M, C>(maps: seq<Hosts<M, C>>, d: HostData<M, C>)
    requires |maps| == SHARD_COUNT && Placed(maps)
    ensures Placed(PushInto(maps, d))
    ensures Flatten(PushInto(maps, d)) == Flatten(maps)[d.payload.hostID := d]
  {
    var maps', h := PushInto(maps, d), d.payload.hostID;
    forall k ensures k in Flatten(maps') <==> k in Flatten(maps)[h := d]
             ensures k in Flatten(maps') ==> Flatten(maps')[k] == Flatten(maps)[h := d][k]
    {
      FlattenLooksUpShard(maps, k);
      FlattenLooksUpShard(maps', k);
    }
  }

  function PushAll<M, C>(pushes: seq<HostData<M, C>>): (maps: seq<Hosts<M, C>>)
    ensures |maps| == SHARD_COUNT
  {
    if pushes == [] then seq(SHARD_COUNT, _ => map[])
    else PushInto(PushAll(pushes[..|pushes| - 1]), pushes[|pushes| - 1])
  }

  ghost predicate IsLatest<M, C>(pushes: seq<HostData<M, C>>, i: nat, h: HostID) {
    && i < |pushes| && pushes[i].payload.hostID == h
    && forall j :: i < j < |pushes| ==> pushes[j].payload.hostID != h
  }

  /** After any sequence of pushes a host is known exactly when it has pushed, its
      entry is its latest push, and that entry is in the shard its hash selects
      and in no other. */
  lemma {:induction false} ShardsHoldLatestPushes<M, C>(pushes: seq<HostData<M, C>>, h: HostID)
    ensures Placed(PushAll(pushes))
    ensures h in Flatten(PushAll(pushes)) <==> exists i: nat :: IsLatest(pushes, i, h)
    ensures forall i: nat :: IsLatest(pushes, i, h) ==>
              h in Flatten(PushAll(pushes)) && Flatten(PushAll(pushes))[h] == pushes[i]
  {
    if pushes == [] {
      FlattenEmpty<M, C>(PushAll(pushes));
    } else {
      var n := |pushes| - 1;
      ShardsHoldLatestPushes(pushes[..n], h);
      PushUpdatesFlat(PushAll(pushes[..n]), pushes[n]);
      LatestOfLonger(pushes, h);
      if pushes[n].payload.hostID == h {
        assert IsLatest(pushes, n, h);
      }
    }
  }

  lemma LatestOfLonger<M, C>(pushes: seq<HostData<M, C>>, h: HostID)
    requires pushes != []
    ensures var n := |pushes| - 1;
            if pushes[n].payload.hostID == h then forall i: nat :: IsLatest(pushes, i, h) <==> i == n
            else forall i: nat :: IsLatest(pushes, i, h) <==> IsLatest(pushes[..n], i, h)
  {
    var n := |pushes| - 1;
    if pushes[n].payload.hostID == h {
      assert IsLatest(pushes, n, h);
    } else {
      forall i: nat ensures IsLatest(pushes, i, h) <==> IsLatest(pushes[..n], i, h) {
        assert forall j :: 0 <= j < n ==> pushes[..n][j] == pushes[j];
      }
    }
  }

  /** An extra push of `d.payload.hostID` can show in that host's entry only. */
  lemma {:induction false} ExtraPushStaysLocal<M, C>(before: seq<HostData<M, C>>, d: HostData<M, C>,
                                                     after: seq<HostData<M, C>>, x: HostData<M, C>)
    ensures var h := d.payload.hostID;
            Flatten(PushAll(before + [d] + after))[h := x] == Flatten(PushAll(before + after))[h := x]
  {
    if after == [] {
      assert before + [d] + after == before + [d] && before + after == before;
      PushedLast(before, d);
    } else {
      var init, last := after[..|after| - 1], after[|after| - 1];
      ExtraPushStaysLocal(before, d, init, x);
      assert before + [d] + after == (before + [d] + init) + [last];
      assert before + after == (before + init) + [last];
      PushedLast(before + [d] + init, last);
      PushedLast(before + init, last);
      UpdatesCommute(Flatten(PushAll(before + [d] + init)), Flatten(PushAll(before + init)), d.payload.hostID, x, last);
    }
  }

  lemma PushedLast<M, C>(pushes: seq<HostData<M, C>>, d: HostData<M, C>)
    ensures Flatten(PushAll(pushes + [d])) == Flatten(PushAll(pushes))[d.payload.hostID := d]
  {
    assert (pushes + [d])[..|pushes|] == pushes;
    ShardsHoldLatestPushes(pushes, d.payload.hostID);
    PushUpdatesFlat(PushAll(pushes), d);
  }

  lemma UpdatesCommute<M, C>(m1: Hosts<M, C>, m2: Hosts<M, C>, h: HostID, x: HostData<M, C>, d: HostData<M, C>)
    requires m1[h := x] == m2[h := x]
    ensures m1[d.payload.hostID := d][h := x] == m2[d.payload.hostID := d][h := x]
  {
    var k := d.payload.hostID;
    if k == h {
      assert m1[k := d][h := x] == m1[h := x] && m2[k := d][h := x] == m2[h := x];
    } else {
      assert m1[k := d][h := x] == m1[h := x][k := d] && m2[k := d][h := x] == m2[h := x][k := d];
    }
  }

  /** A push that the same host repeats later might as well never have happened,
      whatever other hosts pushed in between. */
  lemma SupersededPush<M, C>(before: seq<HostData<M, C>>, d1: HostData<M, C>,
                             between: seq<HostData<M, C>>, d2: HostData<M, C>)
    requires d1.payload.hostID == d2.payload.hostID
    ensures Flatten(PushAll(before + [d1] + between + [d2])) == Flatten(PushAll(before + between + [d2]))
  {
    ExtraPushStaysLocal(before, d1, between, d2);
    PushedLast(before + [d1] + between, d2);
    PushedLast(before + between, d2);
  }

  /** When a host pushes again what it pushed last, whatever others pushed since, only the
      time of its entry changes. */
  lemma RedeliveryOnlyRefreshes<M, C>(pushes: seq<HostData<M, C>>, i: nat, d: HostData<M, C>)
    requires IsLatest(pushes, i, d.payload.hostID) && pushes[i].payload == d.payload
    ensures var before, after := Flatten(PushAll(pushes)), Flatten(PushAll(pushes + [d]));
            var h := d.payload.hostID;
            && h in before && after == before[h := before[h].(lastUpdate := d.lastUpdate)]
  {
    ShardsHoldLatestPushes(pushes, d.payload.hostID);
    PushedLast(pushes, d);
  }

  lemma {:induction false} FlattenEmpty<M, C>(maps: seq<Hosts<M, C>>)
    requires forall i :: 0 <= i < |maps| ==> maps[i] == map[]
    ensures Flatten(maps) == map[]
  {
    if maps != [] {
      FlattenEmpty(maps[..|maps| - 1]);
    }
  }

  // ---- What a read returns ----------------------------------------------------------

  /** All items of the hosts in `who`, host by host in some order. */
  ghost function Gather<M, C, T>(who: set<HostID>, hosts: Hosts<M, C>, pick: Payload<M, C> -> seq<T>): multiset<T>
    requires who <= hosts.Keys
  {
    if who == {} then multiset{}
    else
      var h :| h in who;
      multiset(pick(hosts[h].payload)) + Gather(who - {h}, hosts, pick)
  }

  lemma {:induction false} GatherAny<M, C, T>(who: set<HostID>, hosts: Hosts<M, C>,
                                              pick: Payload<M, C> -> seq<T>, h: HostID)
    requires who <= hosts.Keys && h in who
    ensures Gather(who, hosts, pick) == multiset(pick(hosts[h].payload)) + Gather(who - {h}, hosts, pick)
  {
    var g :| g in who && Gather(who, hosts, pick) == multiset(pick(hosts[g].payload)) + Gather(who - {g}, hosts, pick);
    if g != h {
      GatherAny(who - {g}, hosts, pick, h);
      GatherAny(who - {h}, hosts, pick, g);
      assert who - {g} - {h} == who - {h} - {g};
    }
  }

  lemma {:induction false} GatherUnion<M, C, T>(a: set<HostID>, b: set<HostID>, hosts: Hosts<M, C>,
                                                pick: Payload<M, C> -> seq<T>)
    requires a <= hosts.Keys && b <= hosts.Keys && a !! b
    ensures Gather(a + b, hosts, pick) == Gather(a, hosts, pick) + Gather(b, hosts, pick)
  {
    if b == {} {
      assert a + b == a;
    } else {
      var h :| h in b;
      GatherUnion(a, b - {h}, hosts, pick);
      GatherAny(b, hosts, pick, h);
      GatherAny(a + b, hosts, pick, h);
      assert (a + b) - {h} == a + (b - {h});
    }
  }

  lemma {:induction false} GatherSame<M, C, T>(who: set<HostID>, m1: Hosts<M, C>, m2: Hosts<M, C>,
                                               pick: Payload<M, C> -> seq<T>)
    requires who <= m1.Keys && who <= m2.Keys
    requires forall h :: h in who ==> m1[h] == m2[h]
    ensures Gather(who, m1, pick) == Gather(who, m2, pick)
  {
    if who != {} {
      var h :| h in who;
      GatherAny(who, m1, pick, h);
      GatherAny(who, m2, pick, h);
      GatherSame(who - {h}, m1, m2, pick);
    }
  }

  ghost function FreshHosts<M, C>(hosts: Hosts<M, C>, now: int): set<HostID> {
    set h | h in hosts && Fresh(hosts[h], now)
  }

  /** The multiset a read of `hosts` at `now` must return. */
  ghost function FreshItems<M, C, T>(hosts: Hosts<M, C>, now: int, pick: Payload<M, C> -> seq<T>): multiset<T> {
    Gather(FreshHosts(hosts, now), hosts, pick)
  }

  /** The freshness filter in full: thirty seconds, inclusive; and nothing comes of a store
      whose every host is older. */
  lemma FreshItemsExactly<M, C, T>(hosts: Hosts<M, C>, now: int, pick: Payload<M, C> -> seq<T>)
    ensures FreshItems(hosts, now, pick) ==
            Gather((set h | h in hosts && now - hosts[h].lastUpdate <= 30_000_000_000), hosts, pick)
    ensures (forall h :: h in hosts ==> now - hosts[h].lastUpdate > 30_000_000_000) ==>
              FreshItems(hosts, now, pick) == multiset{}
  {
    assert FreshHosts(hosts, now) == set h | h in hosts && now - hosts[h].lastUpdate <= 30_000_000_000;
  }

  lemma FreshItemsOfPrefix<M, C, T>(maps: seq<Hosts<M, C>>, i: nat, now: int, pick: Payload<M, C> -> seq<T>)
    requires Placed(maps) && i < |maps|
    ensures FreshItems(Flatten(maps[..i + 1]), now, pick) ==
            FreshItems(Flatten(maps[..i]), now, pick) + FreshItems(maps[i], now, pick)
  {
    var before, after, last := Flatten(maps[..i]), Flatten(maps[..i + 1]), maps[i];
    assert maps[..i + 1][..i] == maps[..i];
    assert after == before + last;
    forall h ensures !(h in before && h in last) {
      FlattenLooksUpShard(maps[..i], h);
    }
    var a, b := FreshHosts(before, now), FreshHosts(last, now);
    assert FreshHosts(after, now) == a + b;
    GatherUnion(a, b, after, pick);
    GatherSame(a, before, after, pick);
    GatherSame(b, last, after, pick);
  }

  /** The body of both getters for one shard: append what its fresh hosts sent,
      hosts in any order. */
  method AppendFresh<M, C, T>(all: seq<T>, hosts: Hosts<M, C>, now: int, pick: Payload<M, C> -> seq<T>)
    returns (result: seq<T>)
    ensures multiset(result) == multiset(all) + FreshItems(hosts, now, pick)
  {
    result := all;
    var todo := hosts.Keys;
    ghost var live := FreshHosts(hosts, now);
    assert live * todo == live;
    while todo != {}
      invariant todo <= hosts.Keys
      invariant multiset(result) + Gather(live * todo, hosts, pick) == multiset(all) + FreshItems(hosts, now, pick)
      decreases |todo|
    {
      var h :| h in todo;
      GatherNext(todo, hosts, now, pick, h);
      todo := todo - {h};
      if now - hosts[h].lastUpdate > FRESHNESS {
        continue;
      }
      result := result + pick(hosts[h].payload);
    }
    assert live * todo == {};
  }

  lemma GatherNext<M, C, T>(todo: set<HostID>, hosts: Hosts<M, C>, now: int, pick: Payload<M, C> -> seq<T>, h: HostID)
    requires todo <= hosts.Keys && h in todo
    ensures var live := FreshHosts(hosts, now);
            Gather(live * todo, hosts, pick) ==
              Gather(live * (todo - {h}), hosts, pick)
              + (if Fresh(hosts[h], now) then multiset(pick(hosts[h].payload)) else multiset{})
  {
    var live := FreshHosts(hosts, now);
    if h in live {
      GatherAny(live * todo, hosts, pick, h);
      assert (live * todo) - {h} == live * (todo - {h});
    } else {
      assert live * todo == live * (todo - {h});
    }
  }

  // ---- The store --------------------------------------------------------------------------

  class Shard<M, C> {
    var hosts: Hosts<M, C>

    constructor ()
      ensures hosts == map[]
    {
      hosts := map[];
    }
  }

  class MemoryStore<M, C> {
    const shards: seq<Shard<M, C>>

    ghost function Maps(): (maps: seq<Hosts<M, C>>)
      reads shards
      ensures |maps| == |shards|
    {
      seq(|shards|, i requires 0 <= i < |shards| reads shards => shards[i].hosts)
    }

    ghost predicate Valid()
      reads shards
    {
      && |shards| == SHARD_COUNT
      && (forall i, j :: 0 <= i < j < |shards| ==> shards[i] != shards[j])
      && Placed(Maps())
    }

    /** The one map that the shards stand for. */
    ghost function Flat(): Hosts<M, C>
      reads shards
    {
      Flatten(Maps())
    }

    constructor ()
      ensures Valid() && fresh(shards)
      ensures Flat() == map[]
    {
      var all: seq<Shard<M, C>> := [];
      for i := 0 to SHARD_COUNT
        invariant |all| == i && fresh(all)
        invariant forall j, k :: 0 <= j < k < i ==> all[j] != all[k]
        invariant forall j :: 0 <= j < i ==> all[j].hosts == map[]
      {
        var s := new Shard();
        all := all + [s];
      }
      shards := all;
      new;
      FlattenEmpty(Maps());
    }

    method UpdateHost(payload: Payload<M, C>, now: int)
      requires Valid()
      modifies shards[ShardIndex(payload.hostID)]
      ensures Valid()
      ensures Flat() == old(Flat())[payload.hostID := HostData(now, payload)]
      ensures Maps() == PushInto(old(Maps()), HostData(now, payload))
    {
      ghost var before := Maps();
      var i := GetShardIndex(payload.hostID);
      shards[i].hosts := shards[i].hosts[payload.hostID := HostData(now, payload)];
      PushUpdatesFlat(before, HostData(now, payload));
      assert Maps() == PushInto(before, HostData(now, payload));
    }

    method GetAllMetrics(now: int) returns (all: seq<M>)
      requires Valid()
      ensures multiset(all) == FreshItems(Flat(), now, (p: Payload<M, C>) => p.metrics)
      ensures multiset(all) == Gather((set h | h in Flat() && now - Flat()[h].lastUpdate <= 30_000_000_000), Flat(),
                                      (p: Payload<M, C>) => p.metrics)
      ensures (forall h :: h in Flat() ==> now - Flat()[h].lastUpdate > 30_000_000_000) ==> all == []
    {
      var pick := (p: Payload<M, C>) => p.metrics;
      all := [];
      for i := 0 to |shards|
        invariant multiset(all) == FreshItems(Flatten(Maps()[..i]), now, pick)
      {
        all := AppendFresh(all, shards[i].hosts, now, pick);
        FreshItemsOfPrefix(Maps(), i, now, pick);
      }
      assert Maps()[..|shards|] == Maps();
      FreshItemsExactly(Flat(), now, pick);
      if forall h :: h in Flat() ==> now - Flat()[h].lastUpdate > 30_000_000_000 {
        assert |multiset(all)| == 0;
      }
    }

    method GetAllContainers(now: int) returns (all: seq<C>)
      requires Valid()
      ensures multiset(all) == FreshItems(Flat(), now, (p: Payload<M, C>) => p.containers)
      ensures multiset(all) == Gather((set h | h in Flat() && now - Flat()[h].lastUpdate <= 30_000_000_000), Flat(),
                                      (p: Payload<M, C>) => p.containers)
      ensures (forall h :: h in Flat() ==> now - Flat()[h].lastUpdate > 30_000_000_000) ==> all == []
    {
      var pick := (p: Payload<M, C>) => p.containers;
      all := [];
      for i := 0 to |shards|
        invariant multiset(all) == FreshItems(Flatten(Maps()[..i]), now, pick)
      {
        all := AppendFresh(all, shards[i].hosts, now, pick);
        FreshItemsOfPrefix(Maps(), i, now, pick);
      }
      assert Maps()[..|shards|] == Maps();
      FreshItemsExactly(Flat(), now, pick);
      if forall h :: h in Flat() ==> now - Flat()[h].lastUpdate > 30_000_000_000 {
        assert |multiset(all)| == 0;
      }
    }
  }
}
