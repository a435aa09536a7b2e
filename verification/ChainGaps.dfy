/** What CHAIN mode gives up because it tells a stale write by the newest version it has, dirty records included. */
module ChainGaps {
  import opened Types
  import opened Rings
  import opened Stores
  import opened Handlers
  import opened Clusters
  import opened Views
  import opened Members
  import opened AllModes
  import opened Removals

  /** Acknowledging a pending write leaves the replica clean at its version or newer exactly if it had stored that
      version, or something newer was clean. In CRAQ and CROWN that is always so (`PendingIsHeld`); in CHAIN it need
      not be. */
  lemma AckPromotes(r: Ring, i: nat, local: Local, id: ReqId)
    requires Valid(local.store) && id in local.table
    ensures var req := local.table[id].req;
      CleanVersion(HandleAck(r, i, local, id).local.store, req.key) >= req.version <==>
      HoldsAt(local.store, req.key, req.version)
  {
  }

  lemma HeadTakes(r: Ring, local: Local, req: PutRequest, v: nat)
    requires r.Valid() && |r.members| == 3 && r.mode == CHAIN && req.version == 0
    requires v == LatestVersion(local.store, req.key) + 1
    ensures var sent := req.(version := v, epoch := r.epoch);
      HandlePut(r, 0, local, req).effect ==
      Effect(Local(AddDirty(local.store, req.key, Types.Record(v, req.value)), Handlers.Stage(local.table, sent)),
             [ForwardPut(r.members[1], sent)])
  {
    hide LatestVersion;
  }

  lemma LatestOfOne(key: Key, record: Types.Record)
    ensures LatestVersion(EMPTY, key) == 0
    ensures LatestVersion(AddDirty(EMPTY, key, record), key) == record.version
  {
    assert record.version in DirtyAt(AddDirty(EMPTY, key, record), key).Keys;
  }

  /** The second write reaches the middle replica first. */
  lemma MiddleTakes(r: Ring, local: Local, req: PutRequest)
    requires r.Valid() && |r.members| == 3 && r.mode == CHAIN && req.version > LatestVersion(local.store, req.key)
    ensures var sent := req.(epoch := r.epoch);
      HandlePut(r, 1, local, req).effect ==
      Effect(Local(AddDirty(local.store, req.key, Types.Record(req.version, req.value)), Handlers.Stage(local.table, sent)),
             [ForwardPut(r.members[2], sent)])
  {
    hide LatestVersion;
    assert CleanVersion(local.store, req.key) <= LatestVersion(local.store, req.key) by { AboveClean(local.store, req.key); }
  }

  lemma AboveClean(s: Store, key: Key)
    ensures CleanVersion(s, key) <= LatestVersion(s, key)
  {
  }

  lemma MiddleSkips(r: Ring, first: PutRequest, second: PutRequest)
    requires r.Valid() && |r.members| == 3 && r.mode == CHAIN
    requires first.key == second.key && first.id != second.id && first.version == 1 && second.version == 2
    ensures var m1 := HandlePut(r, 1, Local(EMPTY, map[]), second).effect;
      var m2 := HandlePut(r, 1, m1.local, first).effect;
      var sent := first.(epoch := r.epoch);
      && m2.out == [ForwardPut(r.members[2], sent)]
      && m2.local.store == AddDirty(EMPTY, first.key, Types.Record(2, second.value))
      && first.id in m2.local.table && m2.local.table[first.id].req == sent
  {
    LatestOfOne(first.key, Types.Record(2, second.value));
    hide LatestVersion;
    var m1 := HandlePut(r, 1, Local(EMPTY, map[]), second).effect;
    assert m1.local.store == AddDirty(EMPTY, first.key, Types.Record(2, second.value));
  }

  lemma TailAcks(r: Ring, req: PutRequest)
    requires r.Valid() && |r.members| == 3 && r.mode == CHAIN && req.version > 0
    ensures var t := HandlePut(r, 2, Local(EMPTY, map[]), req).effect;
      |t.out| >= 1 && t.out[0] == WriteAck(r.members[1], req.id, req.key, req.version, req.epoch)
  {
    hide CommitForwarded;
  }

  /** Two writes overtake each other before the middle of a chain of three: the middle replica skips the older one,
      passes it on, and after its acknowledgement the head is clean at version 1 while the middle replica has
      nothing clean. Clean versions of neighbours are out of order. */
  lemma NeighboursOutOfOrder(r: Ring, first: PutRequest, second: PutRequest)
    requires r.Valid() && |r.members| == 3 && r.mode == CHAIN
    requires first.key == second.key && first.id != second.id && first.version == second.version == 0
    ensures
      var blank := Local(EMPTY, map[]);
      var h1 := HandlePut(r, 0, blank, first).effect;
      var h2 := HandlePut(r, 0, h1.local, second).effect;
      && |h1.out| == |h2.out| == 1 && h1.out[0].ForwardPut? && h2.out[0].ForwardPut?
      && var m1 := HandlePut(r, 1, blank, h2.out[0].req).effect;
         var m2 := HandlePut(r, 1, m1.local, h1.out[0].req).effect;
      && |m2.out| == 1 && m2.out[0].ForwardPut?
      && var t := HandlePut(r, 2, blank, m2.out[0].req).effect;
      && |t.out| >= 1 && t.out[0].WriteAck?
      && var m3 := HandleAck(r, 1, m2.local, t.out[0].id);
      && |m3.out| == 1 && m3.out[0].WriteAck?
      && var h3 := HandleAck(r, 0, h2.local, m3.out[0].id);
      && CleanVersion(h3.local.store, first.key) == 1
      && CleanVersion(m3.local.store, first.key) == 0
  {
    hide HandlePut, LatestVersion;
    var key := first.key;
    var one, two := Types.Record(1, first.value), Types.Record(2, second.value);
    LatestOfOne(key, one);
    HeadTakes(r, Local(EMPTY, map[]), first, 1);
    var h1 := HandlePut(r, 0, Local(EMPTY, map[]), first).effect;
    HeadTakes(r, h1.local, second, 2);
    var h2 := HandlePut(r, 0, h1.local, second).effect;
    MiddleSkips(r, h1.out[0].req, h2.out[0].req);
    TailAcks(r, first.(version := 1, epoch := r.epoch));
    assert h2.local.store.dirty[key] == map[1 := one, 2 := two];
  }

  // ---------- a replica that becomes the tail with a dirty record ----------

  /** A tail promotes a forwarded write exactly if it does not have it, or something newer, dirty. */
  lemma TailPromotes(r: Ring, local: Local, req: PutRequest)
    requires r.mode == CHAIN && r.members != [] && Valid(local.store) && req.version > 0
    ensures var e := HandlePut(r, r.TailIndex(req.key), local, req).effect;
      CleanVersion(e.local.store, req.key) >= req.version <==>
      !(CleanVersion(local.store, req.key) < req.version <= LatestVersion(local.store, req.key))
  {
  }

  /** A tail tells the client of the commit in any case. */
  lemma TailAlwaysNotifies(r: Ring, local: Local, req: PutRequest)
    requires r.mode == CHAIN && r.members != [] && req.version > 0 && req.client.Some?
    ensures CommitAck(req.client.value, req.key, req.version) in HandlePut(r, r.TailIndex(req.key), local, req).effect.out
  {
    var notice := AckFor(req, None);
    assert notice == [CommitAck(req.client.value, req.key, req.version)];
    var out := TailOut(r, r.TailIndex(req.key), req);
    assert out[|out| - 1] == notice[0];
    hide CommitForwarded;
  }

  /** A CHAIN replica that is alone addresses the acknowledgement for its predecessor to the client too, so a forwarded write that
      reaches it is announced twice; anywhere else once. */
  lemma LoneTailTellsTwice(r: Ring, i: nat, req: PutRequest)
    requires r.members != [] && req.client.Some?
    ensures var notice := CommitAck(req.client.value, req.key, req.version);
      multiset(TailOut(r, i, req))[notice] == if r.mode == CHAIN && |r.members| == 1 then 2 else 1
  {
    var notice := CommitAck(req.client.value, req.key, req.version);
    assert AckFor(req, None) == [notice];
    if |r.members| == 1 {
      assert TailOut(r, i, req) == if r.mode == CHAIN then [notice, notice] else [notice];
    } else {
      assert TailOut(r, i, req) == AckFor(req, Prev(r, i)) + [notice];
    }
  }

  /** A CHAIN tail is lost, with any writes in flight. The value and the version its predecessor answers, now the tail,
      belong to one record exactly if it had nothing dirty, which is the condition for the removal. */
  lemma NewTailReadsOneRecord(c: Cluster, epoch: nat, key: Key)
    requires ModeInv(c) && c.ring.mode == CHAIN && |c.ring.members| >= 2
    ensures var seat := |c.ring.members| - 1;
      var x := c.ring.members[seat - 1];
      var d := Shrink(c, seat, epoch);
      && Shape(d) && TailNode(d, key) == x && x in c.servers
      && var s := c.servers[x].store;
      && (key in s.clean ==>
           var answer := BeginGet(d.ring, Seat(d, x), d.servers[x].store, key);
           answer == Done(Found(s.clean[key].value, s.clean[key].version)) <==> MayGo(c, seat, key))
  {
    BaseParts(c, key);
    var x := NewTail(c, epoch, key);
    ValidStore(c, x);
    LastMayGo(c, key);
    hide *;
    if key in c.servers[x].store.clean {
      OneRecordRead(Shrink(c, |c.ring.members| - 1, epoch).ring, c.servers[x].store, key);
    }
  }

  lemma NewTail(c: Cluster, epoch: nat, key: Key) returns (x: NodeId)
    requires Shape(c) && c.ring.mode == CHAIN && |c.ring.members| >= 2
    ensures x == c.ring.members[|c.ring.members| - 2] && x in c.servers
    ensures var d := Shrink(c, |c.ring.members| - 1, epoch);
      && Shape(d) && d.ring.mode == CHAIN && d.ring.members != [] && d.servers == c.servers
      && TailNode(d, key) == x && Seat(d, x) == d.ring.TailIndex(key)
  {
    hide View, Install;
    var seat := |c.ring.members| - 1;
    ShrinkShape(c, seat, epoch);
    ShrinkOnlyRing(c, seat, epoch);
    x := c.ring.members[seat - 1];
    var ring := Shrunk(c.ring, seat, epoch);
    assert ring.members[seat - 1] == x && |ring.members| == seat;
    SeatUnique(ring, seat - 1);
  }

  lemma ValidStore(c: Cluster, x: NodeId)
    requires Genuine(c) && x in c.servers
    ensures Valid(c.servers[x].store)
  {
    assert GoodServer(c.hist, c.servers[x]);
  }

  lemma LastMayGo(c: Cluster, key: Key)
    requires Shape(c) && c.ring.mode == CHAIN && |c.ring.members| >= 2
    ensures var seat := |c.ring.members| - 1;
      MayGo(c, seat, key) <==> DirtyAt(c.servers[c.ring.members[seat - 1]].store, key) == map[]
  {
  }

  lemma OneRecordRead(r: Ring, s: Store, key: Key)
    requires r.mode == CHAIN && r.members != [] && Valid(s) && key in s.clean
    ensures BeginGet(r, r.TailIndex(key), s, key) == Done(Found(s.clean[key].value, s.clean[key].version)) <==>
            DirtyAt(s, key) == map[]
  {
    hide LatestVersion;
    NewestIsClean(s, key);
  }

  lemma NewestIsClean(s: Store, key: Key)
    requires Valid(s)
    ensures LatestVersion(s, key) == CleanVersion(s, key) <==> DirtyAt(s, key) == map[]
  {
    if v :| v in DirtyAt(s, key) { assert v in DirtyAt(s, key).Keys; }
  }

  lemma MiddleCommits(key: Key, one: Types.Record, two: Types.Record)
    requires one.version == 1 && two.version == 2
    ensures var clean := MarkClean(AddDirty(EMPTY, key, one), key, 1);
      && At(clean, key).clean == Some(one) && DirtyAt(clean, key) == map[] && LatestVersion(clean, key) == 1
      && var both := AddDirty(clean, key, two);
      && key in both.clean && both.clean[key] == one && CleanVersion(both, key) == 1 && LatestVersion(both, key) == 2
  {
    var s := AddDirty(EMPTY, key, one);
    assert s.dirty[key] == map[1 := one];
    assert Above(s.dirty[key], 1) == map[];
    var clean := MarkClean(s, key, 1);
    var both := AddDirty(clean, key, two);
    assert DirtyAt(both, key) == map[2 := two];
    assert 2 in DirtyAt(both, key).Keys;
  }

  /** A chain of three commits one write and has the second one dirty at head and middle when its tail is taken out. The
      middle replica is the tail now; the head sends the second write on again. The new tail takes it for stale: it tells the
      client that version 2 is committed, while its clean version is 1, and answers reads with the first value under
      the second version. */
  lemma NewTailNotifiesTooEarly(r: Ring, first: PutRequest, second: PutRequest)
    requires r.Valid() && |r.members| == 3 && r.mode == CHAIN
    requires first.key == second.key && first.id != second.id && first.version == second.version == 0
    requires second.client.Some?
    ensures
      var blank := Local(EMPTY, map[]);
      var h1 := HandlePut(r, 0, blank, first).effect;
      && |h1.out| == 1 && h1.out[0].ForwardPut?
      && var m1 := HandlePut(r, 1, blank, h1.out[0].req).effect;
      && |m1.out| == 1 && m1.out[0].ForwardPut?
      && var t := HandlePut(r, 2, blank, m1.out[0].req).effect;
      && |t.out| >= 1 && t.out[0].WriteAck? && t.out[0].to == r.members[1]
      && var m2 := HandleAck(r, 1, m1.local, t.out[0].id);
         var h2 := HandlePut(r, 0, h1.local, second).effect;
      && |h2.out| == 1 && h2.out[0].ForwardPut? && second.id in h2.local.table
      && var m3 := HandlePut(r, 1, m2.local, h2.out[0].req).effect;
         var shrunk := Shrunk(r, 2, r.epoch + 1);
         var again := Forward(shrunk, 0, h2.local, h2.local.table[second.id].req);
      && |again.out| == 1 && again.out[0].ForwardPut? && again.out[0].to == r.members[1]
      && var n := HandlePut(shrunk, 1, m3.local, again.out[0].req).effect;
      && CommitAck(second.client.value, second.key, 2) in n.out
      && CleanVersion(n.local.store, second.key) == 1
      && BeginGet(shrunk, 1, n.local.store, second.key) == Done(Found(first.value, 2))
  {
    hide HandlePut, LatestVersion, MarkClean, AddDirty, TailOut;
    var key := first.key;
    var one, two := Types.Record(1, first.value), Types.Record(2, second.value);
    LatestOfOne(key, one);
    var blank := Local(EMPTY, map[]);
    HeadTakes(r, blank, first, 1);
    var h1 := HandlePut(r, 0, blank, first).effect;
    HeadTakes(r, h1.local, second, 2);
    var sent1 := first.(version := 1, epoch := r.epoch);
    MiddleTakes(r, blank, sent1);
    TailAcks(r, sent1);
    MiddleCommits(key, one, two);
    var m1 := HandlePut(r, 1, blank, sent1).effect;
    var m2 := HandleAck(r, 1, m1.local, first.id);
    assert m2.local.store == MarkClean(AddDirty(EMPTY, key, one), key, 1);
    var sent2 := second.(version := 2, epoch := r.epoch);
    MiddleTakes(r, m2.local, sent2);
    var m3 := HandlePut(r, 1, m2.local, sent2).effect;
    ShrunkTail(r);
    StaleTail(Shrunk(r, 2, r.epoch + 1), m3.local, second.(version := 2, epoch := r.epoch + 1));
  }

  lemma ShrunkTail(r: Ring)
    requires r.Valid() && |r.members| == 3 && r.mode == CHAIN
    ensures var s := Shrunk(r, 2, r.epoch + 1);
      s.members == [r.members[0], r.members[1]] && s.mode == CHAIN && Next(s, 0) == Some(r.members[1])
  {
  }

  lemma StaleTail(r: Ring, local: Local, req: PutRequest)
    requires r.mode == CHAIN && |r.members| == 2 && req.version > 0 && req.client.Some? && req.key in local.store.clean
    requires CleanVersion(local.store, req.key) < req.version == LatestVersion(local.store, req.key)
    ensures var e := HandlePut(r, 1, local, req).effect;
      && e.local.store == local.store && CommitAck(req.client.value, req.key, req.version) in e.out
      && BeginGet(r, 1, e.local.store, req.key) == Done(Found(local.store.clean[req.key].value, req.version))
  {
    hide LatestVersion;
    TailAlwaysNotifies(r, local, req);
  }
}
