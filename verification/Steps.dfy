/** The simulation, action by action, and the invariant of the whole system. */
module Steps {
  import opened Types
  import opened Rings
  import opened Stores
  import opened Handlers
  import opened Clusters
  import opened Views
  import opened Simulation
  import Lines

  // ---------- tables ----------

  lemma StagePends(h: map<Key, seq<Write>>, table: Table, req: PutRequest, key: Key)
    requires UniqueIds(h) && GoodTable(h, table) && GoodRequest(h, req)
    ensures GoodTable(h, Handlers.Stage(table, req))
    ensures PendOf(Handlers.Stage(table, req), key) ==
            PendOf(table, key) + (if key == req.key then {req.version} else {})
  {
    var t := Handlers.Stage(table, req);
    if req.id in table {
      var old' := table[req.id].req;
      assert h[old'.key][old'.version - 1].id == h[req.key][req.version - 1].id;
      assert old'.key == req.key && old'.version == req.version;
    }
    forall v ensures v in PendOf(t, key) <==> v in PendOf(table, key) || (key == req.key && v == req.version) {
      if v in PendOf(table, key) {
        var id :| id in table && table[id].req.key == key && table[id].req.version == v;
        assert id in t && t[id].req.key == key && t[id].req.version == v;
      }
      if key == req.key && v == req.version {
        assert req.id in t && t[req.id].req == req;
      }
    }
  }

  lemma DropPends(h: map<Key, seq<Write>>, table: Table, id: ReqId, key: Key)
    requires UniqueIds(h) && GoodTable(h, table) && id in table
    ensures GoodTable(h, table - {id})
    ensures PendOf(table - {id}, key) ==
            PendOf(table, key) - (if key == table[id].req.key then {table[id].req.version} else {})
  {
    var t := table - {id};
    var req := table[id].req;
    forall v ensures v in PendOf(t, key) <==> v in PendOf(table, key) && !(key == req.key && v == req.version) {
      if v in PendOf(table, key) && !(key == req.key && v == req.version) {
        var i :| i in table && table[i].req.key == key && table[i].req.version == v;
        assert i in t;
      }
      if v in PendOf(t, key) {
        var i :| i in t && t[i].req.key == key && t[i].req.version == v;
        assert table[i].req.id == i && table[id].req.id == id;
      }
    }
  }

  /** What sending a write on leaves behind. */
  lemma ForwardLeaves(h: map<Key, seq<Write>>, r: Ring, i: nat, local: Local, req: PutRequest, key: Key)
    requires UniqueIds(h) && GoodTable(h, local.table) && GoodRequest(h, req)
    ensures var e := Forward(r, i, local, req);
      && e.local.store == local.store
      && GoodTable(h, e.local.table)
      && GoodNet(h, e.out)
      && (forall m :: m in e.out ==> About(m, req.key))
      && PendOf(e.local.table, key) ==
         PendOf(local.table, key) + (if key == req.key && |r.members| > 1 then {req.version} else {})
  {
    StagePends(h, local.table, req.(epoch := r.epoch), key);
  }

  // ---------- a forwarded write arrives ----------

  /** The staleness test comes out as if only the clean record counted. In CRAQ and CROWN it always does. */
  ghost predicate PlainTest(mode: Mode, s: Store, req: PutRequest) {
    IsStale(mode, s, req) <==> req.version <= CleanVersion(s, req.key)
  }

  lemma StoreForwardedLeaves(h: map<Key, seq<Write>>, mode: Mode, s: Store, req: PutRequest, table: Table, key: Key)
    requires GoodStore(h, s) && GoodRequest(h, req)
    ensures GoodStore(h, StoreForwarded(mode, s, req))
    ensures var before := Core(Local(s, table), key);
      var after := Core(Local(StoreForwarded(mode, s, req), table), key);
      && (key != req.key ==> after == before)
      && (key == req.key && PlainTest(mode, s, req) ==> after == Lines.Stage(before, req.version))
  {
    StoresStayGood(h, s, req.key, req.value, req.version);
    AddDirtyCore(s, req.key, Record(req.version, req.value), key);
  }

  lemma CommitForwardedLeaves(h: map<Key, seq<Write>>, mode: Mode, s: Store, req: PutRequest, table: Table, key: Key)
    requires GoodStore(h, s) && GoodRequest(h, req)
    ensures GoodStore(h, CommitForwarded(mode, s, req))
    ensures var before := Core(Local(s, table), key);
      var after := Core(Local(CommitForwarded(mode, s, req), table), key);
      var committed := Lines.Clean(Lines.Stage(before, req.version), req.version);
      && (key != req.key ==> after == before)
      && (key == req.key && PlainTest(mode, s, req) ==> after == if req.version <= before.cv then before else committed)
  {
    StoreForwardedLeaves(h, mode, s, req, table, key);
    var staged := StoreForwarded(mode, s, req);
    StoresStayGood(h, staged, req.key, req.value, req.version);
    MarkCleanCore(staged, req.key, req.version, table, key);
  }

  lemma TailOutGood(h: map<Key, seq<Write>>, r: Ring, i: nat, req: PutRequest)
    requires GoodRequest(h, req)
    ensures GoodNet(h, TailOut(r, i, req)) && forall m :: m in TailOut(r, i, req) ==> About(m, req.key)
  {
  }

  lemma ForwardedWriteLeaves(h: map<Key, seq<Write>>, r: Ring, i: nat, local: Local, req: PutRequest)
    requires UniqueIds(h) && GoodStore(h, local.store) && GoodTable(h, local.table)
    requires GoodRequest(h, req)
    ensures var e := ForwardedWrite(r, i, local, req);
      && GoodStore(h, e.local.store) && GoodTable(h, e.local.table) && GoodNet(h, e.out)
      && (forall m :: m in e.out ==> About(m, req.key))
  {
    hide Core, CommitForwarded, StoreForwarded, TailOut, GoodStore, GoodRequest, UniqueIds, PendOf;
    CommitForwardedLeaves(h, r.mode, local.store, req, local.table, req.key);
    StoreForwardedLeaves(h, r.mode, local.store, req, local.table, req.key);
    TailOutGood(h, r, i, req);
    ForwardLeaves(h, r, i, local.(store := StoreForwarded(r.mode, local.store, req)), req, req.key);
  }

  lemma ForwardedWriteElsewhere(h: map<Key, seq<Write>>, r: Ring, i: nat, local: Local, req: PutRequest, key: Key)
    requires UniqueIds(h) && GoodStore(h, local.store) && GoodTable(h, local.table)
    requires GoodRequest(h, req) && key != req.key
    ensures Core(ForwardedWrite(r, i, local, req).local, key) == Core(local, key)
  {
    hide CommitForwarded, StoreForwarded, TailOut, GoodStore, GoodRequest, UniqueIds, PendOf;
    CommitForwardedLeaves(h, r.mode, local.store, req, local.table, key);
    StoreForwardedLeaves(h, r.mode, local.store, req, local.table, key);
    ForwardLeaves(h, r, i, local.(store := StoreForwarded(r.mode, local.store, req)), req, key);
  }

  lemma ForwardArrives(c: Cluster, i: nat, key: Key)
    requires Shape(c) && Genuine(c) && Enabled(c, Deliver(i)) && c.net[i].ForwardPut?
    requires key == c.net[i].req.key ==> PlainTest(c.ring.mode, c.servers[c.net[i].to].store, c.net[i].req)
    ensures Shape(Apply(c, Deliver(i)))
    ensures Lines.Step(View(c, key), View(Apply(c, Deliver(i)), key))
  {
    hide FwdOf, AckOf, CommitsOf, PendOf, Core, StoreForwarded, CommitForwarded, TailOut, UniqueIds, GoodStore, Lines.RecvFwd, Lines.Within, PlainTest;
    var x, req := c.net[i].to, c.net[i].req;
    var rest := RemoveAt(c.net, i);
    assert GoodMessage(c.hist, c.net[i]) && GoodServer(c.hist, c.servers[x]);
    if req.epoch < c.ring.epoch {
      OnlyLoss(c, rest, key);
    } else {
      var local := LocalOf(c.servers[x], c.ring.mode);
      var e := ForwardedWrite(c.ring, Seat(c, x), local, req);
      var p := SeatPosition(c, x, req.key);
      ForwardedWriteLeaves(c.hist, c.ring, Seat(c, x), local, req);
      if key != req.key {
        ForwardedWriteElsewhere(c.hist, c.ring, Seat(c, x), local, req, key);
        OtherKeyWithin(c, x, e, rest, key, req.key);
      } else {
        if p == |c.ring.members| - 1 {
          ReachesTail(c, x, req, rest, p);
        } else {
          ReachesMiddle(c, x, req, rest, p);
        }
        InFlight(c.net, c.net[i]);
        assert Lines.FwdArrives(View(c, key), View(Apply(c, Deliver(i)), key), p, req.version);
      }
    }
  }

  /** Losing messages is a step. */
  lemma OnlyLoss(c: Cluster, rest: seq<Message>, key: Key)
    requires Shape(c)
    requires forall msg :: msg in rest ==> msg in c.net
    ensures Shape(c.(net := rest)) && Lines.Within(View(c.(net := rest), key), View(c, key))
  {
    forall p | 0 <= p < |c.ring.members|
      ensures FwdOf(rest, c.ring.NodeAt(key, p), key) <= FwdOf(c.net, c.ring.NodeAt(key, p), key)
      ensures AckOf(rest, c.ring.NodeAt(key, p), key) <= AckOf(c.net, c.ring.NodeAt(key, p), key)
    {
      NetShrinks(rest, c.net, c.ring.NodeAt(key, p), key);
    }
  }

  lemma ReachesTail(c: Cluster, x: NodeId, req: PutRequest, rest: seq<Message>, p: nat)
    requires Shape(c) && x in c.ring.members && UniqueIds(c.hist)
    requires GoodServer(c.hist, c.servers[x]) && GoodRequest(c.hist, req)
    requires PlainTest(c.ring.mode, c.servers[x].store, req)
    requires forall msg :: msg in rest ==> msg in c.net
    requires p == c.ring.PosOf(req.key, Seat(c, x)) && x == c.ring.NodeAt(req.key, p) && p == |c.ring.members| - 1
    ensures var e := ForwardedWrite(c.ring, Seat(c, x), LocalOf(c.servers[x], c.ring.mode), req);
      Lines.Within(View(React(c, x, e, rest), req.key), Lines.RecvFwd(View(c, req.key), p, req.version))
  {
    hide Core, CommitForwarded, TailOut, UniqueIds, GoodStore, GoodRequest, React, GoodTable, PlainTest, View, Lines.Within;
    SlotCore(c, x, req.key, p);
    var local := LocalOf(c.servers[x], c.ring.mode);
    var _ := SeatPosition(c, x, req.key);
    CommitForwardedLeaves(c.hist, c.ring.mode, local.store, req, local.table, req.key);
    var committed := local.(store := CommitForwarded(c.ring.mode, local.store, req));
    CommitWithin(c, x, committed, req, rest, p);
    assert SetCore(View(c, req.key), p, Core(committed, req.key)) == Lines.CommitAt(View(c, req.key), p, req.version);
  }

  lemma ReachesMiddle(c: Cluster, x: NodeId, req: PutRequest, rest: seq<Message>, p: nat)
    requires Shape(c) && x in c.ring.members && UniqueIds(c.hist)
    requires GoodServer(c.hist, c.servers[x]) && GoodRequest(c.hist, req)
    requires PlainTest(c.ring.mode, c.servers[x].store, req)
    requires forall msg :: msg in rest ==> msg in c.net
    requires p == c.ring.PosOf(req.key, Seat(c, x)) && x == c.ring.NodeAt(req.key, p) && p < |c.ring.members| - 1
    ensures var e := ForwardedWrite(c.ring, Seat(c, x), LocalOf(c.servers[x], c.ring.mode), req);
      Lines.Within(View(React(c, x, e, rest), req.key), Lines.RecvFwd(View(c, req.key), p, req.version))
  {
    hide FwdOf, AckOf, CommitsOf, PendOf, React, PlainTest, GoodStore, UniqueIds, View, Lines.Within, StoreForwarded;
    SlotCore(c, x, req.key, p);
    var local := LocalOf(c.servers[x], c.ring.mode);
    var _ := SeatPosition(c, x, req.key);
    StoreForwardedLeaves(c.hist, c.ring.mode, local.store, req, local.table, req.key);
    var staged := local.(store := StoreForwarded(c.ring.mode, local.store, req));
    ForwardLeaves(c.hist, c.ring, Seat(c, x), staged, req, req.key);
    ForwardWithin(c, x, staged, req, rest, p);
    var e := Forward(c.ring, Seat(c, x), staged, req);
    assert SetCore(View(c, req.key), p, Core(e.local, req.key)) == Lines.StageAt(View(c, req.key), p, req.version);
  }

  // ---------- an acknowledgement arrives ----------

  lemma AckLeaves(h: map<Key, seq<Write>>, local: Local, id: ReqId, key: Key)
    requires UniqueIds(h) && GoodStore(h, local.store) && GoodTable(h, local.table) && id in local.table
    ensures var req := local.table[id].req;
            var after := Local(MarkClean(local.store, req.key, req.version), local.table - {id});
      && GoodStore(h, after.store) && GoodTable(h, after.table)
      && Core(after, key) == (var before := Core(local, key);
           if key != req.key then before
           else Lines.Clean(before, req.version).(pend := before.pend - {req.version}))
  {
    var req := local.table[id].req;
    StoresStayGood(h, local.store, req.key, req.value, req.version);
    MarkCleanCore(local.store, req.key, req.version, local.table, key);
    DropPends(h, local.table, id, key);
  }

  /** The entry found under the acknowledged id is the acknowledged write: this is where unique ids matter. */
  lemma AckFindsItsWrite(h: map<Key, seq<Write>>, table: Table, m: Message)
    requires UniqueIds(h) && GoodTable(h, table) && GoodMessage(h, m) && m.WriteAck? && m.id in table
    ensures table[m.id].req.key == m.ackKey && table[m.id].req.version == m.ackVersion
  {
    var req := table[m.id].req;
    assert h[req.key][req.version - 1].id == h[m.ackKey][m.ackVersion - 1].id;
  }

  lemma AckReaches(c: Cluster, x: NodeId, id: ReqId, rest: seq<Message>, p: nat)
    requires Shape(c) && x in c.ring.members && UniqueIds(c.hist) && GoodServer(c.hist, c.servers[x])
    requires forall msg :: msg in rest ==> msg in c.net
    requires id in TableOf(c.servers[x], c.ring.mode)
    requires var key := TableOf(c.servers[x], c.ring.mode)[id].req.key;
      p == c.ring.PosOf(key, Seat(c, x)) && x == c.ring.NodeAt(key, p)
    ensures var req := TableOf(c.servers[x], c.ring.mode)[id].req;
      var e := HandleAck(c.ring, Seat(c, x), LocalOf(c.servers[x], c.ring.mode), id);
      Lines.Within(View(React(c, x, e, rest), req.key), Lines.RecvAck(View(c, req.key), p, req.version))
  {
    hide FwdOf, AckOf, CommitsOf, PendOf, View, React, Lines.Within, UniqueIds, GoodStore, MarkClean;
    var local := LocalOf(c.servers[x], c.ring.mode);
    var req := local.table[id].req;
    var _ := SeatPosition(c, x, req.key);
    SlotCore(c, x, req.key, p);
    AckLeaves(c.hist, local, id, req.key);
    var after := Local(MarkClean(local.store, req.key, req.version), local.table - {id});
    if p == 0 {
      SilentWithin(c, x, after, rest, req.key, p);
    } else {
      AckWithin(c, x, after, req, rest, p);
    }
    assert SetCore(View(c, req.key), p, Core(after, req.key)) == Lines.CleanAt(View(c, req.key), p, req.version);
    IsPending(local.table, id);
  }

  /** An acknowledgement nobody waits for is dropped. */
  lemma AckIgnored(c: Cluster, x: NodeId, id: ReqId, rest: seq<Message>, key: Key)
    requires Shape(c) && x in c.ring.members && id !in TableOf(c.servers[x], c.ring.mode)
    requires forall msg :: msg in rest ==> msg in c.net
    ensures var e := HandleAck(c.ring, Seat(c, x), LocalOf(c.servers[x], c.ring.mode), id);
      Shape(React(c, x, e, rest)) && Lines.Within(View(React(c, x, e, rest), key), View(c, key))
  {
    hide FwdOf, AckOf, CommitsOf, PendOf;
    var local := LocalOf(c.servers[x], c.ring.mode);
    var p := SeatPosition(c, x, key);
    SilentWithin(c, x, local, rest, key, p);
    assert SetCore(View(c, key), p, Core(local, key)).slots == View(c, key).slots;
  }

  /** An acknowledgement for a write of another key. */
  lemma AckElsewhere(c: Cluster, x: NodeId, id: ReqId, rest: seq<Message>, key: Key)
    requires Shape(c) && x in c.ring.members && UniqueIds(c.hist) && GoodServer(c.hist, c.servers[x])
    requires id in TableOf(c.servers[x], c.ring.mode)
    requires key != TableOf(c.servers[x], c.ring.mode)[id].req.key
    requires forall msg :: msg in rest ==> msg in c.net
    ensures var e := HandleAck(c.ring, Seat(c, x), LocalOf(c.servers[x], c.ring.mode), id);
      Shape(React(c, x, e, rest)) && Lines.Within(View(React(c, x, e, rest), key), View(c, key))
  {
    hide FwdOf, AckOf, CommitsOf, PendOf;
    var local := LocalOf(c.servers[x], c.ring.mode);
    AckLeaves(c.hist, local, id, key);
    OtherKeyWithin(c, x, HandleAck(c.ring, Seat(c, x), local, id), rest, key, local.table[id].req.key);
  }

  lemma AckArrives(c: Cluster, i: nat, key: Key)
    requires Shape(c) && Genuine(c) && Enabled(c, Deliver(i)) && c.net[i].WriteAck?
    ensures Shape(Apply(c, Deliver(i)))
    ensures Lines.Step(View(c, key), View(Apply(c, Deliver(i)), key))
  {
    var m := c.net[i];
    var x := m.to;
    var rest := RemoveAt(c.net, i);
    var table := TableOf(c.servers[x], c.ring.mode);
    assert m in c.net;
    assert GoodMessage(c.hist, m) && GoodServer(c.hist, c.servers[x]);
    if m.id !in table {
      AckIgnored(c, x, m.id, rest, key);
    } else {
      AckFindsItsWrite(c.hist, table, m);
      if key != table[m.id].req.key {
        AckElsewhere(c, x, m.id, rest, key);
      } else {
        var p := SeatPosition(c, x, key);
        AckReaches(c, x, m.id, rest, p);
        InFlight(c.net, m);
        assert Lines.AckArrives(View(c, key), View(Apply(c, Deliver(i)), key), p, m.ackVersion);
      }
    }
  }

  // ---------- a pending write is sent again ----------

  lemma RetryKeepsPends(h: map<Key, seq<Write>>, table: Table, id: ReqId, n: nat, key: Key)
    requires id in table && GoodTable(h, table)
    ensures var t := table[id := Pending(table[id].req, n)];
      GoodTable(h, t) && PendOf(t, key) == PendOf(table, key)
  {
    var t := table[id := Pending(table[id].req, n)];
    forall v ensures v in PendOf(t, key) <==> v in PendOf(table, key) {
      if v in PendOf(table, key) {
        var i :| i in table && table[i].req.key == key && table[i].req.version == v;
        assert i in t && t[i].req == table[i].req;
      }
    }
  }

  /** Server x holds its store and a table with the same writes pending, apart from retry counts. */
  ghost predicate SamePends(c: Cluster, x: NodeId, local: Local)
    requires x in c.servers
  {
    && local.store == c.servers[x].store
    && GoodTable(c.hist, local.table)
    && forall k :: PendOf(local.table, k) == PendOf(TableOf(c.servers[x], c.ring.mode), k)
  }

  lemma SendsAgainHere(c: Cluster, x: NodeId, local: Local, id: ReqId, p: nat)
    requires Shape(c) && UniqueIds(c.hist) && x in c.ring.members
    requires SamePends(c, x, local) && id in local.table
    requires var key := local.table[id].req.key; p == c.ring.PosOf(key, Seat(c, x)) && x == c.ring.NodeAt(key, p)
    ensures var req := local.table[id].req;
      var c' := React(c, x, Forward(c.ring, Seat(c, x), local, req), c.net);
      Shape(c') && req.version in View(c, req.key).slots[p].pend
      && Lines.Within(View(c', req.key), Lines.Resend(View(c, req.key), p, req.version))
  {
    hide FwdOf, AckOf, CommitsOf, PendOf, View, React, Lines.Within, UniqueIds, GoodRequest;
    var req := local.table[id].req;
    var key := req.key;
    SlotCore(c, x, key, p);
    var e := Forward(c.ring, Seat(c, x), local, req);
    ForwardLeaves(c.hist, c.ring, Seat(c, x), local, req, key);
    IsPending(local.table, id);
    var m := SetCore(View(c, key), p, Core(e.local, key));
    assert PendOf(e.local.table, key) == PendOf(local.table, key);
    assert m.slots == View(c, key).slots;
    if |c.ring.members| > 1 {
      ForwardWithin(c, x, local, req, c.net, p);
    } else {
      SilentWithin(c, x, local, c.net, key, p);
    }
  }

  /** Sending a pending write again is a step of its key's chain, whatever is done to the retry counts. */
  lemma SendsAgain(c: Cluster, x: NodeId, local: Local, id: ReqId, key: Key)
    requires Shape(c) && UniqueIds(c.hist) && x in c.ring.members
    requires SamePends(c, x, local) && id in local.table
    ensures var c' := React(c, x, Forward(c.ring, Seat(c, x), local, local.table[id].req), c.net);
      Shape(c') && Lines.Step(View(c, key), View(c', key))
  {
    hide FwdOf, AckOf, CommitsOf, PendOf;
    var req := local.table[id].req;
    var e := Forward(c.ring, Seat(c, x), local, req);
    var p := SeatPosition(c, x, key);
    if key != req.key {
      ForwardLeaves(c.hist, c.ring, Seat(c, x), local, req, key);
      OtherKeyWithin(c, x, e, c.net, key, req.key);
    } else {
      SendsAgainHere(c, x, local, id, p);
      assert Lines.SentAgain(View(c, key), View(React(c, x, e, c.net), key), p, req.version);
    }
  }

  lemma CountingKeepsPends(c: Cluster, x: NodeId, id: ReqId)
    requires x in c.servers && GoodServer(c.hist, c.servers[x]) && id in TableOf(c.servers[x], c.ring.mode)
    ensures var local := LocalOf(c.servers[x], c.ring.mode);
      var entry := local.table[id];
      SamePends(c, x, local.(table := local.table[id := Pending(entry.req, entry.retries + 1)]))
  {
    var local := LocalOf(c.servers[x], c.ring.mode);
    forall k { RetryKeepsPends(c.hist, local.table, id, local.table[id].retries + 1, k); }
    RetryKeepsPends(c.hist, local.table, id, local.table[id].retries + 1, []);
  }

  lemma RetryIsStep(c: Cluster, x: NodeId, id: ReqId, key: Key)
    requires Shape(c) && UniqueIds(c.hist) && Enabled(c, Retry(x, id)) && GoodServer(c.hist, c.servers[x])
    ensures Shape(Apply(c, Retry(x, id)))
    ensures Lines.Step(View(c, key), View(Apply(c, Retry(x, id)), key))
  {
    hide FwdOf, AckOf, CommitsOf, PendOf;
    var local := LocalOf(c.servers[x], c.ring.mode);
    var entry := local.table[id];
    CountingKeepsPends(c, x, id);
    SendsAgain(c, x, local.(table := local.table[id := Pending(entry.req, entry.retries + 1)]), id, key);
  }

  // ---------- a client write ----------

  /** Whoever is the head of the key counts its versions as the history does. */
  ghost predicate HeadKnows(c: Cluster, x: NodeId, key: Key) {
    x in c.servers && Seat(c, x) == c.ring.HeadIndex(key) ==>
      LatestVersion(c.servers[x].store, key) == |Hist(c, key)|
  }

  /** The head's own count of versions agrees with the history. */
  lemma HeadCounts(c: Cluster, x: NodeId, key: Key)
    requires Inv(c) && x in c.ring.members && Seat(c, x) == c.ring.HeadIndex(key)
    ensures LatestVersion(c.servers[x].store, key) == |Hist(c, key)|
  {
    var p := SeatPosition(c, x, key);
    var l := View(c, key);
    assert Lines.Inv(l);
    var s := c.servers[x].store;
    assert l.slots[0].cv == CleanVersion(s, key) && l.slots[0].dirty == DirtyAt(s, key).Keys;
    assert l.latest >= 1 ==> Lines.Holds(l.slots[0], l.latest);
    assert forall v :: v in l.slots[0].dirty ==> v <= l.latest;
  }

  predicate Extends(h: map<Key, seq<Write>>, h': map<Key, seq<Write>>) {
    forall key :: key in h ==> key in h' && h[key] <= h'[key]
  }

  lemma GoodStaysGood(h: map<Key, seq<Write>>, h': map<Key, seq<Write>>, s: Store, table: Table, net: seq<Message>)
    requires Extends(h, h')
    ensures GoodStore(h, s) ==> GoodStore(h', s)
    ensures GoodTable(h, table) ==> GoodTable(h', table)
    ensures GoodNet(h, net) ==> GoodNet(h', net)
  {
  }

  lemma RememberView(c: Cluster, key: Key, w: Write, k: Key)
    requires Shape(c)
    ensures Shape(Remember(c, key, w))
    ensures View(Remember(c, key, w), k) ==
            if k == key then View(c, k).(latest := |Hist(c, k)| + 1) else View(c, k)
  {
    assert View(Remember(c, key, w), k).slots == View(c, k).slots;
  }

  lemma RememberKeepsUnique(c: Cluster, key: Key, w: Write)
    requires UniqueIds(c.hist) && Fresh(c, w.id)
    ensures UniqueIds(Remember(c, key, w).hist) && Extends(c.hist, Remember(c, key, w).hist)
    ensures Issued(Remember(c, key, w).hist, key, |Hist(c, key)| + 1, w)
  {
    var h': map<Key, seq<Write>> := Remember(c, key, w).hist;
    forall k1, v1, k2, v2 |
      k1 in h' && k2 in h' && 0 <= v1 < |h'[k1]| && 0 <= v2 < |h'[k2]| && h'[k1][v1].id == h'[k2][v2].id
      ensures k1 == k2 && v1 == v2
    {
      assert v1 < |Hist(c, k1)| ==> Hist(c, k1)[v1].id != w.id;
      assert v2 < |Hist(c, k2)| ==> Hist(c, k2)[v2].id != w.id;
    }
  }

  lemma NoticeGood(h: map<Key, seq<Write>>, req: PutRequest)
    requires GoodRequest(h, req)
    ensures GoodNet(h, AckFor(req, None)) && forall m :: m in AckFor(req, None) ==> About(m, req.key)
  {
  }

  /** What a client write leaves at the head, in terms of the extended history. */
  lemma ClientWriteLeaves(h: map<Key, seq<Write>>, r: Ring, i: nat, local: Local, req: PutRequest)
    requires UniqueIds(h) && GoodStore(h, local.store) && GoodTable(h, local.table)
    requires GoodRequest(h, req.(version := LatestVersion(local.store, req.key) + 1))
    ensures var e := ClientWrite(r, i, local, req).effect;
      && GoodStore(h, e.local.store) && GoodTable(h, e.local.table) && GoodNet(h, e.out)
      && (forall m :: m in e.out ==> About(m, req.key))
  {
    hide GoodStore, UniqueIds, GoodTable, GoodNet, PutNext, MarkClean, PendOf, LatestVersion, AckFor;
    var v := LatestVersion(local.store, req.key) + 1;
    var req' := req.(version := v);
    assert GoodRecord(h, req.key, Types.Record(v, req.value));
    StoresStayGood(h, local.store, req.key, req.value, v);
    var staged := PutNext(local.store, req.key, req.value);
    StoresStayGood(h, staged, req.key, req.value, v);
    NoticeGood(h, req');
    ForwardLeaves(h, r, i, local.(store := staged), req', req.key);
  }

  lemma StoredNextCore(s: Store, table: Table, key: Key, value: Value, k: Key)
    ensures var before := Core(Local(s, table), k);
            Core(Local(PutNext(s, key, value), table), k) ==
            if k == key then before.(dirty := before.dirty + {LatestVersion(s, key) + 1}) else before
  {
    AddDirtyCore(s, key, Types.Record(LatestVersion(s, key) + 1, value), k);
  }

  lemma LoneWriteCore(r: Ring, i: nat, local: Local, req: PutRequest, key: Key)
    requires Valid(local.store) && |r.members| == 1
    ensures var v := LatestVersion(local.store, req.key) + 1;
            var before := Core(local, key);
            Core(ClientWrite(r, i, local, req).effect.local, key) ==
            if key != req.key then before else Lines.Clean(before.(dirty := before.dirty + {v}), v)
  {
    hide LatestVersion, MarkClean, PendOf, Core;
    var v := LatestVersion(local.store, req.key) + 1;
    var staged := PutNext(local.store, req.key, req.value);
    StoredNextCore(local.store, local.table, req.key, req.value, key);
    OperationsKeepValid(local.store, req.key, req.value, v);
    MarkCleanCore(staged, req.key, v, local.table, key);
  }

  lemma SharedWriteCore(h: map<Key, seq<Write>>, r: Ring, i: nat, local: Local, req: PutRequest, key: Key)
    requires UniqueIds(h) && GoodTable(h, local.table) && |r.members| > 1
    requires GoodRequest(h, req.(version := LatestVersion(local.store, req.key) + 1))
    ensures var v := LatestVersion(local.store, req.key) + 1;
            var before := Core(local, key);
            Core(ClientWrite(r, i, local, req).effect.local, key) ==
            if key != req.key then before else before.(dirty := before.dirty + {v}, pend := before.pend + {v})
  {
    hide LatestVersion, MarkClean, PendOf, UniqueIds, GoodRequest, PutNext;
    var v := LatestVersion(local.store, req.key) + 1;
    var staged := PutNext(local.store, req.key, req.value);
    StoredNextCore(local.store, local.table, req.key, req.value, key);
    ForwardLeaves(h, r, i, local.(store := staged), req.(version := v), key);
  }

  lemma ClientWriteCore(h: map<Key, seq<Write>>, r: Ring, i: nat, local: Local, req: PutRequest, key: Key)
    requires UniqueIds(h) && Valid(local.store) && GoodTable(h, local.table) && r.members != []
    requires GoodRequest(h, req.(version := LatestVersion(local.store, req.key) + 1))
    ensures var v := LatestVersion(local.store, req.key) + 1;
            var before := Core(local, key);
            var dirtied := before.(dirty := before.dirty + {v});
            Core(ClientWrite(r, i, local, req).effect.local, key) ==
            if key != req.key then before
            else if |r.members| == 1 then Lines.Clean(dirtied, v)
            else dirtied.(pend := before.pend + {v})
  {
    if |r.members| == 1 {
      LoneWriteCore(r, i, local, req, key);
    } else {
      SharedWriteCore(h, r, i, local, req, key);
    }
  }

  /** At the head, a client write is the head step of its chain: alone on the ring ... */
  lemma PutReachesLoneHead(c: Cluster, x: NodeId, req: PutRequest)
    requires Shape(c) && |c.ring.members| == 1 && x in c.ring.members && Valid(c.servers[x].store)
    requires LatestVersion(c.servers[x].store, req.key) == |Hist(c, req.key)|
    ensures var e := ClientWrite(c.ring, Seat(c, x), LocalOf(c.servers[x], c.ring.mode), req).effect;
      Shape(React(c, x, e, c.net)) &&
      Lines.Within(View(React(c, x, e, c.net), req.key).(latest := |Hist(c, req.key)| + 1),
                   Lines.Put(View(c, req.key)))
  {
    hide FwdOf, AckOf, CommitsOf, PendOf, Core, View, React, LatestVersion, PutNext, MarkClean;
    SlotCore(c, x, req.key, 0);
    var local := LocalOf(c.servers[x], c.ring.mode);
    var v := LatestVersion(local.store, req.key) + 1;
    var l := View(c, req.key);
    var p := SeatPosition(c, x, req.key);
    LoneWriteCore(c.ring, Seat(c, x), local, req, req.key);
    var e := ClientWrite(c.ring, Seat(c, x), local, req).effect;
    var m := SetCore(l, 0, Core(e.local, req.key));
    assert m.(latest := v).slots == Lines.Assign(l).slots;
    ReactWithin(c, x, e, c.net, req.key, 0);
    EmitCommit(m, c.ring, req.key, req.(version := v));
  }

  /** ... or with others. */
  lemma PutReachesHead(c: Cluster, x: NodeId, req: PutRequest, h: map<Key, seq<Write>>)
    requires Shape(c) && |c.ring.members| > 1 && x in c.ring.members && Seat(c, x) == c.ring.HeadIndex(req.key)
    requires LatestVersion(c.servers[x].store, req.key) == |Hist(c, req.key)|
    requires UniqueIds(h) && GoodTable(h, TableOf(c.servers[x], c.ring.mode))
    requires GoodRequest(h, req.(version := LatestVersion(c.servers[x].store, req.key) + 1))
    ensures var e := ClientWrite(c.ring, Seat(c, x), LocalOf(c.servers[x], c.ring.mode), req).effect;
      Shape(React(c, x, e, c.net)) &&
      Lines.Within(View(React(c, x, e, c.net), req.key).(latest := |Hist(c, req.key)| + 1),
                   Lines.Put(View(c, req.key)))
  {
    hide FwdOf, AckOf, CommitsOf, PendOf, Core, View, React, LatestVersion, PutNext, MarkClean, UniqueIds, GoodTable, GoodRequest;
    var _ := SeatPosition(c, x, req.key);
    SlotCore(c, x, req.key, 0);
    var local := LocalOf(c.servers[x], c.ring.mode);
    var v := LatestVersion(local.store, req.key) + 1;
    var l := View(c, req.key);
    var p := SeatPosition(c, x, req.key);
    SharedWriteCore(h, c.ring, Seat(c, x), local, req, req.key);
    var e := ClientWrite(c.ring, Seat(c, x), local, req).effect;
    var m := SetCore(l, 0, Core(e.local, req.key));
    assert m.(latest := v).slots == Lines.Assign(l).slots;
    ForwardWithin(c, x, local.(store := PutNext(local.store, req.key, req.value)), req.(version := v), c.net, 0);
  }

  /** A client write at a replica that is not the head of the key changes nothing. */
  lemma PutRefused(c: Cluster, x: NodeId, req: PutRequest, key: Key)
    requires Shape(c) && x in c.ring.members && Seat(c, x) != c.ring.HeadIndex(req.key) && req.version == 0
    ensures Shape(TakePut(c, x, req))
    ensures Lines.Within(View(TakePut(c, x, req), key), View(c, key))
  {
    hide FwdOf, AckOf, CommitsOf, PendOf;
    var local := LocalOf(c.servers[x], c.ring.mode);
    var p := SeatPosition(c, x, key);
    SilentWithin(c, x, local, c.net, key, p);
    assert SetCore(View(c, key), p, Core(local, key)).slots == View(c, key).slots;
  }

  /** The state after the head of a key accepted a write. */
  ghost function Accepted(c: Cluster, x: NodeId, req: PutRequest): Cluster
    requires x in c.servers
  {
    var e := ClientWrite(c.ring, Seat(c, x), LocalOf(c.servers[x], c.ring.mode), req).effect;
    Remember(React(c, x, e, c.net), req.key, WriteOf(req))
  }

  lemma TakePutAccepts(c: Cluster, x: NodeId, req: PutRequest)
    requires x in c.servers && c.ring.members != [] && req.version == 0 && req.epoch >= c.ring.epoch
    requires Seat(c, x) == c.ring.HeadIndex(req.key)
    ensures TakePut(c, x, req) == Accepted(c, x, req)
  {
  }

  lemma PutIsStep(c: Cluster, x: NodeId, req: PutRequest, key: Key)
    requires Shape(c) && Genuine(c) && HeadKnows(c, x, req.key) && Enabled(c, ClientPut(x, req))
    ensures Shape(TakePut(c, x, req))
    ensures Lines.Step(View(c, key), View(TakePut(c, x, req), key))
  {
    hide Lines.Put, Lines.Within, View, Genuine, Fresh, HandlePut, Accepted, HeadKnows;
    if req.epoch < c.ring.epoch {
      assert TakePut(c, x, req) == c;
      OnlyLoss(c, c.net, key);
    } else if Seat(c, x) != c.ring.HeadIndex(req.key) {
      PutRefused(c, x, req, key);
    } else {
      TakePutAccepts(c, x, req);
      if key == req.key { AcceptHere(c, x, req); } else { AcceptElsewhere(c, x, req, key); }
    }
  }

  /** Accepting a write, seen from its own key's chain ... */
  lemma AcceptHere(c: Cluster, x: NodeId, req: PutRequest)
    requires Shape(c) && Genuine(c) && HeadKnows(c, x, req.key)
    requires Enabled(c, ClientPut(x, req)) && Seat(c, x) == c.ring.HeadIndex(req.key)
    ensures var c' := Accepted(c, x, req);
      Shape(c') && Lines.Within(View(c', req.key), Lines.Put(View(c, req.key)))
  {
    hide FwdOf, AckOf, CommitsOf, PendOf;
    var local := LocalOf(c.servers[x], c.ring.mode);
    var w := WriteOf(req);
    var h := Remember(c, req.key, w).hist;
    RememberKeepsUnique(c, req.key, w);
    assert GoodServer(c.hist, c.servers[x]);
    GoodStaysGood(c.hist, h, local.store, local.table, c.net);
    if |c.ring.members| == 1 {
      PutReachesLoneHead(c, x, req);
    } else {
      PutReachesHead(c, x, req, h);
    }
    var e := ClientWrite(c.ring, Seat(c, x), local, req).effect;
    RememberView(React(c, x, e, c.net), req.key, w, req.key);
  }

  /** ... and from the chain of another key. */
  lemma AcceptElsewhere(c: Cluster, x: NodeId, req: PutRequest, key: Key)
    requires Shape(c) && Genuine(c) && HeadKnows(c, x, req.key)
    requires Enabled(c, ClientPut(x, req)) && Seat(c, x) == c.ring.HeadIndex(req.key) && key != req.key
    ensures var c' := Accepted(c, x, req);
      Shape(c') && Lines.Within(View(c', key), View(c, key))
  {
    hide FwdOf, AckOf, CommitsOf, PendOf;
    var local := LocalOf(c.servers[x], c.ring.mode);
    var w := WriteOf(req);
    var h := Remember(c, req.key, w).hist;
    var e := ClientWrite(c.ring, Seat(c, x), local, req).effect;
    RememberKeepsUnique(c, req.key, w);
    assert GoodServer(c.hist, c.servers[x]);
    GoodStaysGood(c.hist, h, local.store, local.table, c.net);
    ClientWriteLeaves(h, c.ring, Seat(c, x), local, req);
    ClientWriteCore(h, c.ring, Seat(c, x), local, req, key);
    OtherKeyWithin(c, x, e, c.net, key, req.key);
    RememberView(React(c, x, e, c.net), req.key, w, key);
  }
}
