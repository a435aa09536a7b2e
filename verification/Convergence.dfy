/** Without loss, in all three modes: nothing pending is ever forgotten, not even when a member fails and is taken out
    while writes are in flight; and when nothing is left to deliver all replicas are identical. What can stay behind is an
    old entry at a replica that a reconfiguration makes the tail of its key; exactly when it does is part of the theorem. */
module Convergence {
  import opened Types
  import opened Rings
  import opened Stores
  import opened Handlers
  import opened Clusters
  import opened Views
  import opened Simulation
  import opened Steps
  import opened Invariants
  import opened Members
  import opened AllModes
  import opened Switching
  import opened Removals
  import opened Runs
  import opened Reads
  import opened Termination
  import ChainLines
  import Lines

  function TableAt(c: Cluster, x: NodeId): Table
    requires x in c.servers
  {
    TableOf(c.servers[x], c.ring.mode)
  }

  /** The key of a pending write. */
  function KeyAt(c: Cluster, x: NodeId, id: ReqId): Key
    requires x in c.servers && id in TableAt(c, x)
  {
    TableAt(c, x)[id].req.key
  }

  /** The next member on the ring. */
  function After(r: Ring, x: NodeId): NodeId
    requires r.members != []
  {
    r.members[r.NextIndex(SeatOf(r.members, x))]
  }

  /** The server takes the tail's seat for the key. */
  predicate AtTail(r: Ring, x: NodeId, key: Key) {
    SeatOf(r.members, x) == r.TailIndex(key)
  }

  /** The write is on its way to y, and will not be refused for its epoch. */
  ghost predicate SentTo(net: seq<Message>, epoch: nat, y: NodeId, id: ReqId) {
    exists m :: m in net && m.ForwardPut? && m.to == y && m.req.id == id && m.req.epoch == epoch
  }

  ghost predicate AckedTo(net: seq<Message>, x: NodeId, id: ReqId) {
    exists m :: m in net && m.WriteAck? && m.to == x && m.id == id
  }

  /** The write is pending at y, and y is not the tail of its key. */
  predicate WaitsAt(c: Cluster, y: NodeId, id: ReqId) {
    y in c.servers && id in TableAt(c, y) && !AtTail(c.ring, y, KeyAt(c, y, id))
  }

  ghost predicate OnItsWay(c: Cluster, net: seq<Message>, x: NodeId, id: ReqId)
    requires c.ring.members != []
  {
    var y := After(c.ring, x);
    SentTo(net, c.ring.epoch, y, id) || WaitsAt(c, y, id) || AckedTo(net, x, id)
  }

  /** No message is from a later epoch, and forwarded writes of this epoch go to members. */
  predicate Deliverable(r: Ring, m: Message) {
    m.ForwardPut? ==> m.req.epoch <= r.epoch && (m.req.epoch == r.epoch ==> m.to in r.members)
  }

  ghost predicate AllDeliverable(r: Ring, net: seq<Message>) {
    forall m :: m in net ==> Deliverable(r, m)
  }

  /** A write pending anywhere but at the tail of its key is on its way to the next member, or pending there, or its
      acknowledgement is on its way back. */
  ghost predicate AllCarried(c: Cluster)
    requires Shape(c)
  {
    forall x, id :: x in c.ring.members && WaitsAt(c, x, id) ==> OnItsWay(c, c.net, x, id)
  }

  ghost predicate Live(c: Cluster) {
    Shape(c) && AllDeliverable(c.ring, c.net) && AllCarried(c)
  }

  /** On this ring: whatever a member has pending for a key whose tail it is, an old acknowledgement for it is still in
      flight. Nobody acknowledges such an entry any more: the write goes around the ring, and its acknowledgements end at
      the head. */
  ghost predicate TailsAnswered(c: Cluster, ring: Ring) {
    forall x, id :: x in ring.members && x in c.servers && LeftAt(c.servers[x], ring, x, id) ==> AckedTo(c.net, x, id)
  }

  /** The server has a write pending for a key whose tail it is on this ring. */
  predicate LeftAt(s: Server, ring: Ring, x: NodeId, id: ReqId) {
    id in TableOf(s, ring.mode) && AtTail(ring, x, TableOf(s, ring.mode)[id].req.key)
  }

  // ---------- what keeps pending writes carried ----------

  lemma AfterIsNext(c: Cluster, x: NodeId)
    requires Shape(c) && x in c.ring.members && |c.ring.members| > 1
    ensures var y := After(c.ring, x);
      && y in c.ring.members && y != x && Next(c.ring, Seat(c, x)) == Some(y)
      && Prev(c.ring, Seat(c, y)) == Some(x)
  {
    var i := Seat(c, x);
    ModOnce(i + 1, |c.ring.members|);
    var j := c.ring.NextIndex(i);
    SeatUnique(c.ring, j);
    ModOnce(j + |c.ring.members| - 1, |c.ring.members|);
  }

  lemma LoneIsTail(r: Ring, x: NodeId, key: Key)
    requires |r.members| == 1
    ensures AtTail(r, x, key)
  {
  }

  /** What server x owes its predecessor after a reaction to the messages `gone`: whatever that one relies on it for is
      pending at x, or acknowledged. */
  ghost predicate Answers(c: Cluster, x: NodeId, e: Effect, gone: set<Message>)
    requires Shape(c) && x in c.ring.members
  {
    forall z, id :: z in c.ring.members && z != x && After(c.ring, z) == x && WaitsAt(c, z, id) ==>
      (WaitsAt(c, x, id) || Brings(gone, id) ==> Waits(c.ring, x, e.local.table, id) || AckedTo(e.out, z, id))
  }

  predicate Waits(r: Ring, x: NodeId, table: Table, id: ReqId) {
    id in table && !AtTail(r, x, table[id].req.key)
  }

  ghost predicate Brings(messages: set<Message>, id: ReqId) {
    exists m :: m in messages && m.ForwardPut? && m.req.id == id
  }

  /** What x itself has pending after the reaction is carried. */
  ghost predicate Carries(c: Cluster, x: NodeId, e: Effect, rest: seq<Message>)
    requires Shape(c) && x in c.ring.members
  {
    forall id :: Waits(c.ring, x, e.local.table, id) ==> OnItsWay(c, rest + e.out, x, id)
  }

  /** Entries at tails: the reaction adds none, takes one out only for its acknowledgement, and sends none of them an
      acknowledgement. */
  ghost predicate TailsKept(c: Cluster, x: NodeId, e: Effect, gone: set<Message>)
    requires Shape(c) && x in c.ring.members
  {
    && (forall id :: id in e.local.table && AtTail(c.ring, x, e.local.table[id].req.key) ==>
          LeftAt(c.servers[x], c.ring, x, id) && !Acks(gone, id))
    && (forall id :: LeftAt(c.servers[x], c.ring, x, id) && !Acks(gone, id) ==>
          id in e.local.table && AtTail(c.ring, x, e.local.table[id].req.key))
    && (forall m :: m in e.out && m.WriteAck? && m.to in c.ring.members ==> !LeftAt(c.servers[m.to], c.ring, m.to, m.id))
  }

  ghost predicate Acks(messages: set<Message>, id: ReqId) {
    exists m :: m in messages && m.WriteAck? && m.id == id
  }

  lemma SentStays(a: seq<Message>, b: seq<Message>, epoch: nat, y: NodeId, id: ReqId)
    ensures SentTo(a, epoch, y, id) || SentTo(b, epoch, y, id) ==> SentTo(a + b, epoch, y, id)
    ensures AckedTo(a, y, id) || AckedTo(b, y, id) ==> AckedTo(a + b, y, id)
  {
    if SentTo(a, epoch, y, id) || SentTo(b, epoch, y, id) {
      var m :| (m in a || m in b) && m.ForwardPut? && m.to == y && m.req.id == id && m.req.epoch == epoch;
      assert m in a + b;
    }
    if AckedTo(a, y, id) || AckedTo(b, y, id) {
      var m :| (m in a || m in b) && m.WriteAck? && m.to == y && m.id == id;
      assert m in a + b;
    }
  }

  lemma TableAfterReact(c: Cluster, x: NodeId, e: Effect, rest: seq<Message>, z: NodeId)
    requires x in c.servers && z in c.servers
    ensures TableAt(React(c, x, e, rest), z) == if z == x then e.local.table else TableAt(c, z)
  {
  }

  /** The messages a reaction takes from the network: at most the one delivered to x, which is no notice. */
  ghost predicate Taken(c: Cluster, x: NodeId, rest: seq<Message>, gone: set<Message>) {
    && (forall m :: m in c.net ==> m in rest || m in gone)
    && (forall m :: m in rest ==> m in c.net)
    && (forall m :: m in gone ==> m in c.net && !m.CommitAck? && m.to == x)
  }

  /** A pending write of another server stays carried. */
  lemma OthersStayCarried(c: Cluster, x: NodeId, e: Effect, rest: seq<Message>, gone: set<Message>, z: NodeId, id: ReqId)
    requires Live(c) && x in c.ring.members && Taken(c, x, rest, gone) && Answers(c, x, e, gone)
    requires z in c.ring.members && z != x && WaitsAt(c, z, id)
    ensures var d := React(c, x, e, rest); OnItsWay(d, d.net, z, id)
  {
    hide View;
    var d := React(c, x, e, rest);
    var y := After(c.ring, z);
    if |c.ring.members| == 1 { LoneIsTail(c.ring, z, KeyAt(c, z, id)); }
    AfterIsNext(c, z);
    TableAfterReact(c, x, e, rest, y);
    assert OnItsWay(c, c.net, z, id);
    SentStays(rest, e.out, c.ring.epoch, y, id);
    SentStays(rest, e.out, c.ring.epoch, z, id);
    if SentTo(c.net, c.ring.epoch, y, id) {
      var m :| m in c.net && m.ForwardPut? && m.to == y && m.req.id == id && m.req.epoch == c.ring.epoch;
      if m in rest { assert SentTo(rest, c.ring.epoch, y, id); }
    } else if AckedTo(c.net, z, id) {
      var m :| m in c.net && m.WriteAck? && m.to == z && m.id == id;
      assert m in rest;
      assert AckedTo(rest, z, id);
    }
  }

  lemma OwnIsCarried(c: Cluster, x: NodeId, e: Effect, rest: seq<Message>, id: ReqId)
    requires Shape(c) && x in c.ring.members && Carries(c, x, e, rest) && Waits(c.ring, x, e.local.table, id)
    ensures var d := React(c, x, e, rest); OnItsWay(d, d.net, x, id)
  {
    if |c.ring.members| == 1 { LoneIsTail(c.ring, x, e.local.table[id].req.key); }
    AfterIsNext(c, x);
    TableAfterReact(c, x, e, rest, After(c.ring, x));
  }

  lemma ReactKeepsLive(c: Cluster, x: NodeId, e: Effect, rest: seq<Message>, gone: set<Message>)
    requires Live(c) && x in c.ring.members && Taken(c, x, rest, gone)
    requires Answers(c, x, e, gone) && Carries(c, x, e, rest) && AllDeliverable(c.ring, e.out)
    ensures Live(React(c, x, e, rest))
  {
    hide Answers, Carries, View, Deliverable, OnItsWay;
    var d := React(c, x, e, rest);
    forall z, id | z in d.ring.members && WaitsAt(d, z, id) ensures OnItsWay(d, d.net, z, id) {
      TableAfterReact(c, x, e, rest, z);
      if z == x {
        OwnIsCarried(c, x, e, rest, id);
      } else {
        OthersStayCarried(c, x, e, rest, gone, z, id);
      }
    }
  }

  /** A reaction neither clears nor creates an entry at a tail that nobody acknowledges. */
  lemma ReactKeepsTails(c: Cluster, x: NodeId, e: Effect, rest: seq<Message>, gone: set<Message>)
    requires Shape(c) && x in c.ring.members && Taken(c, x, rest, gone) && TailsKept(c, x, e, gone)
    ensures TailsAnswered(React(c, x, e, rest), c.ring) <==> TailsAnswered(c, c.ring)
  {
    hide AtTail;
    var d := React(c, x, e, rest);
    if TailsAnswered(c, c.ring) {
      forall z, id | z in c.ring.members && LeftAt(d.servers[z], c.ring, z, id) ensures AckedTo(d.net, z, id) {
        TableAfterReact(c, x, e, rest, z);
        assert LeftAt(c.servers[z], c.ring, z, id);
        var m :| m in c.net && m.WriteAck? && m.to == z && m.id == id;
        assert m !in gone;
        assert m in d.net;
      }
    }
    if TailsAnswered(d, c.ring) {
      forall z, id | z in c.ring.members && LeftAt(c.servers[z], c.ring, z, id) ensures AckedTo(c.net, z, id) {
        TableAfterReact(c, x, e, rest, z);
        if z == x && Acks(gone, id) {
          var m :| m in gone && m.WriteAck? && m.id == id;
          assert m in c.net;
        } else {
          assert LeftAt(d.servers[z], c.ring, z, id);
          var m :| m in d.net && m.WriteAck? && m.to == z && m.id == id;
          assert m !in e.out;
          assert m in c.net;
        }
      }
    }
  }

  // ---------- the actions ----------

  /** An old entry of x is still carried when only messages to x are gone and its acknowledgement is not. */
  lemma KeptIsCarried(c: Cluster, x: NodeId, id: ReqId, rest: seq<Message>, out: seq<Message>, gone: set<Message>)
    requires Live(c) && x in c.ring.members && WaitsAt(c, x, id) && Taken(c, x, rest, gone) && !Acks(gone, id)
    ensures OnItsWay(c, rest + out, x, id)
  {
    hide View;
    if |c.ring.members| == 1 { LoneIsTail(c.ring, x, KeyAt(c, x, id)); }
    AfterIsNext(c, x);
    assert OnItsWay(c, c.net, x, id);
    var y := After(c.ring, x);
    if SentTo(c.net, c.ring.epoch, y, id) {
      var m :| m in c.net && m.ForwardPut? && m.to == y && m.req.id == id && m.req.epoch == c.ring.epoch;
      assert m in rest;
      assert SentTo(rest, c.ring.epoch, y, id);
    } else if AckedTo(c.net, x, id) {
      var m :| m in c.net && m.WriteAck? && m.to == x && m.id == id;
      assert m in rest;
      assert AckedTo(rest, x, id);
    }
    SentStays(rest, out, c.ring.epoch, y, id);
    SentStays(rest, out, c.ring.epoch, x, id);
  }

  /** The table is the one x has, up to retry counts, and a write filed in it under this id is of the same key. */
  ghost predicate SameFiles(c: Cluster, x: NodeId, table: Table, req: PutRequest)
    requires x in c.servers
  {
    && table.Keys == TableAt(c, x).Keys
    && (forall id :: id in table ==> table[id].req == TableAt(c, x)[id].req)
    && (req.id in table ==> table[req.id].req.key == req.key)
  }

  ghost predicate OnlyBrings(gone: set<Message>, id: ReqId) {
    forall m :: m in gone ==> m.ForwardPut? && m.req.id == id
  }

  /** Sending a write on: the new entry is carried by the copy just sent. */
  lemma ForwardCarries(c: Cluster, x: NodeId, local: Local, req: PutRequest, rest: seq<Message>, gone: set<Message>)
    requires Live(c) && x in c.ring.members && Taken(c, x, rest, gone) && OnlyBrings(gone, req.id)
    requires SameFiles(c, x, local.table, req) && (AtTail(c.ring, x, req.key) ==> gone == {} && req.id in local.table)
    ensures var e := Forward(c.ring, Seat(c, x), local, req);
      Answers(c, x, e, gone) && Carries(c, x, e, rest) && AllDeliverable(c.ring, e.out)
  {
    hide View, OnItsWay, AllCarried;
    var e := Forward(c.ring, Seat(c, x), local, req);
    if |c.ring.members| == 1 {
      forall key ensures AtTail(c.ring, x, key) { LoneIsTail(c.ring, x, key); }
    } else {
      AfterIsNext(c, x);
      var m := ForwardPut(After(c.ring, x), req.(epoch := c.ring.epoch));
      assert e.out == [m];
      assert m in e.out;
      forall id | Waits(c.ring, x, e.local.table, id) ensures OnItsWay(c, rest + e.out, x, id) {
        if id == req.id {
          SentStays(rest, e.out, c.ring.epoch, After(c.ring, x), id);
          SentIsOnItsWay(c, rest + e.out, x, id);
        } else {
          KeptIsCarried(c, x, id, rest, e.out, gone);
        }
      }
    }
  }

  lemma SentIsOnItsWay(c: Cluster, net: seq<Message>, x: NodeId, id: ReqId)
    requires c.ring.members != [] && SentTo(net, c.ring.epoch, After(c.ring, x), id)
    ensures OnItsWay(c, net, x, id)
  {
  }

  lemma ForwardKeepsTails(c: Cluster, x: NodeId, local: Local, req: PutRequest, gone: set<Message>)
    requires Shape(c) && x in c.ring.members && OnlyBrings(gone, req.id)
    requires SameFiles(c, x, local.table, req) && (AtTail(c.ring, x, req.key) ==> req.id in local.table)
    ensures TailsKept(c, x, Forward(c.ring, Seat(c, x), local, req), gone)
  {
    hide AtTail;
  }

  lemma PredecessorIsUnique(c: Cluster, x: NodeId, z: NodeId)
    requires Shape(c) && |c.ring.members| > 1 && x in c.ring.members && z in c.ring.members && After(c.ring, z) == x
    ensures Prev(c.ring, Seat(c, x)) == Some(z)
  {
    AfterIsNext(c, z);
  }

  /** The member before x, seen from x. */
  lemma BeforeIsPrev(c: Cluster, x: NodeId)
    requires Shape(c) && |c.ring.members| > 1 && x in c.ring.members
    ensures var z := Prev(c.ring, Seat(c, x));
      z.Some? && z.value in c.ring.members && z.value != x && After(c.ring, z.value) == x
  {
    var i := Seat(c, x);
    ModOnce(i + |c.ring.members| - 1, |c.ring.members|);
    var j := c.ring.PrevIndex(i);
    SeatUnique(c.ring, j);
    ModOnce(j + 1, |c.ring.members|);
  }

  /** At the tail, the write is acknowledged to the predecessor. */
  lemma TailCarries(c: Cluster, x: NodeId, local: Local, req: PutRequest, rest: seq<Message>, gone: set<Message>)
    requires Live(c) && x in c.ring.members && Taken(c, x, rest, gone) && OnlyBrings(gone, req.id)
    requires local.table == TableAt(c, x)
    ensures var e := Effect(local, TailOut(c.ring, Seat(c, x), req));
      Answers(c, x, e, gone) && Carries(c, x, e, rest) && AllDeliverable(c.ring, e.out)
  {
    hide View, OnItsWay, TailOut, AllCarried;
    var e := Effect(local, TailOut(c.ring, Seat(c, x), req));
    TailSends(c, x, req);
    forall id | Waits(c.ring, x, e.local.table, id) ensures OnItsWay(c, rest + e.out, x, id) {
      KeptIsCarried(c, x, id, rest, e.out, gone);
    }
    forall z, id | z in c.ring.members && z != x && After(c.ring, z) == x && id == req.id ensures AckedTo(e.out, z, id) {
      PredecessorIsUnique(c, x, z);
    }
  }

  lemma TailSends(c: Cluster, x: NodeId, req: PutRequest)
    requires Shape(c) && x in c.ring.members
    ensures AllDeliverable(c.ring, TailOut(c.ring, Seat(c, x), req))
    ensures |c.ring.members| > 1 ==> Prev(c.ring, Seat(c, x)).Some?
    ensures |c.ring.members| > 1 ==> AckedTo(TailOut(c.ring, Seat(c, x), req), Prev(c.ring, Seat(c, x)).value, req.id)
    ensures forall m :: m in TailOut(c.ring, Seat(c, x), req) && m.WriteAck? ==>
              |c.ring.members| > 1 && m.to == Prev(c.ring, Seat(c, x)).value && m.id == req.id
  {
    if |c.ring.members| > 1 {
      var z := Prev(c.ring, Seat(c, x)).value;
      assert c.ring.PrevIndex(Seat(c, x)) < |c.ring.members|;
      assert WriteAck(z, req.id, req.key, req.version, req.epoch) in TailOut(c.ring, Seat(c, x), req);
    }
  }

  /** The predecessor of the tail is not the tail. */
  lemma TailKeepsTails(c: Cluster, x: NodeId, local: Local, req: PutRequest, gone: set<Message>)
    requires Shape(c) && Genuine(c) && x in c.ring.members && OnlyBrings(gone, req.id)
    requires local.table == TableAt(c, x) && AtTail(c.ring, x, req.key) && GoodRequest(c.hist, req)
    ensures TailsKept(c, x, Effect(local, TailOut(c.ring, Seat(c, x), req)), gone)
  {
    hide View, TailOut, Genuine;
    TailSends(c, x, req);
    if |c.ring.members| > 1 {
      BeforeIsPrev(c, x);
      var z := Prev(c.ring, Seat(c, x)).value;
      if req.id in TableAt(c, z) { FiledHere(c, z, req); }
    }
  }

  lemma FiledHere(c: Cluster, x: NodeId, req: PutRequest)
    requires Genuine(c) && x in c.servers && GoodRequest(c.hist, req) && req.id in TableAt(c, x)
    ensures KeyAt(c, x, req.id) == req.key
  {
    assert GoodServer(c.hist, c.servers[x]);
    FiledBefore(c.hist, TableAt(c, x), req);
  }

  lemma DeliveredIsWrite(c: Cluster, m: Message)
    requires Genuine(c) && m in c.net && m.ForwardPut?
    ensures m.req.version > 0 && GoodRequest(c.hist, m.req)
  {
    assert GoodMessage(c.hist, m);
  }

  lemma OneTaken(c: Cluster, i: nat)
    requires i < |c.net| && !c.net[i].CommitAck?
    ensures Taken(c, c.net[i].to, RemoveAt(c.net, i), {c.net[i]})
  {
  }

  lemma NoneTaken(c: Cluster, x: NodeId)
    ensures Taken(c, x, c.net, {})
  {
  }

  lemma ForwardDeliveryKeepsLive(c: Cluster, i: nat)
    requires Genuine(c) && Live(c) && Enabled(c, Deliver(i)) && c.net[i].ForwardPut? && c.net[i].req.epoch >= c.ring.epoch
    ensures Live(Receive(c, i))
    ensures TailsAnswered(Receive(c, i), c.ring) <==> TailsAnswered(c, c.ring)
  {
    hide Genuine, View, TailOut, AllCarried, Answers, Carries, StoreForwarded, CommitForwarded, TailsKept;
    hide TailsAnswered, Taken;
    var m := c.net[i];
    var x, req := m.to, m.req;
    var rest := RemoveAt(c.net, i);
    assert m in c.net && Deliverable(c.ring, m);
    DeliveredIsWrite(c, m);
    OneTaken(c, i);
    var local := LocalOf(c.servers[x], c.ring.mode);
    if req.id in local.table { FiledHere(c, x, req); }
    if AtTail(c.ring, x, req.key) {
      var committed := local.(store := CommitForwarded(c.ring.mode, local.store, req));
      TailCarries(c, x, committed, req, rest, {m});
      TailKeepsTails(c, x, committed, req, {m});
    } else {
      var staged := local.(store := StoreForwarded(c.ring.mode, local.store, req));
      ForwardCarries(c, x, staged, req, rest, {m});
      ForwardKeepsTails(c, x, staged, req, {m});
    }
    ReactKeepsLive(c, x, ForwardedWrite(c.ring, Seat(c, x), local, req), rest, {m});
    ReactKeepsTails(c, x, ForwardedWrite(c.ring, Seat(c, x), local, req), rest, {m});
  }

  /** An acknowledgement takes the entry out and goes on to the predecessor, if there is one. */
  lemma AckDeliveryKeepsLive(c: Cluster, i: nat)
    requires Genuine(c) && Live(c) && Enabled(c, Deliver(i)) && c.net[i].WriteAck?
    ensures Live(Receive(c, i))
    ensures TailsAnswered(Receive(c, i), c.ring) <==> TailsAnswered(c, c.ring)
  {
    hide Genuine, View, AllCarried, MarkClean, TailsAnswered, Taken, AtTail;
    var m := c.net[i];
    var x := m.to;
    OneTaken(c, i);
    AckCarries(c, x, m.id, RemoveAt(c.net, i), {m});
    AckKeepsTails(c, x, m.id, {m});
    var e := HandleAck(c.ring, Seat(c, x), LocalOf(c.servers[x], c.ring.mode), m.id);
    hide HandleAck, Answers, Carries, TailsKept;
    ReactKeepsLive(c, x, e, RemoveAt(c.net, i), {m});
    ReactKeepsTails(c, x, e, RemoveAt(c.net, i), {m});
  }

  lemma AckCarries(c: Cluster, x: NodeId, id: ReqId, rest: seq<Message>, gone: set<Message>)
    requires Genuine(c) && Live(c) && x in c.ring.members && Taken(c, x, rest, gone)
    requires forall m :: m in gone ==> m.WriteAck? && m.id == id
    ensures var e := HandleAck(c.ring, Seat(c, x), LocalOf(c.servers[x], c.ring.mode), id);
      Answers(c, x, e, gone) && Carries(c, x, e, rest) && AllDeliverable(c.ring, e.out)
  {
    hide Genuine, View, OnItsWay, AllCarried, MarkClean, AtTail, Taken;
    var e := HandleAck(c.ring, Seat(c, x), LocalOf(c.servers[x], c.ring.mode), id);
    forall j | Waits(c.ring, x, e.local.table, j) ensures OnItsWay(c, rest + e.out, x, j) {
      KeptIsCarried(c, x, j, rest, e.out, gone);
    }
    forall z, j | z in c.ring.members && z != x && After(c.ring, z) == x && WaitsAt(c, z, j) && WaitsAt(c, x, j)
      ensures Waits(c.ring, x, e.local.table, j) || AckedTo(e.out, z, j)
    {
      if j == id { AckGoesOn(c, x, z, id); }
    }
  }

  lemma AckGoesOn(c: Cluster, x: NodeId, z: NodeId, id: ReqId)
    requires Genuine(c) && Shape(c) && x in c.ring.members && z in c.ring.members && z != x && After(c.ring, z) == x
    requires WaitsAt(c, z, id) && id in TableAt(c, x)
    ensures AckedTo(HandleAck(c.ring, Seat(c, x), LocalOf(c.servers[x], c.ring.mode), id).out, z, id)
  {
    hide View, MarkClean, Genuine;
    var req := TableAt(c, x)[id].req;
    SameWrite(c, x, z, id);
    if |c.ring.members| == 1 { LoneIsTail(c.ring, z, req.key); }
    PredecessorIsUnique(c, x, z);
    TailBeforeHead(c, z, req.key);
    var m := WriteAck(z, req.id, req.key, req.version, req.epoch);
    assert m in HandleAck(c.ring, Seat(c, x), LocalOf(c.servers[x], c.ring.mode), id).out;
  }

  /** Entries under one id are one write, wherever they are pending. */
  lemma SameWrite(c: Cluster, x: NodeId, z: NodeId, id: ReqId)
    requires Genuine(c) && x in c.servers && z in c.servers && id in TableAt(c, x) && id in TableAt(c, z)
    ensures KeyAt(c, x, id) == KeyAt(c, z, id) && TableAt(c, x)[id].req.id == id
  {
    hide View, Lines.Inv;
    assert GoodServer(c.hist, c.servers[x]) && GoodServer(c.hist, c.servers[z]);
    FiledBefore(c.hist, TableAt(c, x), TableAt(c, z)[id].req);
  }

  /** The member before the head of a key is its tail. */
  lemma TailBeforeHead(c: Cluster, z: NodeId, key: Key)
    requires Shape(c) && |c.ring.members| > 1 && z in c.ring.members
    ensures Seat(c, After(c.ring, z)) == c.ring.HeadIndex(key) <==> AtTail(c.ring, z, key)
    ensures !AtTail(c.ring, z, key) ==>
              c.ring.PosOf(key, Seat(c, After(c.ring, z))) == c.ring.PosOf(key, Seat(c, z)) + 1
  {
    var i := Seat(c, z);
    Positions(c.ring, key, i);
    Neighbours(c.ring, key, i);
    SeatUnique(c.ring, c.ring.NextIndex(i));
    Positions(c.ring, key, c.ring.NextIndex(i));
  }

  /** An acknowledgement is not passed on from the head, so it never goes on to a tail. */
  lemma AckKeepsTails(c: Cluster, x: NodeId, id: ReqId, gone: set<Message>)
    requires Shape(c) && Genuine(c) && x in c.ring.members
    requires Acks(gone, id) && forall m :: m in gone ==> m.WriteAck? && m.id == id
    ensures TailsKept(c, x, HandleAck(c.ring, Seat(c, x), LocalOf(c.servers[x], c.ring.mode), id), gone)
  {
    hide View, MarkClean, Genuine, AtTail;
    var e := HandleAck(c.ring, Seat(c, x), LocalOf(c.servers[x], c.ring.mode), id);
    forall m | m in e.out && m.WriteAck? && m.to in c.ring.members ensures !LeftAt(c.servers[m.to], c.ring, m.to, m.id) {
      if |c.ring.members| > 1 && m.id in TableAt(c, m.to) {
        BeforeIsPrev(c, x);
        SameWrite(c, x, x, id);
        SameWrite(c, x, m.to, id);
        TailBeforeHead(c, m.to, KeyAt(c, x, id));
      }
    }
  }

  lemma RetryKeepsLive(c: Cluster, x: NodeId, id: ReqId)
    requires Genuine(c) && Live(c) && Enabled(c, Retry(x, id))
    ensures Live(Apply(c, Retry(x, id)))
    ensures TailsAnswered(Apply(c, Retry(x, id)), c.ring) <==> TailsAnswered(c, c.ring)
  {
    hide View, Answers, Carries, TakePut, Receive, ReforwardAll, Install, Fresh, Forward, TailsKept, TailsAnswered, Taken;
    var local := LocalOf(c.servers[x], c.ring.mode);
    var entry := local.table[id];
    SameWrite(c, x, x, id);
    hide Genuine, AllCarried;
    var counted := local.(table := local.table[id := Pending(entry.req, entry.retries + 1)]);
    NoneTaken(c, x);
    ForwardCarries(c, x, counted, entry.req, c.net, {});
    ForwardKeepsTails(c, x, counted, entry.req, {});
    ReactKeepsLive(c, x, Forward(c.ring, Seat(c, x), counted, entry.req), c.net, {});
    ReactKeepsTails(c, x, Forward(c.ring, Seat(c, x), counted, entry.req), c.net, {});
  }

  lemma FiledIsAccepted(c: Cluster, x: NodeId, id: ReqId)
    requires Genuine(c) && x in c.servers && id in TableAt(c, x)
    ensures var req := TableAt(c, x)[id].req;
      1 <= req.version <= |Hist(c, req.key)| && Hist(c, req.key)[req.version - 1].id == id
  {
    assert GoodServer(c.hist, c.servers[x]);
  }

  lemma FreshIsNew(c: Cluster, x: NodeId, id: ReqId)
    requires Genuine(c) && Fresh(c, id) && x in c.servers
    ensures id !in TableAt(c, x)
  {
    hide Genuine;
    forall j | j in TableAt(c, x) ensures j != id { FiledIsAccepted(c, x, j); }
  }

  lemma ClientWriteKeepsLive(c: Cluster, x: NodeId, req: PutRequest)
    requires Genuine(c) && Live(c) && Enabled(c, ClientPut(x, req)) && Seat(c, x) == c.ring.HeadIndex(req.key)
    ensures Live(Accepted(c, x, req))
    ensures TailsAnswered(Accepted(c, x, req), c.ring) <==> TailsAnswered(c, c.ring)
  {
    hide Genuine, View, Answers, Carries, PutNext, MarkClean, Fresh, AllCarried, TailsKept, TailsAnswered, Taken;
    var local := LocalOf(c.servers[x], c.ring.mode);
    var v := LatestVersion(local.store, req.key) + 1;
    var staged := local.(store := PutNext(local.store, req.key, req.value));
    var e := ClientWrite(c.ring, Seat(c, x), local, req).effect;
    FreshIsNew(c, x, req.id);
    NoneTaken(c, x);
    if |c.ring.members| == 1 {
      LoneCarries(c, x, e);
    } else {
      Positions(c.ring, req.key, Seat(c, x));
      ForwardCarries(c, x, staged, req.(version := v), c.net, {});
      ForwardKeepsTails(c, x, staged, req.(version := v), {});
    }
    ReactKeepsLive(c, x, e, c.net, {});
    ReactKeepsTails(c, x, e, c.net, {});
    RememberKeepsLive(React(c, x, e, c.net), req.key, WriteOf(req));
  }

  lemma LoneCarries(c: Cluster, x: NodeId, e: Effect)
    requires Shape(c) && x in c.ring.members && |c.ring.members| == 1
    requires e.local.table == TableAt(c, x) && forall m :: m in e.out ==> m.CommitAck?
    ensures Answers(c, x, e, {}) && Carries(c, x, e, c.net) && AllDeliverable(c.ring, e.out) && TailsKept(c, x, e, {})
  {
    forall key ensures AtTail(c.ring, x, key) { LoneIsTail(c.ring, x, key); }
    hide AtTail;
  }

  lemma RememberKeepsLive(c: Cluster, key: Key, w: Write)
    requires Live(c)
    ensures Live(Remember(c, key, w))
    ensures TailsAnswered(Remember(c, key, w), c.ring) <==> TailsAnswered(c, c.ring)
  {
    hide View;
    var d := Remember(c, key, w);
    SameServers(c, d);
  }

  /** Tables and messages decide, and nothing else. */
  lemma SameServers(c: Cluster, d: Cluster)
    requires Live(c) && d.ring == c.ring && d.net == c.net && d.servers.Keys == c.servers.Keys
    requires forall x :: x in c.servers ==> d.servers[x].tables == c.servers[x].tables
    ensures Live(d)
    ensures TailsAnswered(d, c.ring) <==> TailsAnswered(c, c.ring)
  {
    hide View, AtTail;
    forall x, id | x in d.ring.members && WaitsAt(d, x, id) ensures OnItsWay(d, d.net, x, id) {
      assert WaitsAt(c, x, id);
      assert OnItsWay(c, c.net, x, id);
    }
    forall x, id | x in c.servers ensures LeftAt(d.servers[x], c.ring, x, id) <==> LeftAt(c.servers[x], c.ring, x, id) { }
  }

  /** Messages that carry nothing may go: commit notices, and forwarded writes of an older epoch. */
  lemma NetKeepsLive(c: Cluster, net: seq<Message>)
    requires Live(c)
    requires forall m :: m in net ==> m in c.net
    requires forall m :: m in c.net && (m.WriteAck? || (m.ForwardPut? && m.req.epoch == c.ring.epoch)) ==> m in net
    ensures Live(c.(net := net))
    ensures TailsAnswered(c.(net := net), c.ring) <==> TailsAnswered(c, c.ring)
  {
    hide View, AtTail;
    var d := c.(net := net);
    forall x, id ensures AckedTo(net, x, id) <==> AckedTo(c.net, x, id) {
      if AckedTo(c.net, x, id) {
        var m :| m in c.net && m.WriteAck? && m.to == x && m.id == id;
        assert m in net;
      }
    }
    forall x, id | x in d.ring.members && WaitsAt(d, x, id) ensures OnItsWay(d, d.net, x, id) {
      assert WaitsAt(c, x, id) && OnItsWay(c, c.net, x, id);
      var y := After(c.ring, x);
      assert WaitsAt(c, y, id) <==> WaitsAt(d, y, id);
      if SentTo(c.net, c.ring.epoch, y, id) {
        var m :| m in c.net && m.ForwardPut? && m.to == y && m.req.id == id && m.req.epoch == c.ring.epoch;
        assert m in net;
      }
    }
  }

  // ---------- a member is taken out, the ring is switched ----------

  /** Sending pending writes on again changes no key of any table, puts copies on their way and adds nothing else. */
  ghost predicate Resent(c: Cluster, d: Cluster, resend: seq<Resend>)
    requires c.ring.members != []
  {
    && d.ring == c.ring && d.servers.Keys == c.servers.Keys
    && (forall x :: x in c.servers ==> SameEntries(TableAt(c, x), TableAt(d, x)))
    && (forall m :: m in c.net ==> m in d.net)
    && (forall m :: m in d.net ==> m in c.net || (m.ForwardPut? && Deliverable(c.ring, m)))
    && (|c.ring.members| > 1 ==> forall r :: r in resend && r.node in c.servers && r.id in TableAt(c, r.node) ==>
          SentTo(d.net, c.ring.epoch, After(c.ring, r.node), r.id))
  }

  /** The same writes are pending, filed under their ids. */
  predicate SameEntries(s: Table, t: Table) {
    s.Keys == t.Keys && forall id :: id in s ==> t[id].req.key == s[id].req.key && t[id].req.id == s[id].req.id == id
  }

  lemma ReforwardStep(c: Cluster, r: Resend)
    requires Shape(c) && r.node in c.ring.members
    requires forall x :: x in c.servers ==> SameEntries(TableAt(c, x), TableAt(c, x))
    ensures Resent(c, Reforward(c, r), [r])
  {
    var x := r.node;
    if r.id in TableAt(c, x) {
      var local := LocalOf(c.servers[x], c.ring.mode);
      var e := Forward(c.ring, Seat(c, x), local, local.table[r.id].req);
      assert SameEntries(TableAt(c, x), TableAt(c, x));
      if |c.ring.members| > 1 {
        AfterIsNext(c, x);
        var m := ForwardPut(After(c.ring, x), local.table[r.id].req.(epoch := c.ring.epoch));
        assert e.out == [m];
        assert m in e.out;
      }
      OneSent(c, r, e);
    }
  }

  lemma OneSent(c: Cluster, r: Resend, e: Effect)
    requires Shape(c) && r.node in c.ring.members
    requires forall m :: m in e.out ==> m.ForwardPut? && Deliverable(c.ring, m)
    requires |c.ring.members| > 1 ==> SentTo(e.out, c.ring.epoch, After(c.ring, r.node), r.id)
    requires forall x :: x in c.servers ==> SameEntries(TableAt(c, x), TableAt(c, x))
    requires SameEntries(TableAt(c, r.node), e.local.table)
    ensures Resent(c, React(c, r.node, e, c.net), [r])
  {
    hide SameEntries, SentTo, Deliverable;
    var d := React(c, r.node, e, c.net);
    forall z | z in c.servers ensures SameEntries(TableAt(c, z), TableAt(d, z)) {
      TableAfterReact(c, r.node, e, c.net, z);
    }
    SentStays(c.net, e.out, c.ring.epoch, After(c.ring, r.node), r.id);
  }

  lemma {:induction false} ReforwardAllSends(c: Cluster, resend: seq<Resend>)
    requires Shape(c) && forall k :: 0 <= k < |resend| ==> resend[k].node in c.ring.members
    requires forall x :: x in c.servers ==> SameEntries(TableAt(c, x), TableAt(c, x))
    ensures Shape(ReforwardAll(c, resend)) && Resent(c, ReforwardAll(c, resend), resend)
  {
    hide Reforward, SentTo, After, TableAt, SameEntries, Resent;
    if resend == [] {
      NothingResent(c);
    } else {
      var n := |resend| - 1;
      ReforwardAllSends(c, resend[..n]);
      var d := ReforwardAll(c, resend[..n]);
      ResentShape(c, d, resend[..n]);
      ReforwardStep(d, resend[n]);
      assert resend == resend[..n] + [resend[n]];
      ResentThen(c, d, Reforward(d, resend[n]), resend[..n], resend[n]);
    }
  }

  lemma NothingResent(c: Cluster)
    requires c.ring.members != [] && forall x :: x in c.servers ==> SameEntries(TableAt(c, x), TableAt(c, x))
    ensures Resent(c, c, [])
  {
  }

  lemma ResentShape(c: Cluster, d: Cluster, resend: seq<Resend>)
    requires Shape(c) && Resent(c, d, resend)
    ensures Shape(d) && d.ring == c.ring
    ensures forall x :: x in d.servers ==> SameEntries(TableAt(d, x), TableAt(d, x))
  {
  }

  lemma ResentThen(c: Cluster, d: Cluster, e: Cluster, resend: seq<Resend>, r: Resend)
    requires Shape(c) && Resent(c, d, resend) && Resent(d, e, [r])
    ensures Shape(e) && Resent(c, e, resend + [r])
  {
    hide SentTo, After, TableAt, Deliverable;
    forall x | x in c.servers ensures SameEntries(TableAt(c, x), TableAt(e, x)) {
      assert SameEntries(TableAt(c, x), TableAt(d, x)) && SameEntries(TableAt(d, x), TableAt(e, x));
    }
    forall q | |c.ring.members| > 1 && q in resend + [r] && q.node in c.servers && q.id in TableAt(c, q.node)
      ensures SentTo(e.net, c.ring.epoch, After(c.ring, q.node), q.id)
    {
      assert SameEntries(TableAt(c, q.node), TableAt(d, q.node));
      if q != r { StillSent(d.net, e.net, c.ring.epoch, After(c.ring, q.node), q.id); } else { assert q in [r]; }
    }
  }

  lemma StillSent(a: seq<Message>, b: seq<Message>, epoch: nat, y: NodeId, id: ReqId)
    requires SentTo(a, epoch, y, id) && forall m :: m in a ==> m in b
    ensures SentTo(b, epoch, y, id)
  {
    var m :| m in a && m.ForwardPut? && m.to == y && m.req.id == id && m.req.epoch == epoch;
    assert m in b;
  }

  lemma TablesAreKeyed(c: Cluster)
    requires Genuine(c)
    ensures forall x :: x in c.servers ==> SameEntries(TableAt(c, x), TableAt(c, x))
  {
    forall x | x in c.servers ensures SameEntries(TableAt(c, x), TableAt(c, x)) {
      assert GoodServer(c.hist, c.servers[x]);
    }
  }

  /** A later ring, the same pending tables, the same messages. */
  ghost predicate NextRing(c: Cluster, i: Cluster) {
    && Shape(i) && Genuine(i) && i.ring.epoch > c.ring.epoch && i.net == c.net && i.servers.Keys == c.servers.Keys
    && (forall x :: x in c.servers ==> i.servers[x].tables == c.servers[x].tables)
  }

  /** Everything pending on a new ring is sent on again, so it is carried by the copies just sent; but entries at a tail are
      answered exactly if they were before. */
  lemma ResendingKeepsLive(c: Cluster, i: Cluster, resend: seq<Resend>)
    requires AllDeliverable(c.ring, c.net) && NextRing(c, i) && AllPending(c, i.ring, resend)
    ensures Live(ReforwardAll(i, resend))
    ensures TailsAnswered(ReforwardAll(i, resend), i.ring) <==> TailsAnswered(c, i.ring)
  {
    hide Genuine, Resent, Live, TailsAnswered, View, AllDeliverable;
    TablesAreKeyed(i);
    ReforwardAllSends(i, resend);
    ResentIsLive(c, i, resend, ReforwardAll(i, resend));
    ResentTails(c, i, resend, ReforwardAll(i, resend));
  }

  lemma ResentIsLive(c: Cluster, i: Cluster, resend: seq<Resend>, d: Cluster)
    requires AllDeliverable(c.ring, c.net) && NextRing(c, i) && AllPending(c, i.ring, resend)
    requires Shape(d) && Resent(i, d, resend)
    ensures Live(d)
  {
    hide View, SentTo, AtTail, Genuine, OnItsWay;
    forall x, id | x in d.ring.members && WaitsAt(d, x, id) ensures OnItsWay(d, d.net, x, id) {
      assert SameEntries(TableAt(i, x), TableAt(d, x));
      assert TableAt(i, x) == TableOf(c.servers[x], i.ring.mode);
      assert Resend(x, id) in resend;
      if |d.ring.members| == 1 { LoneIsTail(d.ring, x, KeyAt(d, x, id)); }
      SentIsOnItsWay(d, d.net, x, id);
    }
    forall m | m in d.net ensures Deliverable(d.ring, m) {
      assert m in c.net ==> Deliverable(c.ring, m);
    }
  }

  lemma ResentTails(c: Cluster, i: Cluster, resend: seq<Resend>, d: Cluster)
    requires NextRing(c, i) && Shape(d) && Resent(i, d, resend)
    ensures TailsAnswered(d, i.ring) <==> TailsAnswered(c, i.ring)
  {
    hide View, SentTo, AtTail, Genuine, Deliverable;
    forall x, id | x in c.servers ensures LeftAt(d.servers[x], i.ring, x, id) <==> LeftAt(c.servers[x], i.ring, x, id) {
      assert SameEntries(TableAt(i, x), TableAt(d, x));
      assert TableAt(i, x) == TableOf(c.servers[x], i.ring.mode);
    }
    forall x, id ensures AckedTo(d.net, x, id) <==> AckedTo(c.net, x, id) {
      if AckedTo(c.net, x, id) {
        var m :| m in c.net && m.WriteAck? && m.to == x && m.id == id;
        assert m in d.net;
      }
    }
  }

  lemma InstalledTables(c: Cluster, ring: Ring, dumps: map<NodeId, NodeId>)
    requires Genuine(c) && DumpsUp(c, dumps) && ring.Valid() && ring.epoch > c.ring.epoch
    requires forall x :: x in ring.members ==> x in c.servers
    ensures NextRing(c, Install(c, ring, dumps)) && Install(c, ring, dumps).ring == ring
  {
    hide Genuine, EntryStore;
    InstallKeepsGenuine(c, ring, dumps);
  }

  lemma RemovePending(c: Cluster, seat: nat, epoch: nat, resend: seq<Resend>)
    requires Enabled(c, Remove(seat, epoch, resend))
    ensures seat < |c.ring.members| && AllPending(c, Shrunk(c.ring, seat, epoch), resend)
  {
  }

  lemma SwitchPending(c: Cluster, ring: Ring, dumps: map<NodeId, NodeId>, resend: seq<Resend>)
    requires Enabled(c, Switch(ring, dumps, resend))
    ensures AllPending(c, ring, resend)
  {
  }

  /** Whatever is reconfigured, everything pending is carried afterwards; and on the new ring every entry at a tail has an
      acknowledgement coming exactly if it had one before. */
  lemma ReconfigurationAnswers(c: Cluster, a: Action)
    requires Genuine(c) && Live(c) && Enabled(c, a) && !FixedRing(a)
    ensures var d := Apply(c, a);
      Live(d) && (TailsAnswered(d, d.ring) <==> TailsAnswered(c, d.ring))
  {
    hide Genuine, View, MayGo, AllCarried, AllPending, Install, ReforwardAll, Apply, TailsAnswered, Enabled, NextRing;
    if a.Switch? {
      SwitchParts(c, a.ring, a.dumps, a.resend);
      SwitchPending(c, a.ring, a.dumps, a.resend);
      InstalledTables(c, a.ring, a.dumps);
      ResendingKeepsLive(c, Install(c, a.ring, a.dumps), a.resend);
      RingAfter(c, a.ring, a.dumps, a.resend);
    } else {
      RemoveParts(c, a.seat, a.epoch, a.resend);
      RemovePending(c, a.seat, a.epoch, a.resend);
      ShrunkMembers(c.ring, a.seat, a.epoch);
      var ring := Shrunk(c.ring, a.seat, a.epoch);
      InstalledTables(c, ring, map[]);
      ResendingKeepsLive(c, Install(c, ring, map[]), a.resend);
      RingAfter(c, ring, map[], a.resend);
    }
  }

  lemma RingAfter(c: Cluster, ring: Ring, dumps: map<NodeId, NodeId>, resend: seq<Resend>)
    requires DumpsUp(c, dumps)
    ensures ReforwardAll(Install(c, ring, dumps), resend).ring == ring
  {
    ReforwardAllRing(Install(c, ring, dumps), resend);
  }

  lemma {:induction false} ReforwardAllRing(c: Cluster, resend: seq<Resend>)
    ensures ReforwardAll(c, resend).ring == c.ring
  {
    if resend != [] { ReforwardAllRing(c, resend[..|resend| - 1]); }
  }

  // ---------- every action ----------

  /** As long as no message is lost, everything pending stays carried. Only a reconfiguration changes whether all entries at
      tails are answered. */
  lemma ActionKeepsLive(c: Cluster, a: Action)
    requires Genuine(c) && Live(c) && Enabled(c, a) && !a.Lose?
    ensures Live(Apply(c, a))
    ensures FixedRing(a) ==> (TailsAnswered(Apply(c, a), c.ring) <==> TailsAnswered(c, c.ring))
  {
    hide Genuine, View, AllCarried, Receive, HandlePut, RetryOne, AllDeliverable, ReforwardAll, Install, MayGo, Settled;
    hide TailsAnswered;
    match a {
      case ClientPut(x, req) =>
        if req.epoch >= c.ring.epoch {
          if Seat(c, x) == c.ring.HeadIndex(req.key) {
            TakePutAccepts(c, x, req);
            ClientWriteKeepsLive(c, x, req);
          } else {
            RefusedKeepsLive(c, x, req);
          }
        }
      case Deliver(i) =>
        if c.net[i].WriteAck? { AckDeliveryKeepsLive(c, i); }
        else if c.net[i].ForwardPut? && c.net[i].req.epoch >= c.ring.epoch { ForwardDeliveryKeepsLive(c, i); }
        else { IdleDeliveryKeepsLive(c, i); }
      case Retry(x, id) => RetryKeepsLive(c, x, id);
      case Duplicate(i) => NetKeepsLive(c, c.net + [c.net[i]]);
      case Remove(_, _, _) => ReconfigurationAnswers(c, a);
      case Switch(_, _, _) => ReconfigurationAnswers(c, a);
    }
  }

  /** Commit notices and refused writes carry nothing. */
  lemma IdleDeliveryKeepsLive(c: Cluster, i: nat)
    requires Live(c) && Enabled(c, Deliver(i))
    requires c.net[i].CommitAck? || (c.net[i].ForwardPut? && c.net[i].req.epoch < c.ring.epoch)
    ensures Live(Receive(c, i))
    ensures TailsAnswered(Receive(c, i), c.ring) <==> TailsAnswered(c, c.ring)
  {
    hide AllCarried, AllDeliverable, HandlePut, TailsAnswered;
    NetKeepsLive(c, RemoveAt(c.net, i));
  }

  lemma RefusedKeepsLive(c: Cluster, x: NodeId, req: PutRequest)
    requires Live(c) && x in c.ring.members && req.version == 0 && Seat(c, x) != c.ring.HeadIndex(req.key)
    ensures Live(TakePut(c, x, req))
    ensures TailsAnswered(TakePut(c, x, req), c.ring) <==> TailsAnswered(c, c.ring)
  {
    hide View;
    var d := TakePut(c, x, req);
    NoneTaken(c, x);
    var e := Effect(LocalOf(c.servers[x], c.ring.mode), []);
    assert d == React(c, x, e, c.net) || d == c;
    NothingDone(c, x, e);
    hide Answers, Carries, TailsAnswered, TailsKept, Live;
    ReactKeepsLive(c, x, e, c.net, {});
    ReactKeepsTails(c, x, e, c.net, {});
  }

  lemma NothingDone(c: Cluster, x: NodeId, e: Effect)
    requires Live(c) && x in c.ring.members && e.local.table == TableAt(c, x) && e.out == []
    ensures Answers(c, x, e, {}) && Carries(c, x, e, c.net) && AllDeliverable(c.ring, e.out) && TailsKept(c, x, e, {})
  {
    hide View, AtTail, OnItsWay;
    assert c.net + e.out == c.net;
  }

  // ---------- nothing left to deliver ----------

  /** No message in flight can be delivered: those left are for servers that were taken out. */
  ghost predicate Quiet(c: Cluster) {
    forall i :: 0 <= i < |c.net| ==> !Enabled(c, Deliver(i))
  }

  /** All messages left are addressed to servers outside the ring. */
  lemma QuietMessages(c: Cluster)
    requires Shape(c) && Quiet(c)
    ensures forall m :: m in c.net ==> !m.CommitAck? && m.to !in c.ring.members
  {
    forall m | m in c.net ensures !m.CommitAck? && m.to !in c.ring.members {
      var i :| 0 <= i < |c.net| && c.net[i] == m;
      assert !Enabled(c, Deliver(i));
    }
  }

  lemma QuietMeansNone(c: Cluster, x: NodeId, id: ReqId)
    requires Shape(c) && Quiet(c) && x in c.ring.members
    ensures !AckedTo(c.net, x, id) && !SentTo(c.net, c.ring.epoch, x, id)
  {
    hide Quiet;
    QuietMessages(c);
  }

  /** With nothing to deliver, nothing is pending but at tails: a pending write would be pending all the way to the tail. */
  lemma {:induction false} NothingPends(c: Cluster, x: NodeId, id: ReqId)
    requires Genuine(c) && Live(c) && Quiet(c) && x in c.ring.members
    ensures !WaitsAt(c, x, id)
    decreases if WaitsAt(c, x, id) then |c.ring.members| - c.ring.PosOf(KeyAt(c, x, id), Seat(c, x)) else 0
  {
    hide Genuine, View, Quiet;
    if WaitsAt(c, x, id) {
      assert OnItsWay(c, c.net, x, id);
      if |c.ring.members| == 1 { LoneIsTail(c.ring, x, KeyAt(c, x, id)); }
      var y := After(c.ring, x);
      AfterIsNext(c, x);
      QuietMeansNone(c, x, id);
      QuietMeansNone(c, y, id);
      SameWrite(c, x, y, id);
      TailBeforeHead(c, x, KeyAt(c, x, id));
      NothingPends(c, y, id);
    }
  }

  /** At rest the tables are empty exactly if all entries at tails are answered: an answered one is gone by then. */
  lemma QuietTables(c: Cluster)
    requires Genuine(c) && Live(c) && Quiet(c)
    ensures (forall x :: x in c.ring.members ==> TableAt(c, x) == map[]) <==> TailsAnswered(c, c.ring)
  {
    hide Genuine, AllCarried, Quiet, AtTail, View;
    if TailsAnswered(c, c.ring) {
      forall x | x in c.ring.members ensures TableAt(c, x) == map[] {
        forall id ensures id !in TableAt(c, x) {
          NothingPends(c, x, id);
          QuietMeansNone(c, x, id);
          assert LeftAt(c.servers[x], c.ring, x, id) ==> AckedTo(c.net, x, id);
        }
      }
    }
  }

  lemma QuietSlot(c: Cluster, key: Key, p: nat)
    requires Genuine(c) && Live(c) && Quiet(c) && p < |c.ring.members| - 1
    ensures |View(c, key).slots| == |c.ring.members| && View(c, key).slots[p].pend == {}
  {
    hide Genuine, AllCarried, Quiet, AtTail;
    var x := c.ring.NodeAt(key, p);
    assert x in c.ring.members;
    NotTheTail(c, key, p);
    forall id | id in TableAt(c, x) ensures TableAt(c, x)[id].req.key != key { NothingPends(c, x, id); }
    NonePend(TableAt(c, x), key);
  }

  lemma NotTheTail(c: Cluster, key: Key, p: nat)
    requires Shape(c) && p < |c.ring.members| - 1
    ensures !AtTail(c.ring, c.ring.NodeAt(key, p), key)
  {
    SeatUnique(c.ring, c.ring.IndexAt(key, p));
    Positions(c.ring, key, p);
    Positions(c.ring, key, c.ring.IndexAt(key, p));
  }

  lemma NonePend(table: Table, key: Key)
    requires forall id :: id in table ==> table[id].req.key != key
    ensures PendOf(table, key) == {}
  {
  }

  /** A replica holds exactly the newest write of a key. */
  ghost predicate UpToDate(c: Cluster, x: NodeId, key: Key)
    requires x in c.servers
  {
    && DirtyAt(c.servers[x].store, key) == map[]
    && At(c.servers[x].store, key).clean == if Hist(c, key) == [] then None else Some(NewestRecord(c, key))
  }

  /** All replicas hold the same: the newest write of every key, clean, and nothing else. */
  ghost predicate SameEverywhere(c: Cluster) {
    forall x, key :: x in c.ring.members ==> x in c.servers && UpToDate(c, x, key)
  }

  /** And nothing is pending. */
  ghost predicate Converged(c: Cluster) {
    SameEverywhere(c) && forall x :: x in c.ring.members ==> x in c.servers && TableAt(c, x) == map[]
  }

  lemma QuietIsUpToDate(c: Cluster, x: NodeId, key: Key)
    requires Base(c) && Live(c) && Quiet(c) && x in c.ring.members
    requires |c.ring.members| > 1 || TableAt(c, x) == map[]
    ensures UpToDate(c, x, key)
  {
    hide ChainLines.WeakInv, AllCarried, Genuine, View, Base, Quiet, AtTail;
    BaseParts(c, key);
    var p := MemberSlot(c, x, key);
    var n := |c.ring.members|;
    forall q | 0 <= q < n && (q < n - 1 || q == 0) ensures View(c, key).slots[q].pend == {} {
      if q < n - 1 { QuietSlot(c, key, q); } else { LoneSlot(c, x, key); }
    }
    ChainLines.ChainSettled(View(c, key));
    assert DirtyAt(c.servers[x].store, key).Keys == {};
    RecordIsIssued(c, x, key);
  }

  lemma LoneSlot(c: Cluster, x: NodeId, key: Key)
    requires Shape(c) && x in c.ring.members && |c.ring.members| == 1 && TableAt(c, x) == map[]
    ensures |View(c, key).slots| == 1 && View(c, key).slots[0].pend == {}
  {
    NonePend(map[], key);
  }

  /** At rest, with more than one member, all replicas are identical; and they have nothing pending besides exactly if all
      entries at tails were answered. */
  lemma QuietIsConverged(c: Cluster)
    requires Base(c) && Live(c) && Quiet(c)
    ensures |c.ring.members| > 1 ==> SameEverywhere(c)
    ensures Converged(c) <==> TailsAnswered(c, c.ring)
  {
    hide AllCarried, Base, UpToDate, Genuine, Quiet, TailsAnswered;
    BaseParts(c, []);
    QuietTables(c);
    forall x, key | x in c.ring.members && (|c.ring.members| > 1 || TailsAnswered(c, c.ring)) ensures UpToDate(c, x, key) {
      QuietIsUpToDate(c, x, key);
    }
  }

  lemma InitIsLive(c: Cluster)
    requires Init(c)
    ensures Live(c) && TailsAnswered(c, c.ring)
  {
  }

  /** No message is lost. */
  ghost predicate LosslessRun(states: seq<Cluster>, actions: seq<Action>) {
    GoodRun(states, actions) && forall i :: 0 <= i < |actions| ==> !actions[i].Lose?
  }

  lemma {:induction false} RunIsLive(states: seq<Cluster>, actions: seq<Action>, j: nat)
    requires LosslessRun(states, actions) && j < |states|
    ensures Base(states[j]) && Shape(states[j]) && Live(states[j])
  {
    hide ModeInv, AllBehind, Live, Apply, Enabled, Progress, Shape;
    RunIsSound(states, actions, j, j);
    SoundParts(states[j]);
    if j == 0 {
      InitIsLive(states[0]);
    } else {
      RunIsLive(states, actions, j - 1);
      BaseParts(states[j - 1], []);
      ActionKeepsLive(states[j - 1], actions[j - 1]);
    }
  }

  /** Between reconfigurations nothing changes for the entries at tails. */
  lemma {:induction false} TailsAlongRun(states: seq<Cluster>, actions: seq<Action>, k: nat, j: nat)
    requires LosslessRun(states, actions) && k <= j < |states|
    requires forall i :: k <= i < |actions| ==> FixedRing(actions[i])
    ensures states[j].ring == states[k].ring
    ensures TailsAnswered(states[j], states[j].ring) <==> TailsAnswered(states[k], states[k].ring)
    decreases j
  {
    hide *;
    if k < j {
      RunStep(states, actions, j - 1);
      assert FixedRing(actions[j - 1]);
      TailsAlongRun(states, actions, k, j - 1);
      RunIsLive(states, actions, j - 1);
      BaseParts(states[j - 1], []);
      ActionKeepsLive(states[j - 1], actions[j - 1]);
      RingStays(states[j - 1], actions[j - 1]);
    }
  }

  lemma RunStep(states: seq<Cluster>, actions: seq<Action>, i: nat)
    requires LosslessRun(states, actions) && i + 1 < |states|
    ensures |states| == |actions| + 1 && Enabled(states[i], actions[i]) && states[i + 1] == Apply(states[i], actions[i])
    ensures !actions[i].Lose?
  {
    hide Enabled, Apply, Init;
  }

  /** What the last reconfiguration of a run decides: right after it, all entries at tails are answered exactly if on the new
      ring they were right before it. A run without any starts with none. */
  lemma TailsDecided(states: seq<Cluster>, actions: seq<Action>, k: nat)
    requires LosslessRun(states, actions) && k < |states|
    ensures k == 0 ==> TailsAnswered(states[0], states[0].ring)
    ensures k > 0 ==> (TailsAnswered(states[k], states[k].ring) <==> TailsAnswered(states[k - 1], states[k].ring))
  {
    hide Live, Apply, Enabled, Shape, TailsAnswered, Base;
    if k == 0 {
      InitIsLive(states[0]);
    } else {
      RunIsLive(states, actions, k - 1);
      BaseParts(states[k - 1], []);
      ActionKeepsLive(states[k - 1], actions[k - 1]);
      if FixedRing(actions[k - 1]) {
        RingStays(states[k - 1], actions[k - 1]);
      } else {
        ReconfigurationAnswers(states[k - 1], actions[k - 1]);
      }
    }
  }

  /** A run that loses no message converges, in all three modes and whatever was reconfigured on the way. Let no
      reconfiguration come after state k, and no write or duplication after state n. Then only a bounded number of deliveries
      and retries can follow. When none of the messages left can be delivered, and there is more than one member, all replicas
      are identical and hold exactly the newest write of every key. They also have nothing pending exactly if, in the state
      before the last reconfiguration, every write pending at a member that becomes the tail of its key had an
      acknowledgement in flight. */
  lemma LosslessRunsConverge(states: seq<Cluster>, actions: seq<Action>, k: nat, n: nat)
    requires LosslessRun(states, actions) && k <= n < |states|
    requires forall i :: k <= i < |actions| ==> FixedRing(actions[i])
    requires forall i :: n <= i < |actions| ==> actions[i].Deliver? || actions[i].Retry?
    ensures Shape(states[n]) && |actions| - n <= Measure(states[n])
    ensures var last := states[|actions|];
      Quiet(last) ==>
        && (|last.ring.members| > 1 ==> SameEverywhere(last))
        && (Converged(last) <==> k == 0 || TailsAnswered(states[k - 1], last.ring))
  {
    hide Base, Live, Apply, Enabled, Converged, SameEverywhere, Shape, Measure, Quiet, TailsAnswered, Init;
    var m := |actions|;
    RunIsLive(states, actions, n);
    RunIsLive(states, actions, m);
    WindingRunsAreFinite(states[n..], actions[n..]);
    TailsDecided(states, actions, k);
    TailsAlongRun(states, actions, k, m);
    if Quiet(states[m]) { QuietIsConverged(states[m]); }
  }
}
