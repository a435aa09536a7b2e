/** The invariant over every run, including settled reconfigurations. */
module Invariants {
  import opened Types
  import opened Rings
  import opened Stores
  import opened Handlers
  import opened Clusters
  import opened Views
  import opened Simulation
  import opened Steps
  import Lines

  // ---------- genuine data stays genuine ----------

  lemma TablesAfter(s: Server, mode: Mode, local: Local, other: Mode)
    ensures TableOf(WithLocal(s, mode, local), other) == if other == mode then local.table else TableOf(s, other)
  {
  }

  lemma ReactKeepsGenuine(c: Cluster, x: NodeId, e: Effect, rest: seq<Message>)
    requires Genuine(c) && x in c.servers
    requires GoodStore(c.hist, e.local.store) && GoodTable(c.hist, e.local.table) && GoodNet(c.hist, e.out)
    requires forall msg :: msg in rest ==> msg in c.net
    ensures Genuine(React(c, x, e, rest))
  {
    hide GoodStore, GoodTable, GoodMessage, UniqueIds;
    var c' := React(c, x, e, rest);
    forall y | y in c'.servers ensures GoodServer(c'.hist, c'.servers[y]) {
      assert GoodServer(c.hist, c.servers[y]);
      if y == x {
        forall mode ensures GoodTable(c.hist, TableOf(c'.servers[x], mode)) {
          TablesAfter(c.servers[x], c.ring.mode, e.local, mode);
        }
      }
    }
  }

  lemma ServersStayGood(c: Cluster, h: map<Key, seq<Write>>)
    requires Genuine(c) && Extends(c.hist, h) && UniqueIds(h)
    ensures Genuine(c.(hist := h))
  {
    hide GoodStore, GoodTable, GoodNet, UniqueIds, Extends;
    forall y | y in c.servers ensures GoodServer(h, c.servers[y]) {
      assert GoodServer(c.hist, c.servers[y]);
      forall mode ensures GoodStore(h, c.servers[y].store) && GoodTable(h, TableOf(c.servers[y], mode)) {
        GoodStaysGood(c.hist, h, c.servers[y].store, TableOf(c.servers[y], mode), c.net);
      }
      GoodStaysGood(c.hist, h, c.servers[y].store, TableOf(c.servers[y], CRAQ), c.net);
    }
    GoodStaysGood(c.hist, h, EMPTY, map[], c.net);
  }

  lemma NetKeepsGenuine(c: Cluster, net: seq<Message>)
    requires Genuine(c) && forall msg :: msg in net ==> msg in c.net
    ensures Genuine(c.(net := net))
  {
  }

  lemma AcceptKeepsGenuine(c: Cluster, x: NodeId, req: PutRequest)
    requires Shape(c) && Genuine(c) && HeadKnows(c, x, req.key)
    requires Enabled(c, ClientPut(x, req)) && Seat(c, x) == c.ring.HeadIndex(req.key)
    ensures Genuine(Accepted(c, x, req))
  {
    hide GoodStore, GoodTable, GoodNet, UniqueIds, View, ClientWrite;
    var w := WriteOf(req);
    var h := Remember(c, req.key, w).hist;
    var local := LocalOf(c.servers[x], c.ring.mode);
    RememberKeepsUnique(c, req.key, w);
    ServersStayGood(c, h);
    var d := c.(hist := h);
    assert GoodServer(h, d.servers[x]);
    ClientWriteLeaves(h, c.ring, Seat(c, x), local, req);
    var e := ClientWrite(c.ring, Seat(c, x), local, req).effect;
    ReactKeepsGenuine(d, x, e, c.net);
    assert React(d, x, e, c.net) == Accepted(c, x, req);
  }

  lemma PutKeepsGenuine(c: Cluster, x: NodeId, req: PutRequest)
    requires Shape(c) && Genuine(c) && HeadKnows(c, x, req.key) && Enabled(c, ClientPut(x, req))
    ensures Genuine(TakePut(c, x, req))
  {
    hide GoodStore, GoodTable, GoodNet, UniqueIds, View, Accepted;
    if req.epoch >= c.ring.epoch {
      if Seat(c, x) == c.ring.HeadIndex(req.key) {
        TakePutAccepts(c, x, req);
        AcceptKeepsGenuine(c, x, req);
      } else {
        assert GoodServer(c.hist, c.servers[x]);
        assert GoodNet(c.hist, []) by { GoodStaysGood(c.hist, c.hist, EMPTY, map[], c.net); NothingIsGood(c.hist); }
        ReactKeepsGenuine(c, x, Effect(LocalOf(c.servers[x], c.ring.mode), []), c.net);
      }
    }
  }

  lemma NothingIsGood(h: map<Key, seq<Write>>)
    ensures GoodNet(h, [])
  {
  }

  lemma ReceiveKeepsGenuine(c: Cluster, i: nat)
    requires Shape(c) && Genuine(c) && Enabled(c, Deliver(i))
    ensures Genuine(Receive(c, i))
  {
    hide GoodStore, GoodTable, UniqueIds, ForwardedWrite, HandleAck;
    var rest := RemoveAt(c.net, i);
    var m := c.net[i];
    assert m in c.net && GoodMessage(c.hist, m);
    NetKeepsGenuine(c, rest);
    if m.ForwardPut? && m.req.epoch >= c.ring.epoch {
      assert GoodServer(c.hist, c.servers[m.to]);
      ForwardedWriteLeaves(c.hist, c.ring, Seat(c, m.to), LocalOf(c.servers[m.to], c.ring.mode), m.req);
      ReactKeepsGenuine(c, m.to, ForwardedWrite(c.ring, Seat(c, m.to), LocalOf(c.servers[m.to], c.ring.mode), m.req), rest);
    } else if m.WriteAck? {
      assert GoodServer(c.hist, c.servers[m.to]);
      AckKeepsGood(c.hist, c.ring, Seat(c, m.to), LocalOf(c.servers[m.to], c.ring.mode), m.id);
      ReactKeepsGenuine(c, m.to, HandleAck(c.ring, Seat(c, m.to), LocalOf(c.servers[m.to], c.ring.mode), m.id), rest);
    }
  }

  lemma AckKeepsGood(h: map<Key, seq<Write>>, r: Ring, i: nat, local: Local, id: ReqId)
    requires UniqueIds(h) && GoodStore(h, local.store) && GoodTable(h, local.table)
    ensures var e := HandleAck(r, i, local, id);
      GoodStore(h, e.local.store) && GoodTable(h, e.local.table) && GoodNet(h, e.out)
  {
    if id in local.table {
      AckLeaves(h, local, id, local.table[id].req.key);
    }
  }

  lemma SendAgainKeepsGenuine(c: Cluster, x: NodeId, local: Local, id: ReqId)
    requires Genuine(c) && x in c.servers && id in local.table
    requires local.store == c.servers[x].store && GoodTable(c.hist, local.table)
    ensures Genuine(React(c, x, Forward(c.ring, Seat(c, x), local, local.table[id].req), c.net))
  {
    hide GoodStore, UniqueIds, GoodNet, Forward, PendOf;
    assert GoodServer(c.hist, c.servers[x]);
    ForwardLeaves(c.hist, c.ring, Seat(c, x), local, local.table[id].req, local.table[id].req.key);
    ReactKeepsGenuine(c, x, Forward(c.ring, Seat(c, x), local, local.table[id].req), c.net);
  }

  lemma GenuineServer(c: Cluster, x: NodeId)
    requires Genuine(c) && x in c.servers
    ensures GoodServer(c.hist, c.servers[x])
  {
  }

  lemma RetryKeepsGenuine(c: Cluster, x: NodeId, id: ReqId)
    requires Shape(c) && Genuine(c) && Enabled(c, Retry(x, id))
    ensures Genuine(Apply(c, Retry(x, id)))
  {
    hide PendOf, UniqueIds, GoodNet, GoodStore, GoodRequest, Forward, Genuine, TakePut, Receive, ReforwardAll;
    GenuineServer(c, x);
    var local := LocalOf(c.servers[x], c.ring.mode);
    var entry := local.table[id];
    CountingKeepsPends(c, x, id);
    SendAgainKeepsGenuine(c, x, local.(table := local.table[id := Pending(entry.req, entry.retries + 1)]), id);
  }

  // ---------- the simulation ----------

  /** Every action on a fixed ring is, on the chain of every key, one step of that chain. */
  lemma EveryActionIsStep(c: Cluster, a: Action, key: Key)
    requires Inv(c) && Enabled(c, a) && FixedRing(a)
    ensures Shape(Apply(c, a)) && Lines.Step(View(c, key), View(Apply(c, a), key))
  {
    hide Lines.Inv, Lines.Step, View, UniqueIds, GoodNet, TakePut;
    match a {
      case ClientPut(x, req) =>
        HeadCounted(c, x, req.key);
        PutIsStep(c, x, req, key);
      case Deliver(i) =>
        if c.net[i].ForwardPut? { ForwardArrives(c, i, key); }
        else if c.net[i].WriteAck? { AckArrives(c, i, key); }
        else { LossIsStep(c, RemoveAt(c.net, i), key); }
      case Retry(x, id) =>
        assert GoodServer(c.hist, c.servers[x]);
        RetryIsStep(c, x, id, key);
      case Lose(i) => LossIsStep(c, RemoveAt(c.net, i), key);
      case Duplicate(i) => LossIsStep(c, c.net + [c.net[i]], key);
    }
  }

  lemma LossIsStep(c: Cluster, net: seq<Message>, key: Key)
    requires Shape(c) && forall msg :: msg in net ==> msg in c.net
    ensures Shape(c.(net := net)) && Lines.Step(View(c, key), View(c.(net := net), key))
  {
    OnlyLoss(c, net, key);
  }

  lemma EveryActionKeepsGenuine(c: Cluster, a: Action)
    requires Shape(c) && Genuine(c) && Enabled(c, a) && FixedRing(a)
    requires a.ClientPut? ==> HeadKnows(c, a.node, a.req.key)
    ensures Genuine(Apply(c, a))
  {
    hide View, HeadKnows, UniqueIds, GoodServer, GoodMessage, TakePut, Receive;
    match a {
      case ClientPut(x, req) => PutKeepsGenuine(c, x, req);
      case Deliver(i) => ReceiveKeepsGenuine(c, i);
      case Retry(x, id) => RetryKeepsGenuine(c, x, id);
      case Lose(i) => NetKeepsGenuine(c, RemoveAt(c.net, i));
      case Duplicate(i) => NetKeepsGenuine(c, c.net + [c.net[i]]);
    }
  }

  lemma HeadCounted(c: Cluster, x: NodeId, key: Key)
    requires Inv(c) && x in c.ring.members
    ensures HeadKnows(c, x, key)
  {
    hide Inv;
    if Seat(c, x) == c.ring.HeadIndex(key) { HeadCounts(c, x, key); }
  }

  lemma RingStays(c: Cluster, a: Action)
    requires Enabled(c, a) && FixedRing(a)
    ensures Apply(c, a).ring == c.ring
  {
    hide HandlePut, HandleAck, RetryOne, Fresh;
  }

  lemma InvGivesGenuine(c: Cluster, a: Action)
    requires Inv(c) && Enabled(c, a)
    ensures Shape(c) && Genuine(c) && (a.ClientPut? ==> HeadKnows(c, a.node, a.req.key))
  {
    hide Lines.Inv, Genuine, HeadKnows;
    if a.ClientPut? { HeadCounted(c, a.node, a.req.key); }
  }

  /** On a fixed ring, every action keeps the invariant, and no chain forgets anything. */
  lemma ActionKeepsInv(c: Cluster, a: Action)
    requires Inv(c) && Enabled(c, a) && FixedRing(a)
    ensures Inv(Apply(c, a))
    ensures forall key :: Lines.Grows(View(c, key), View(Apply(c, a), key))
  {
    hide Lines.Inv, Lines.Step, Lines.Grows, View, Genuine, Enabled, Apply;
    InvGivesGenuine(c, a);
    RingStays(c, a);
    EveryActionKeepsGenuine(c, a);
    EveryActionIsStep(c, a, []);
    forall key ensures Lines.Inv(View(Apply(c, a), key)) && Lines.Grows(View(c, key), View(Apply(c, a), key)) {
      EveryActionIsStep(c, a, key);
      assert Lines.Inv(View(c, key));
      Lines.StepKeepsInv(View(c, key), View(Apply(c, a), key));
    }
  }

  /** A fresh cluster satisfies the invariant. */
  lemma InitInv(c: Cluster)
    requires Init(c) && c.ring.mode != CHAIN
    ensures Inv(c)
  {
    forall key ensures Lines.Inv(View(c, key)) {
      assert forall p :: 0 <= p < |c.ring.members| ==> c.ring.NodeAt(key, p) in c.servers;
      Lines.SettledLineInv(View(c, key));
    }
  }
}
