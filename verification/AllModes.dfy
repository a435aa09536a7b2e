/** What holds in all three modes: genuine data, and every key's chain in the weaker order that CHAIN mode leaves.
    In CHAIN mode the tail has nothing dirty besides, in CRAQ and CROWN the stronger invariant holds. */
module AllModes {
  import opened Types
  import opened Rings
  import opened Stores
  import opened Handlers
  import opened Clusters
  import opened Views
  import opened Simulation
  import opened Steps
  import opened Invariants
  import opened Members
  import opened ChainLines
  import Lines

  ghost predicate Base(c: Cluster) {
    && Shape(c)
    && Genuine(c)
    && (forall key :: WeakInv(View(c, key)))
    && (c.ring.mode == CHAIN ==> forall key :: TailClean(View(c, key)))
  }

  /** The invariant of a mode. */
  ghost predicate ModeInv(c: Cluster) {
    Base(c) && (c.ring.mode != CHAIN ==> Inv(c))
  }

  lemma BaseParts(c: Cluster, key: Key)
    requires Base(c)
    ensures Shape(c) && Genuine(c) && WeakInv(View(c, key))
    ensures c.ring.mode == CHAIN ==> TailClean(View(c, key))
  {
  }

  lemma HeadTop(l: Lines.Line)
    requires WeakInv(l)
    ensures Top(l.slots[0]) == l.latest
  {
    if l.latest >= 1 { assert Lines.Holds(l.slots[0], l.latest); }
  }

  /** The head has every version it handed out, or a newer clean one. */
  lemma BaseHeadKnows(c: Cluster, x: NodeId, key: Key)
    requires Base(c) && x in c.ring.members
    ensures HeadKnows(c, x, key)
  {
    hide Base, View, Highest, WeakInv;
    BaseParts(c, key);
    if Seat(c, x) == c.ring.HeadIndex(key) {
      var p := TopIsLatest(c, x, key);
      Positions(c.ring, key, Seat(c, x));
      var _ := MemberSlot(c, x, key);
      SomeSlot(View(c, key));
      HeadTop(View(c, key));
    }
  }

  // ---------- every action is a step ----------

  /** A forwarded write that reaches the middle of the chain when something as new is there already. */
  lemma Skipped(c: Cluster, x: NodeId, req: PutRequest, rest: seq<Message>, p: nat)
    requires Shape(c) && x in c.ring.members && UniqueIds(c.hist)
    requires GoodServer(c.hist, c.servers[x]) && GoodRequest(c.hist, req)
    requires forall msg :: msg in rest ==> msg in c.net
    requires p == c.ring.PosOf(req.key, Seat(c, x)) && x == c.ring.NodeAt(req.key, p) && p < |c.ring.members| - 1
    requires IsStale(c.ring.mode, c.servers[x].store, req)
    ensures var e := ForwardedWrite(c.ring, Seat(c, x), LocalOf(c.servers[x], c.ring.mode), req);
      Lines.Within(View(React(c, x, e, rest), req.key),
                   Lines.AddFwd(SkipAt(View(c, req.key), p, req.version), p + 1, req.version))
  {
    hide FwdOf, AckOf, CommitsOf, PendOf, React, GoodStore, UniqueIds, StaleBound, View, Lines.Within;
    SlotCore(c, x, req.key, p);
    var local := LocalOf(c.servers[x], c.ring.mode);
    var _ := SeatPosition(c, x, req.key);
    ForwardLeaves(c.hist, c.ring, Seat(c, x), local, req, req.key);
    ForwardWithin(c, x, local, req, rest, p);
    var e := Forward(c.ring, Seat(c, x), local, req);
    assert SetCore(View(c, req.key), p, Core(e.local, req.key)) == SkipAt(View(c, req.key), p, req.version);
  }

  lemma TailTestIsPlain(c: Cluster, x: NodeId, req: PutRequest)
    requires Base(c) && c.ring.mode == CHAIN && x in c.ring.members && Seat(c, x) == c.ring.TailIndex(req.key)
    ensures PlainTest(c.ring.mode, c.servers[x].store, req)
  {
    hide Base, View, WeakInv, Top;
    BaseParts(c, req.key);
    var p := TopIsLatest(c, x, req.key);
    Positions(c.ring, req.key, Seat(c, x));
    TailLeadsChain(View(c, req.key), p);
  }

  lemma AnyForwardArrives(c: Cluster, i: nat, key: Key)
    requires Base(c) && Enabled(c, Deliver(i)) && c.net[i].ForwardPut?
    ensures Shape(Apply(c, Deliver(i)))
    ensures Shape(c) && |View(c, key).slots| >= 1 && ChainStep(View(c, key), View(Apply(c, Deliver(i)), key))
  {
    hide Base, Genuine, WeakInv, Lines.Step, ForwardedWrite, Top, PlainTest, View;
    BaseParts(c, key);
    SomeSlot(View(c, key));
    var x, req := c.net[i].to, c.net[i].req;
    if key != req.key || PlainTest(c.ring.mode, c.servers[x].store, req) {
      ForwardArrives(c, i, key);
    } else if req.epoch < c.ring.epoch {
      OnlyLoss(c, RemoveAt(c.net, i), key);
      LossIsStep(c, RemoveAt(c.net, i), key);
    } else {
      ArrivesSkipped(c, i);
    }
  }

  lemma ArrivesSkipped(c: Cluster, i: nat)
    requires Base(c) && Enabled(c, Deliver(i)) && c.net[i].ForwardPut? && c.net[i].req.epoch >= c.ring.epoch
    requires !PlainTest(c.ring.mode, c.servers[c.net[i].to].store, c.net[i].req)
    ensures var key := c.net[i].req.key;
      Shape(Apply(c, Deliver(i))) && Shape(c) && |View(c, key).slots| >= 1
      && ChainStep(View(c, key), View(Apply(c, Deliver(i)), key))
  {
    hide Base, WeakInv, Lines.Step, ForwardedWrite, View, GoodServer, GoodRequest, Lines.Within, Highest, Genuine;
    var x, req := c.net[i].to, c.net[i].req;
    var key := req.key;
    var rest := RemoveAt(c.net, i);
    BaseParts(c, key);
    SomeSlot(View(c, key));
    DeliveredIsGenuine(c, i);
    StaleAboveClean(c.ring.mode, c.servers[x].store, req);
    if Seat(c, x) == c.ring.TailIndex(key) { TailTestIsPlain(c, x, req); }
    var p := TopIsLatest(c, x, key);
    var q := SeatPosition(c, x, key);
    var e := ForwardedWrite(c.ring, Seat(c, x), LocalOf(c.servers[x], c.ring.mode), req);
    Skipped(c, x, req, rest, p);
    InFlight(c.net, c.net[i]);
    FlightInView(c, key, p);
    ReactShape(c, x, e, rest);
    DeliveredWrite(c, i);
    assert FwdSkipped(View(c, key), View(React(c, x, e, rest), key), p, req.version);
  }

  lemma DeliveredIsGenuine(c: Cluster, i: nat)
    requires Genuine(c) && Enabled(c, Deliver(i)) && c.net[i].ForwardPut?
    ensures UniqueIds(c.hist) && GoodServer(c.hist, c.servers[c.net[i].to]) && GoodRequest(c.hist, c.net[i].req)
  {
    assert GoodMessage(c.hist, c.net[i]);
  }

  lemma ReactShape(c: Cluster, x: NodeId, e: Effect, rest: seq<Message>)
    requires Shape(c) && x in c.servers
    ensures Shape(React(c, x, e, rest))
  {
  }

  lemma DeliveredWrite(c: Cluster, i: nat)
    requires Shape(c) && Genuine(c) && Enabled(c, Deliver(i)) && c.net[i].ForwardPut? && c.net[i].req.epoch >= c.ring.epoch
    ensures var x, req := c.net[i].to, c.net[i].req;
      Apply(c, Deliver(i)) ==
      React(c, x, ForwardedWrite(c.ring, Seat(c, x), LocalOf(c.servers[x], c.ring.mode), req), RemoveAt(c.net, i))
  {
    hide ForwardedWrite;
    assert GoodMessage(c.hist, c.net[i]);
  }

  lemma FlightInView(c: Cluster, key: Key, p: nat)
    requires Shape(c) && p < |c.ring.members|
    ensures |View(c, key).slots| == |c.ring.members|
    ensures View(c, key).slots[p].fwd == FwdOf(c.net, c.ring.NodeAt(key, p), key)
  {
  }

  /** Only a stale write can fail the test of the clean record alone, and only in CHAIN mode. */
  lemma StaleAboveClean(mode: Mode, s: Store, req: PutRequest)
    requires !PlainTest(mode, s, req)
    ensures mode == CHAIN && IsStale(mode, s, req) && req.version <= LatestVersion(s, req.key)
  {
  }

  /** In every mode, every action on a fixed ring is, on the chain of every key, a step of that chain. */
  lemma AnyActionIsStep(c: Cluster, a: Action, key: Key)
    requires Base(c) && Enabled(c, a) && FixedRing(a)
    ensures Shape(c) && Shape(Apply(c, a)) && |View(c, key).slots| >= 1
    ensures ChainStep(View(c, key), View(Apply(c, a), key))
  {
    hide WeakInv, Lines.Step, View, UniqueIds, GoodNet, TakePut, HeadKnows;
    assert WeakInv(View(c, key));
    SomeSlot(View(c, key));
    match a {
      case ClientPut(x, req) =>
        BaseHeadKnows(c, x, req.key);
        PutIsStep(c, x, req, key);
      case Deliver(i) =>
        if c.net[i].ForwardPut? { AnyForwardArrives(c, i, key); }
        else if c.net[i].WriteAck? { AckArrives(c, i, key); }
        else { LossIsStep(c, RemoveAt(c.net, i), key); }
      case Retry(x, id) =>
        assert GoodServer(c.hist, c.servers[x]);
        RetryIsStep(c, x, id, key);
      case Lose(i) => LossIsStep(c, RemoveAt(c.net, i), key);
      case Duplicate(i) => LossIsStep(c, c.net + [c.net[i]], key);
    }
  }

  lemma BaseKeepsGenuine(c: Cluster, a: Action)
    requires Base(c) && Enabled(c, a) && FixedRing(a)
    ensures Genuine(Apply(c, a)) && Apply(c, a).ring == c.ring
  {
    hide Genuine, View, WeakInv, Apply, Enabled, HeadKnows;
    if a.ClientPut? {
      assert a.node in c.ring.members by { PutAtMember(c, a); }
      BaseHeadKnows(c, a.node, a.req.key);
    }
    EveryActionKeepsGenuine(c, a);
    RingStays(c, a);
  }

  lemma PutAtMember(c: Cluster, a: Action)
    requires Enabled(c, a) && a.ClientPut?
    ensures a.node in c.ring.members
  {
  }

  /** On a fixed ring, in every mode, every action keeps what all modes have in common, and makes nothing older. */
  lemma ActionKeepsBase(c: Cluster, a: Action)
    requires Base(c) && Enabled(c, a) && FixedRing(a)
    ensures Base(Apply(c, a)) && Shape(c) && Shape(Apply(c, a))
    ensures forall key :: Advances(View(c, key), View(Apply(c, a), key))
  {
    hide WeakInv, TailClean, ChainStep, Advances, View, Genuine, Enabled, Apply;
    BaseKeepsGenuine(c, a);
    AnyActionIsStep(c, a, []);
    forall key
      ensures WeakInv(View(Apply(c, a), key)) && Advances(View(c, key), View(Apply(c, a), key))
      ensures c.ring.mode == CHAIN ==> TailClean(View(Apply(c, a), key))
    {
      AnyActionIsStep(c, a, key);
      assert WeakInv(View(c, key));
      ChainStepKeepsInv(View(c, key), View(Apply(c, a), key));
      if c.ring.mode == CHAIN {
        assert TailClean(View(c, key));
        ChainStepKeepsTailClean(View(c, key), View(Apply(c, a), key));
      }
    }
  }

  /** On a fixed ring every action keeps the invariant of the mode; in CRAQ and CROWN no replica forgets anything. */
  lemma ActionKeepsMode(c: Cluster, a: Action)
    requires ModeInv(c) && Enabled(c, a) && FixedRing(a)
    ensures ModeInv(Apply(c, a)) && Shape(c) && Shape(Apply(c, a)) && Apply(c, a).ring == c.ring
    ensures forall key :: Advances(View(c, key), View(Apply(c, a), key))
    ensures c.ring.mode != CHAIN ==> forall key :: Lines.Grows(View(c, key), View(Apply(c, a), key))
  {
    hide Base, Inv, Advances, Lines.Grows, View, Enabled, Apply;
    ActionKeepsBase(c, a);
    RingStays(c, a);
    if c.ring.mode != CHAIN { ActionKeepsInv(c, a); }
  }

  /** A fresh cluster satisfies it. */
  lemma FreshIsBase(c: Cluster)
    requires Init(c)
    ensures Base(c) && ModeInv(c)
  {
    forall key ensures WeakInv(View(c, key)) && TailClean(View(c, key)) {
      assert forall p :: 0 <= p < |c.ring.members| ==> c.ring.NodeAt(key, p) in c.servers;
      FreshLineWeakInv(View(c, key));
    }
    if c.ring.mode != CHAIN { InitInv(c); }
  }

  // ---------- the tail ----------

  /** No member is ahead of the tail, and none is without something as new as the tail's. In CHAIN mode the tail has nothing
      dirty between handlers. */
  lemma TailIsAhead(c: Cluster, x: NodeId, key: Key)
    requires Base(c) && x in c.ring.members
    ensures Shape(c) && CleanVersion(c.servers[x].store, key) <= TailVersion(c, key) <= |Hist(c, key)|
    ensures TailVersion(c, key) <= LatestVersion(c.servers[x].store, key)
    ensures Seat(c, x) == c.ring.TailIndex(key) ==> CleanVersion(c.servers[x].store, key) == TailVersion(c, key)
    ensures c.ring.mode == CHAIN && Seat(c, x) == c.ring.TailIndex(key) ==>
      && DirtyAt(c.servers[x].store, key) == map[]
      && LatestVersion(c.servers[x].store, key) == CleanVersion(c.servers[x].store, key)
  {
    hide Base, View, WeakInv, LatestVersion, CleanVersion, DirtyAt, Top;
    BaseParts(c, key);
    var p := TopIsLatest(c, x, key);
    TailSlot(c, key);
    TailLeadsChain(View(c, key), p);
    Positions(c.ring, key, Seat(c, x));
    if c.ring.mode == CHAIN && Seat(c, x) == c.ring.TailIndex(key) {
      assert DirtyAt(c.servers[x].store, key).Keys == {};
    }
  }

  lemma CommittedIsAccepted(c: Cluster, key: Key)
    requires Base(c)
    ensures Shape(c) && TailVersion(c, key) <= |Hist(c, key)|
  {
    BaseParts(c, key);
    hide Base;
    TailIsAhead(c, c.ring.members[0], key);
  }

  lemma TailAdvances(c: Cluster, d: Cluster, x: NodeId, key: Key)
    requires Shape(c) && Shape(d) && d.ring == c.ring && Advances(View(c, key), View(d, key))
    ensures TailVersion(c, key) <= TailVersion(d, key)
    ensures x in c.ring.members ==> CleanVersion(c.servers[x].store, key) <= CleanVersion(d.servers[x].store, key)
  {
    hide View, Top, CleanVersion;
    TailSlot(c, key);
    TailSlot(d, key);
    if x in c.ring.members {
      var p := MemberSlot(c, x, key);
      var q := MemberSlot(d, x, key);
    }
  }
}
