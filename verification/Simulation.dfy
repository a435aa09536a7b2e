/** Every step of the cluster is, for every key, a step of that key's chain or only loses messages. */
module Simulation {
  import opened Types
  import opened Rings
  import opened Stores
  import opened Handlers
  import opened Clusters
  import opened Views
  import Lines

  // ---------- messages ----------

  lemma NetUnion(a: seq<Message>, b: seq<Message>, x: NodeId, key: Key)
    ensures FwdOf(a + b, x, key) == FwdOf(a, x, key) + FwdOf(b, x, key)
    ensures AckOf(a + b, x, key) == AckOf(a, x, key) + AckOf(b, x, key)
    ensures CommitsOf(a + b, key) == CommitsOf(a, key) + CommitsOf(b, key)
  {
  }

  lemma NetShrinks(a: seq<Message>, b: seq<Message>, x: NodeId, key: Key)
    requires forall m :: m in a ==> m in b
    ensures FwdOf(a, x, key) <= FwdOf(b, x, key)
    ensures AckOf(a, x, key) <= AckOf(b, x, key)
    ensures CommitsOf(a, key) <= CommitsOf(b, key)
  {
  }

  lemma ForwardSets(to: NodeId, req: PutRequest, x: NodeId, key: Key)
    ensures FwdOf([ForwardPut(to, req)], x, key) == if x == to && key == req.key then {req.version} else {}
    ensures AckOf([ForwardPut(to, req)], x, key) == {} && CommitsOf([ForwardPut(to, req)], key) == {}
  {
    if x == to && key == req.key {
      assert ForwardPut(to, req) in [ForwardPut(to, req)];
    }
  }

  lemma AckSets(req: PutRequest, to: Option<NodeId>, x: NodeId, key: Key)
    ensures FwdOf(AckFor(req, to), x, key) == {}
    ensures AckOf(AckFor(req, to), x, key) == if to == Some(x) && key == req.key then {req.version} else {}
    ensures CommitsOf(AckFor(req, to), key) ==
            if to.None? && req.client.Some? && key == req.key then {req.version} else {}
  {
    var out := AckFor(req, to);
    if out != [] { assert out[0] in out; }
  }

  // ---------- the frame of a reaction ----------

  /** The parts of a slot that a server holds itself. */
  predicate SameCore(a: Lines.Slot, b: Lines.Slot) {
    a.cv == b.cv && a.dirty == b.dirty && a.pend == b.pend
  }

  function SetCore(l: Lines.Line, p: nat, core: Lines.Slot): Lines.Line
    requires p < |l.slots|
  {
    l.(slots := l.slots[p := core.(fwd := l.slots[p].fwd, ack := l.slots[p].ack)])
  }

  /** A line with some more messages in flight. */
  function Emit(l: Lines.Line, r: Ring, key: Key, out: seq<Message>): Lines.Line
    requires |l.slots| == |r.members|
  {
    Lines.Line(l.latest,
               seq(|l.slots|, q requires 0 <= q < |l.slots| =>
                 l.slots[q].(fwd := l.slots[q].fwd + FwdOf(out, r.NodeAt(key, q), key),
                             ack := l.slots[q].ack + AckOf(out, r.NodeAt(key, q), key))),
               l.commits + CommitsOf(out, key))
  }

  /** A reaction changes what the reacting server holds and adds what it sends. */
  lemma ReactWithin(c: Cluster, x: NodeId, e: Effect, rest: seq<Message>, key: Key, p: nat)
    requires Shape(c) && p < |c.ring.members| && x == c.ring.NodeAt(key, p)
    requires forall msg :: msg in rest ==> msg in c.net
    ensures Shape(React(c, x, e, rest))
    ensures Lines.Within(View(React(c, x, e, rest), key),
                         Emit(SetCore(View(c, key), p, Core(e.local, key)), c.ring, key, e.out))
  {
    var m := Emit(SetCore(View(c, key), p, Core(e.local, key)), c.ring, key, e.out);
    var l' := View(React(c, x, e, rest), key);
    forall q | 0 <= q < |l'.slots|
      ensures SameCore(l'.slots[q], m.slots[q])
      ensures l'.slots[q].fwd <= m.slots[q].fwd && l'.slots[q].ack <= m.slots[q].ack
    {
      var y := c.ring.NodeAt(key, q);
      NodesDistinct(c.ring, key, p, q);
      NetUnion(rest, e.out, y, key);
      NetShrinks(rest, c.net, y, key);
    }
    NetUnion(rest, e.out, x, key);
    NetShrinks(rest, c.net, x, key);
  }

  lemma EmitNothing(l: Lines.Line, r: Ring, key: Key)
    requires |l.slots| == |r.members|
    ensures Emit(l, r, key, []) == l
  {
    forall q | 0 <= q < |l.slots| ensures Emit(l, r, key, []).slots[q] == l.slots[q] {
      assert FwdOf([], r.NodeAt(key, q), key) == {} && AckOf([], r.NodeAt(key, q), key) == {};
    }
    assert Emit(l, r, key, []).slots == l.slots;
  }

  lemma EmitBoth(l: Lines.Line, r: Ring, key: Key, a: seq<Message>, b: seq<Message>)
    requires |l.slots| == |r.members|
    ensures Emit(l, r, key, a + b) == Emit(Emit(l, r, key, a), r, key, b)
  {
    var m, n := Emit(l, r, key, a + b), Emit(Emit(l, r, key, a), r, key, b);
    forall q | 0 <= q < |l.slots| ensures m.slots[q] == n.slots[q] { NetUnion(a, b, r.NodeAt(key, q), key); }
    assert m.slots == n.slots;
    NetUnion(a, b, "", key);
  }

  lemma EmitForward(l: Lines.Line, r: Ring, key: Key, p: nat, req: PutRequest)
    requires r.Valid() && |l.slots| == |r.members| && p < |l.slots|
    ensures Emit(l, r, key, [ForwardPut(r.NodeAt(key, p), req)]) ==
            if key == req.key then Lines.AddFwd(l, p, req.version) else l
  {
    var out := [ForwardPut(r.NodeAt(key, p), req)];
    var m := if key == req.key then Lines.AddFwd(l, p, req.version) else l;
    forall q | 0 <= q < |l.slots| ensures Emit(l, r, key, out).slots[q] == m.slots[q] {
      ForwardSets(r.NodeAt(key, p), req, r.NodeAt(key, q), key);
      NodesDistinct(r, key, p, q);
    }
    assert Emit(l, r, key, out).slots == m.slots;
    ForwardSets(r.NodeAt(key, p), req, "", key);
  }

  lemma EmitAck(l: Lines.Line, r: Ring, key: Key, p: nat, req: PutRequest)
    requires r.Valid() && |l.slots| == |r.members| && p < |l.slots|
    ensures Emit(l, r, key, AckFor(req, Some(r.NodeAt(key, p)))) ==
            if key == req.key then Lines.AddAck(l, p, req.version) else l
  {
    var out := AckFor(req, Some(r.NodeAt(key, p)));
    var m := if key == req.key then Lines.AddAck(l, p, req.version) else l;
    forall q | 0 <= q < |l.slots| ensures Emit(l, r, key, out).slots[q] == m.slots[q] {
      AckSets(req, Some(r.NodeAt(key, p)), r.NodeAt(key, q), key);
      NodesDistinct(r, key, p, q);
    }
    assert Emit(l, r, key, out).slots == m.slots;
    AckSets(req, Some(r.NodeAt(key, p)), "", key);
  }

  lemma EmitCommit(l: Lines.Line, r: Ring, key: Key, req: PutRequest)
    requires |l.slots| == |r.members|
    ensures Lines.Within(Emit(l, r, key, AckFor(req, None)), if key == req.key then Lines.AddCommit(l, req.version) else l)
    ensures key != req.key ==> Emit(l, r, key, AckFor(req, None)) == l
  {
    var out := AckFor(req, None);
    forall q | 0 <= q < |l.slots| ensures Emit(l, r, key, out).slots[q] == l.slots[q] {
      AckSets(req, None, r.NodeAt(key, q), key);
    }
    assert Emit(l, r, key, out).slots == l.slots;
    AckSets(req, None, "", key);
  }

  lemma WithinTransitive(a: Lines.Line, b: Lines.Line, c: Lines.Line)
    requires Lines.Within(a, b) && Lines.Within(b, c)
    ensures Lines.Within(a, c)
  {
  }

  /** The seat of a member is at some position of every chain. */
  lemma SeatPosition(c: Cluster, x: NodeId, key: Key) returns (p: nat)
    requires Shape(c) && x in c.ring.members
    ensures p < |c.ring.members| && p == c.ring.PosOf(key, Seat(c, x)) && x == c.ring.NodeAt(key, p)
    ensures Seat(c, x) < |c.ring.members| && c.ring.members[Seat(c, x)] == x
    ensures Seat(c, x) == c.ring.HeadIndex(key) <==> p == 0
    ensures Seat(c, x) == c.ring.TailIndex(key) <==> p == |c.ring.members| - 1
    ensures |c.ring.members| > 1 ==>
      && Next(c.ring, Seat(c, x)) == Some(c.ring.NodeAt(key, if p + 1 < |c.ring.members| then p + 1 else 0))
      && (p > 0 ==> Prev(c.ring, Seat(c, x)) == Some(c.ring.NodeAt(key, p - 1)))
  {
    var i := Seat(c, x);
    p := c.ring.PosOf(key, i);
    Positions(c.ring, key, i);
    Neighbours(c.ring, key, i);
    if |c.ring.members| > 1 {
      Positions(c.ring, key, c.ring.NextIndex(i));
      Positions(c.ring, key, c.ring.PrevIndex(i));
    }
  }

  // ---------- reactions by what they send ----------

  lemma ViewLength(c: Cluster, key: Key)
    requires Shape(c)
    ensures |View(c, key).slots| == |c.ring.members|
  {
  }

  /** What the server at position p holds is what its slot shows. */
  lemma SlotCore(c: Cluster, x: NodeId, key: Key, p: nat)
    requires Shape(c) && p < |c.ring.members| && x == c.ring.NodeAt(key, p)
    ensures |View(c, key).slots| == |c.ring.members|
    ensures SameCore(View(c, key).slots[p], Core(LocalOf(c.servers[x], c.ring.mode), key))
    ensures View(c, key).latest == |Hist(c, key)|
  {
  }

  /** A forwarded copy goes to the next position. */
  lemma ForwardWithin(c: Cluster, x: NodeId, local: Local, req: PutRequest, rest: seq<Message>, p: nat)
    requires Shape(c) && x in c.ring.members && |c.ring.members| > 1
    requires forall msg :: msg in rest ==> msg in c.net
    requires p == c.ring.PosOf(req.key, Seat(c, x)) && x == c.ring.NodeAt(req.key, p)
    ensures var e := Forward(c.ring, Seat(c, x), local, req);
            var m := SetCore(View(c, req.key), p, Core(e.local, req.key));
            Shape(React(c, x, e, rest)) &&
            Lines.Within(View(React(c, x, e, rest), req.key), Lines.AddFwd(m, Lines.Successor(|m.slots|, p), req.version))
  {
    hide FwdOf, AckOf, CommitsOf, PendOf, Core, View, React, Emit, Lines.Within;
    var e := Forward(c.ring, Seat(c, x), local, req);
    ViewLength(c, req.key);
    var m := SetCore(View(c, req.key), p, Core(e.local, req.key));
    var _ := SeatPosition(c, x, req.key);
    ReactWithin(c, x, e, rest, req.key, p);
    EmitForward(m, c.ring, req.key, Lines.Successor(|m.slots|, p), req.(epoch := c.ring.epoch));
  }

  /** A reaction that sends nothing. */
  lemma SilentWithin(c: Cluster, x: NodeId, local: Local, rest: seq<Message>, key: Key, p: nat)
    requires Shape(c) && p < |c.ring.members| && x == c.ring.NodeAt(key, p)
    requires forall msg :: msg in rest ==> msg in c.net
    ensures var e := Effect(local, []);
            Shape(React(c, x, e, rest)) &&
            Lines.Within(View(React(c, x, e, rest), key), SetCore(View(c, key), p, Core(local, key)))
  {
    ReactWithin(c, x, Effect(local, []), rest, key, p);
    EmitNothing(SetCore(View(c, key), p, Core(local, key)), c.ring, key);
  }

  /** An acknowledgement goes to the previous position. */
  lemma AckWithin(c: Cluster, x: NodeId, local: Local, req: PutRequest, rest: seq<Message>, p: nat)
    requires Shape(c) && x in c.ring.members
    requires forall msg :: msg in rest ==> msg in c.net
    requires 0 < p == c.ring.PosOf(req.key, Seat(c, x)) && x == c.ring.NodeAt(req.key, p)
    ensures var e := Effect(local, AckFor(req, Prev(c.ring, Seat(c, x))));
            var m := SetCore(View(c, req.key), p, Core(local, req.key));
            Shape(React(c, x, e, rest)) &&
            Lines.Within(View(React(c, x, e, rest), req.key), Lines.AddAck(m, p - 1, req.version))
  {
    hide FwdOf, AckOf, CommitsOf, PendOf, Core, View, React, Emit, Lines.Within, AckFor;
    var e := Effect(local, AckFor(req, Prev(c.ring, Seat(c, x))));
    ViewLength(c, req.key);
    var m := SetCore(View(c, req.key), p, Core(local, req.key));
    var _ := SeatPosition(c, x, req.key);
    ReactWithin(c, x, e, rest, req.key, p);
    EmitAck(m, c.ring, req.key, p - 1, req);
  }

  predicate About(m: Message, key: Key) {
    match m
    case ForwardPut(_, req) => req.key == key
    case WriteAck(_, _, k, _, _) => k == key
    case CommitAck(_, k, _) => k == key
  }

  /** Messages about another key do not show. */
  lemma EmitOther(l: Lines.Line, r: Ring, key: Key, out: seq<Message>, other: Key)
    requires |l.slots| == |r.members| && key != other
    requires forall m :: m in out ==> About(m, other)
    ensures Emit(l, r, key, out) == l
  {
    forall q | 0 <= q < |l.slots| ensures Emit(l, r, key, out).slots[q] == l.slots[q] {
      assert FwdOf(out, r.NodeAt(key, q), key) == {} && AckOf(out, r.NodeAt(key, q), key) == {};
    }
    assert CommitsOf(out, key) == {};
    assert Emit(l, r, key, out).slots == l.slots;
  }

  /** A reaction to a message about another key shows in this key's chain at most as lost messages. */
  lemma OtherKeyWithin(c: Cluster, x: NodeId, e: Effect, rest: seq<Message>, key: Key, other: Key)
    requires Shape(c) && x in c.ring.members && key != other
    requires forall msg :: msg in rest ==> msg in c.net
    requires forall m :: m in e.out ==> About(m, other)
    requires Core(e.local, key) == Core(LocalOf(c.servers[x], c.ring.mode), key)
    ensures Shape(React(c, x, e, rest)) && Lines.Within(View(React(c, x, e, rest), key), View(c, key))
  {
    var p := SeatPosition(c, x, key);
    ReactWithin(c, x, e, rest, key, p);
    var m := SetCore(View(c, key), p, Core(e.local, key));
    EmitOther(m, c.ring, key, e.out, other);
    assert m.slots == View(c, key).slots;
  }

  /** What the tail sends: an acknowledgement to the predecessor, if there is one, and a commit notice. */
  lemma TailEmits(m: Lines.Line, r: Ring, i: nat, req: PutRequest, p: nat)
    requires r.Valid() && |m.slots| == |r.members| == p + 1 && i < |r.members|
    requires p > 0 ==> Prev(r, i) == Some(r.NodeAt(req.key, p - 1))
    ensures var done := Lines.AddCommit(m, req.version);
      Lines.Within(Emit(m, r, req.key, TailOut(r, i, req)), if p == 0 then done else Lines.AddAck(done, p - 1, req.version))
  {
    hide FwdOf, AckOf, CommitsOf, Emit, AckFor;
    var key := req.key;
    var notice := AckFor(req, None);
    var back := if Prev(r, i).Some? || r.mode == CHAIN then AckFor(req, Prev(r, i)) else [];
    EmitBoth(m, r, key, back, notice);
    if p > 0 {
      EmitAck(m, r, key, p - 1, req);
      EmitCommit(Emit(m, r, key, back), r, key, req);
    } else if r.mode == CHAIN {
      EmitCommit(m, r, key, req);
      SlotsKept(m, r, key, notice);
      EmitCommit(Emit(m, r, key, notice), r, key, req);
      NoticeTwice(m, Emit(m, r, key, notice), Emit(Emit(m, r, key, notice), r, key, notice), req.version);
    } else {
      EmitNothing(m, r, key);
      EmitCommit(m, r, key, req);
    }
  }

  lemma SlotsKept(l: Lines.Line, r: Ring, key: Key, out: seq<Message>)
    requires |l.slots| == |r.members|
    ensures |Emit(l, r, key, out).slots| == |l.slots|
  {
  }

  lemma NoticeTwice(l: Lines.Line, m: Lines.Line, n: Lines.Line, v: nat)
    requires Lines.Within(m, Lines.AddCommit(l, v)) && Lines.Within(n, Lines.AddCommit(m, v))
    ensures Lines.Within(n, Lines.AddCommit(l, v))
  {
  }

  lemma CommitWithin(c: Cluster, x: NodeId, local: Local, req: PutRequest, rest: seq<Message>, p: nat)
    requires Shape(c) && x in c.ring.members
    requires forall msg :: msg in rest ==> msg in c.net
    requires p == c.ring.PosOf(req.key, Seat(c, x)) && x == c.ring.NodeAt(req.key, p)
    requires p == |c.ring.members| - 1
    ensures var e := Effect(local, TailOut(c.ring, Seat(c, x), req));
            var m := SetCore(View(c, req.key), p, Core(local, req.key));
            var done := Lines.AddCommit(m, req.version);
            Shape(React(c, x, e, rest)) &&
            Lines.Within(View(React(c, x, e, rest), req.key),
                         if p == 0 then done else Lines.AddAck(done, p - 1, req.version))
  {
    hide FwdOf, AckOf, CommitsOf, PendOf, Core, View, React, Emit, Lines.Within, AckFor, TailOut;
    var key := req.key;
    var e := Effect(local, TailOut(c.ring, Seat(c, x), req));
    ViewLength(c, key);
    var m := SetCore(View(c, key), p, Core(local, key));
    var done := Lines.AddCommit(m, req.version);
    var _ := SeatPosition(c, x, key);
    ReactWithin(c, x, e, rest, key, p);
    TailEmits(m, c.ring, Seat(c, x), req, p);
    WithinTransitive(View(React(c, x, e, rest), key), Emit(m, c.ring, key, e.out),
      if p == 0 then done else Lines.AddAck(done, p - 1, req.version));
  }
}
