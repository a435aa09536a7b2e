/** Every run without new client writes, duplication or reconfiguration is finite, retries included. */
module Termination {
  import opened Types
  import opened Rings
  import opened Stores
  import opened Handlers
  import opened Clusters
  import opened Views
  import opened Steps
  import opened Invariants
  import opened AllModes
  import Lines

  // ---------- weights ----------

  /** What a forwarded write to position p can still cause: it may be filed as pending and sent on four times. */
  function ForwardWeight(n: nat, p: nat): (w: nat)
    ensures w >= n + 2
    decreases n - p
  {
    if p + 1 >= n then n + 2 else 4 * ForwardWeight(n, p + 1) + 4
  }

  function Position(r: Ring, key: Key, x: NodeId): nat {
    if x in r.members then r.PosOf(key, SeatOf(r.members, x)) else 0
  }

  function Weight(r: Ring, m: Message): (w: nat)
    ensures w >= 1
  {
    match m
    case ForwardPut(x, req) => ForwardWeight(|r.members|, Position(r, req.key, x))
    case WriteAck(x, _, key, _, _) => Position(r, key, x) + 1
    case CommitAck(_, _, _) => 1
  }

  function NetWeight(r: Ring, net: seq<Message>): nat {
    if net == [] then 0 else NetWeight(r, net[..|net| - 1]) + Weight(r, net[|net| - 1])
  }

  function Product(a: nat, b: nat): nat {
    a * b
  }

  /** What the remaining retries of a pending write at seat i can still cause. */
  function EntryWeight(r: Ring, i: nat, entry: Pending): nat
    requires i < |r.members|
  {
    var left := if entry.retries < MAX_RETRIES then MAX_RETRIES - entry.retries else 0;
    Product(left, ForwardWeight(|r.members|, Lines.Successor(|r.members|, r.PosOf(entry.req.key, i))) + 1)
  }

  ghost function SomeId(table: Table): (id: ReqId)
    requires table != map[]
    ensures id in table
  {
    assert table.Keys != {};
    var id :| id in table.Keys;
    id
  }

  ghost function TableWeight(r: Ring, i: nat, table: Table): nat
    requires i < |r.members|
    decreases |table|
  {
    if table == map[] then 0
    else
      var id := SomeId(table);
      EntryWeight(r, i, table[id]) + TableWeight(r, i, table - {id})
  }

  ghost function SeatsWeight(c: Cluster, k: nat): nat
    requires Shape(c) && k <= |c.ring.members|
  {
    if k == 0 then 0
    else SeatsWeight(c, k - 1) + TableWeight(c.ring, k - 1, TableOf(c.servers[c.ring.members[k - 1]], c.ring.mode))
  }

  /** The weight of everything in flight and of all remaining retries. */
  ghost function Measure(c: Cluster): nat
    requires Shape(c)
  {
    NetWeight(c.ring, c.net) + SeatsWeight(c, |c.ring.members|)
  }

  // ---------- sums ----------

  lemma {:induction false} NetWeightConcat(r: Ring, a: seq<Message>, b: seq<Message>)
    ensures NetWeight(r, a + b) == NetWeight(r, a) + NetWeight(r, b)
  {
    if b == [] {
      assert a + b == a;
    } else {
      NetWeightConcat(r, a, b[..|b| - 1]);
      assert (a + b)[..|a + b| - 1] == a + b[..|b| - 1];
    }
  }

  lemma NetWeightRemove(r: Ring, net: seq<Message>, i: nat)
    requires i < |net|
    ensures NetWeight(r, net) == NetWeight(r, RemoveAt(net, i)) + Weight(r, net[i])
  {
    assert net == net[..i] + [net[i]] + net[i + 1..];
    NetWeightConcat(r, net[..i] + [net[i]], net[i + 1..]);
    NetWeightConcat(r, net[..i], [net[i]]);
    NetWeightConcat(r, net[..i], net[i + 1..]);
    assert [net[i]][..0] == [];
  }

  lemma {:induction false} TableWeightWithout(r: Ring, i: nat, table: Table, id: ReqId)
    requires i < |r.members| && id in table
    ensures TableWeight(r, i, table) == EntryWeight(r, i, table[id]) + TableWeight(r, i, table - {id})
    decreases |table|
  {
    var first := SomeId(table);
    if first != id {
      TableWeightWithout(r, i, table - {first}, id);
      TableWeightWithout(r, i, table - {id}, first);
      assert table - {first} - {id} == table - {id} - {first};
    }
  }

  /** Filing an entry in a table replaces the weight of the old one. */
  lemma TableWeightUpdate(r: Ring, i: nat, table: Table, id: ReqId, entry: Pending)
    requires i < |r.members|
    ensures TableWeight(r, i, table[id := entry]) ==
            TableWeight(r, i, table) - (if id in table then EntryWeight(r, i, table[id]) else 0) + EntryWeight(r, i, entry)
  {
    var t := table[id := entry];
    TableWeightWithout(r, i, t, id);
    if id in table {
      TableWeightWithout(r, i, table, id);
      assert t - {id} == table - {id};
    } else {
      assert t - {id} == table;
    }
  }

  lemma {:induction false} SeatsWeightChange(c: Cluster, d: Cluster, i: nat, k: nat)
    requires Shape(c) && Shape(d) && d.ring == c.ring && i < |c.ring.members| && k <= |c.ring.members|
    requires forall j :: 0 <= j < |c.ring.members| && j != i ==>
      TableOf(d.servers[c.ring.members[j]], c.ring.mode) == TableOf(c.servers[c.ring.members[j]], c.ring.mode)
    ensures var x := c.ring.members[i];
      SeatsWeight(d, k) == SeatsWeight(c, k)
        + (if i < k then TableWeight(c.ring, i, TableOf(d.servers[x], c.ring.mode))
                         - TableWeight(c.ring, i, TableOf(c.servers[x], c.ring.mode)) else 0)
  {
    if k > 0 {
      SeatsWeightChange(c, d, i, k - 1);
    }
  }

  /** A reaction changes the measure by what it adds to the network and to the reacting server's table. */
  lemma ReactMeasure(c: Cluster, x: NodeId, e: Effect, rest: seq<Message>)
    requires Shape(c) && x in c.ring.members
    ensures var d := React(c, x, e, rest);
      && Shape(d) && Seat(c, x) < |c.ring.members|
      && Measure(d) == NetWeight(c.ring, rest) + NetWeight(c.ring, e.out) + SeatsWeight(c, |c.ring.members|)
           + TableWeight(c.ring, Seat(c, x), e.local.table)
           - TableWeight(c.ring, Seat(c, x), TableOf(c.servers[x], c.ring.mode))
  {
    var d := React(c, x, e, rest);
    var i := Seat(c, x);
    forall j | 0 <= j < |c.ring.members| && j != i
      ensures TableOf(d.servers[c.ring.members[j]], c.ring.mode) == TableOf(c.servers[c.ring.members[j]], c.ring.mode)
    {
      assert c.ring.members[j] != c.ring.members[i];
    }
    TablesAfter(c.servers[x], c.ring.mode, e.local, c.ring.mode);
    SeatsWeightChange(c, d, i, |c.ring.members|);
    NetWeightConcat(c.ring, rest, e.out);
  }

  lemma OneMessage(r: Ring, m: Message)
    ensures NetWeight(r, [m]) == Weight(r, m)
  {
    assert [m][..0] == [];
  }

  // ---------- handlers ----------

  /** The successor's position, as the weight of a message to it sees it. */
  lemma NextPosition(r: Ring, i: nat, key: Key)
    requires r.Valid() && i < |r.members| && |r.members| > 1
    ensures Position(r, key, Next(r, i).value) == Lines.Successor(|r.members|, r.PosOf(key, i))
    ensures r.PosOf(key, i) > 0 ==> Position(r, key, Prev(r, i).value) == r.PosOf(key, i) - 1
  {
    Neighbours(r, key, i);
    SeatUnique(r, r.NextIndex(i));
    SeatUnique(r, r.PrevIndex(i));
  }

  lemma AckWeight(r: Ring, i: nat, req: PutRequest)
    requires r.Valid() && i < |r.members|
    ensures |r.members| > 1 && r.PosOf(req.key, i) > 0 ==>
              NetWeight(r, AckFor(req, Prev(r, i))) == r.PosOf(req.key, i)
    ensures NetWeight(r, AckFor(req, None)) <= 1
  {
    if |r.members| > 1 && r.PosOf(req.key, i) > 0 {
      NextPosition(r, i, req.key);
      OneMessage(r, AckFor(req, Prev(r, i))[0]);
    }
    if req.client.Some? { OneMessage(r, AckFor(req, None)[0]); }
  }

  lemma FiledBefore(h: map<Key, seq<Write>>, table: Table, req: PutRequest)
    requires UniqueIds(h) && GoodTable(h, table) && GoodRequest(h, req) && req.id in table
    ensures table[req.id].req.key == req.key && table[req.id].req.version == req.version
  {
    var filed := table[req.id].req;
    assert h[filed.key][filed.version - 1].id == h[req.key][req.version - 1].id;
  }

  /** Filing a write again costs nothing; filing it for the first time costs all its retries. */
  lemma StageCost(r: Ring, i: nat, table: Table, req: PutRequest)
    requires i < |r.members|
    requires req.id in table ==> table[req.id].req.key == req.key
    ensures TableWeight(r, i, Handlers.Stage(table, req)) ==
            TableWeight(r, i, table) + if req.id in table then 0 else EntryWeight(r, i, Pending(req, 0))
  {
    hide TableWeight, ForwardWeight;
    TableWeightUpdate(r, i, table, req.id, Handlers.Stage(table, req)[req.id]);
  }

  /** Sending on costs one message to the successor plus the retries of a newly filed entry. */
  lemma ForwardCost(h: map<Key, seq<Write>>, r: Ring, i: nat, local: Local, req: PutRequest)
    requires r.Valid() && i < |r.members| && |r.members| > 1
    requires UniqueIds(h) && GoodTable(h, local.table) && GoodRequest(h, req)
    ensures var e := Forward(r, i, local, req);
      var next := ForwardWeight(|r.members|, Lines.Successor(|r.members|, r.PosOf(req.key, i)));
      && NetWeight(r, e.out) == next
      && TableWeight(r, i, e.local.table) ==
         TableWeight(r, i, local.table) + (if req.id in local.table then 0 else 3 * (next + 1))
  {
    hide TableWeight, ForwardWeight, NetWeight, GoodTable, GoodRequest, UniqueIds;
    var stamped := req.(epoch := r.epoch);
    OneMessage(r, ForwardPut(Next(r, i).value, stamped));
    NextPosition(r, i, req.key);
    if req.id in local.table { FiledBefore(h, local.table, req); }
    StageCost(r, i, local.table, stamped);
  }

  lemma ForwardedWriteCost(h: map<Key, seq<Write>>, r: Ring, i: nat, local: Local, req: PutRequest)
    requires r.Valid() && i < |r.members|
    requires UniqueIds(h) && GoodTable(h, local.table) && GoodRequest(h, req)
    ensures var e := ForwardedWrite(r, i, local, req);
      NetWeight(r, e.out) + TableWeight(r, i, e.local.table) <
      ForwardWeight(|r.members|, r.PosOf(req.key, i)) + TableWeight(r, i, local.table)
  {
    var p := r.PosOf(req.key, i);
    Positions(r, req.key, i);
    if i == r.TailIndex(req.key) {
      AckWeight(r, i, req);
      if |r.members| > 1 {
        NetWeightConcat(r, AckFor(req, Prev(r, i)), AckFor(req, None));
      } else {
        NetWeightConcat(r, AckFor(req, None), AckFor(req, None));
        assert [] + AckFor(req, None) == AckFor(req, None);
      }
    } else {
      ForwardCost(h, r, i, local.(store := StoreForwarded(r.mode, local.store, req)), req);
    }
  }

  lemma AckCost(h: map<Key, seq<Write>>, r: Ring, i: nat, local: Local, m: Message)
    requires r.Valid() && i < |r.members|
    requires UniqueIds(h) && GoodTable(h, local.table) && GoodMessage(h, m) && m.WriteAck?
    ensures var e := HandleAck(r, i, local, m.id);
      NetWeight(r, e.out) + TableWeight(r, i, e.local.table) <=
      r.PosOf(m.ackKey, i) + TableWeight(r, i, local.table)
  {
    if m.id in local.table {
      AckFindsItsWrite(h, local.table, m);
      var req := local.table[m.id].req;
      TableWeightWithout(r, i, local.table, m.id);
      Positions(r, req.key, i);
      if i != r.HeadIndex(req.key) {
        AckWeight(r, i, req);
      }
    }
  }

  lemma RetryCost(h: map<Key, seq<Write>>, r: Ring, i: nat, local: Local, id: ReqId)
    requires r.Valid() && i < |r.members|
    requires UniqueIds(h) && GoodTable(h, local.table) && id in local.table && local.table[id].retries < MAX_RETRIES
    ensures var e := RetryOne(r, i, local, id);
      NetWeight(r, e.out) + TableWeight(r, i, e.local.table) < TableWeight(r, i, local.table)
  {
    hide TableWeight, ForwardWeight, NetWeight, GoodRequest, UniqueIds, PendOf;
    var entry := local.table[id];
    var counted := Pending(entry.req, entry.retries + 1);
    var table := local.table[id := counted];
    TableWeightUpdate(r, i, local.table, id, counted);
    RetryKeepsPends(h, local.table, id, entry.retries + 1, entry.req.key);
    OneRetry(r, i, entry);
    if |r.members| > 1 {
      ForwardCost(h, r, i, local.(table := table), entry.req);
    } else {
      assert NetWeight(r, []) == 0 by { NoMessage(r); }
    }
  }

  lemma NoMessage(r: Ring)
    ensures NetWeight(r, []) == 0
  {
  }

  /** A retry pays for the copy it sends, and one more. */
  lemma OneRetry(r: Ring, i: nat, entry: Pending)
    requires i < |r.members| && entry.retries < MAX_RETRIES
    ensures EntryWeight(r, i, Pending(entry.req, entry.retries + 1)) + 1
            + ForwardWeight(|r.members|, Lines.Successor(|r.members|, r.PosOf(entry.req.key, i))) == EntryWeight(r, i, entry)
  {
    hide ForwardWeight;
  }

  // ---------- the theorem ----------

  predicate Winding(a: Action) {
    a.Deliver? || a.Retry? || a.Lose?
  }

  lemma ReceiveDecreases(c: Cluster, i: nat)
    requires Shape(c) && Genuine(c) && Enabled(c, Deliver(i))
    ensures Shape(Receive(c, i)) && Measure(Receive(c, i)) < Measure(c)
  {
    hide Lines.Inv, View, ForwardedWrite, HandleAck, GoodStore;
    var m := c.net[i];
    var rest := RemoveAt(c.net, i);
    NetWeightRemove(c.ring, c.net, i);
    assert m in c.net && GoodMessage(c.hist, m);
    if m.CommitAck? || (m.ForwardPut? && m.req.epoch < c.ring.epoch) {
      SeatsWeightSame(c, c.(net := rest), |c.ring.members|);
    } else {
      var x := m.to;
      var local := LocalOf(c.servers[x], c.ring.mode);
      assert GoodServer(c.hist, c.servers[x]);
      if m.ForwardPut? {
        ForwardedWriteCost(c.hist, c.ring, Seat(c, x), local, m.req);
        ReactMeasure(c, x, ForwardedWrite(c.ring, Seat(c, x), local, m.req), rest);
      } else {
        AckCost(c.hist, c.ring, Seat(c, x), local, m);
        ReactMeasure(c, x, HandleAck(c.ring, Seat(c, x), local, m.id), rest);
      }
    }
  }

  lemma {:induction false} SeatsWeightSame(c: Cluster, d: Cluster, k: nat)
    requires Shape(c) && Shape(d) && d.ring == c.ring && d.servers == c.servers && k <= |c.ring.members|
    ensures SeatsWeight(d, k) == SeatsWeight(c, k)
  {
    if k > 0 { SeatsWeightSame(c, d, k - 1); }
  }

  /** Every delivery, every retry and every loss makes the measure smaller. */
  lemma WindingDecreases(c: Cluster, a: Action)
    requires Shape(c) && Genuine(c) && Enabled(c, a) && Winding(a)
    ensures Shape(Apply(c, a)) && Measure(Apply(c, a)) < Measure(c)
  {
    hide Lines.Inv, View, Receive, GoodStore;
    match a {
      case Deliver(i) => ReceiveDecreases(c, i);
      case Retry(x, id) =>
        var local := LocalOf(c.servers[x], c.ring.mode);
        assert GoodServer(c.hist, c.servers[x]);
        RetryCost(c.hist, c.ring, Seat(c, x), local, id);
        ReactMeasure(c, x, RetryOne(c.ring, Seat(c, x), local, id), c.net);
      case Lose(i) =>
        NetWeightRemove(c.ring, c.net, i);
        SeatsWeightSame(c, c.(net := RemoveAt(c.net, i)), |c.ring.members|);
    }
  }

  /** Wherever the data is genuine, a run of deliveries, retries and losses has at most `Measure` steps. */
  lemma {:induction false} GenuineRunsAreFinite(states: seq<Cluster>, actions: seq<Action>)
    requires Clusters.Run(states, actions)
    requires forall i :: 0 <= i < |states| ==> Shape(states[i]) && Genuine(states[i])
    requires forall i :: 0 <= i < |actions| ==> Winding(actions[i])
    ensures |actions| + Measure(states[|actions|]) <= Measure(states[0])
    decreases |actions|
  {
    hide Genuine, Measure, Enabled, Apply;
    if actions != [] {
      var n := |actions| - 1;
      GenuineRunsAreFinite(states[..n + 1], actions[..n]);
      WindingDecreases(states[n], actions[n]);
    }
  }

  lemma {:induction false} BaseAlongRun(states: seq<Cluster>, actions: seq<Action>, j: nat)
    requires Clusters.Run(states, actions) && Base(states[0]) && j < |states|
    requires forall i :: 0 <= i < |actions| ==> FixedRing(actions[i])
    ensures Base(states[j]) && Shape(states[j]) && Genuine(states[j])
  {
    hide Base, Enabled, Apply, Genuine;
    if j > 0 {
      BaseAlongRun(states, actions, j - 1);
      ActionKeepsBase(states[j - 1], actions[j - 1]);
    }
    BaseParts(states[j], []);
  }

  /** From any reachable state of any mode, a run of deliveries, retries and losses has at most `Measure` steps. */
  lemma WindingRunsAreFinite(states: seq<Cluster>, actions: seq<Action>)
    requires Clusters.Run(states, actions) && Base(states[0])
    requires forall i :: 0 <= i < |actions| ==> Winding(actions[i])
    ensures Base(states[|actions|]) && Shape(states[0]) && Shape(states[|actions|])
    ensures |actions| + Measure(states[|actions|]) <= Measure(states[0])
  {
    hide Base, Genuine, Measure, Enabled, Apply, Shape;
    forall j | 0 <= j < |states| ensures Base(states[j]) && Shape(states[j]) && Genuine(states[j]) {
      BaseAlongRun(states, actions, j);
    }
    GenuineRunsAreFinite(states, actions);
  }
}
