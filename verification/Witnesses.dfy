/** Runs that show what the theorems speak of, and why their guards are needed. */
module Witnesses {
  import opened Types
  import opened Rings
  import opened Stores
  import opened Handlers
  import opened Clusters
  import opened Views
  import opened Steps
  import opened Members
  import opened AllModes
  import opened Switching
  import opened Removals
  import opened Runs
  import opened Reads
  import opened Linearizability
  import opened Convergence
  import opened Notices
  import Collisions

  const IDLE: Server := Server(EMPTY, map[])

  ghost function First(req: PutRequest): PutRequest {
    req.(version := 1, epoch := 1)
  }

  // ---------- a ring of two ----------

  function PairStart(x: NodeId, y: NodeId): Cluster {
    Cluster(Ring([x, y], CRAQ, 1), map[x := IDLE, y := IDLE], [], map[])
  }

  /** After its first write, the head has it dirty and has sent it to the tail. */
  ghost predicate PairWritten(c: Cluster, x: NodeId, y: NodeId, req: PutRequest) {
    && c.ring == Ring([x, y], CRAQ, 1) && c.servers.Keys == {x, y}
    && c.net == [ForwardPut(y, First(req))] && c.hist == map[req.key := [WriteOf(req)]]
    && c.servers[x].store == AddDirty(EMPTY, req.key, Types.Record(1, req.value))
    && TableOf(c.servers[x], CRAQ) == map[req.id := Pending(First(req), 0)]
    && c.servers[y] == IDLE
  }

  lemma PairWrites(x: NodeId, y: NodeId, req: PutRequest)
    requires x != y && req.version == 0 && req.epoch >= 1
    ensures var c := PairStart(x, y);
      Init(c) && Enabled(c, ClientPut(x, req)) && PairWritten(Apply(c, ClientPut(x, req)), x, y, req)
  {
    var c := PairStart(x, y);
    Collisions.Latest(EMPTY, req.key, 0);
    hide LatestVersion;
    TakePutAccepts(c, x, req);
    Collisions.HeadFiles(c.ring, LocalOf(IDLE, CRAQ), req, 1);
    var d := Accepted(c, x, req);
    assert d.net == [ForwardPut(y, First(req))];
    assert Handlers.Stage(map[], First(req)) == map[req.id := Pending(First(req), 0)];
    assert Hist(c, req.key) + [WriteOf(req)] == [WriteOf(req)];
  }

  /** The tail commits it; the head still has it dirty. */
  lemma PairCommits(c: Cluster, x: NodeId, y: NodeId, req: PutRequest)
    requires x != y && req.version == 0 && req.client.Some? && PairWritten(c, x, y, req)
    ensures Enabled(c, Deliver(0))
    ensures var d := Apply(c, Deliver(0));
      && d.ring == c.ring && d.servers.Keys == {x, y} && d.servers[x] == c.servers[x]
      && At(d.servers[y].store, req.key).clean == Some(Types.Record(1, req.value))
      && CommitAck(req.client.value, req.key, 1) in d.net
  {
    var sent := First(req);
    Collisions.TailCommits(c.ring, sent);
    var e := ForwardedWrite(c.ring, 1, LocalOf(IDLE, CRAQ), sent);
    var notice := CommitAck(req.client.value, req.key, 1);
    assert AckFor(sent, None) == [notice];
    assert e.out[|e.out| - 1] == notice;
    hide ForwardedWrite;
    assert Apply(c, Deliver(0)) == React(c, y, e, RemoveAt(c.net, 0));
    assert notice in RemoveAt(c.net, 0) + e.out;
  }

  /** The theorems about operations speak of something: there is a run of two replicas in which a write completes and a
      later read at the head, which has the write dirty, asks the tail and returns its value. */
  lemma RunsExist(x: NodeId, y: NodeId, req: PutRequest) returns (states: seq<Cluster>, actions: seq<Action>)
    requires x != y && req.version == 0 && req.epoch >= 1 && req.client.Some?
    ensures GoodRun(states, actions)
    ensures Happens(states, actions, req.key, WriteOp(0, 2, 1))
    ensures Happens(states, actions, req.key, ReadOp(2, 2, 1, Some(req.value)))
    ensures |states| == 3 && AsksTail(states[2], x, req.key)
  {
    hide Apply, Enabled, Init;
    PairWrites(x, y, req);
    var c := PairStart(x, y);
    var d := Apply(c, ClientPut(x, req));
    PairCommits(d, x, y, req);
    var e := Apply(d, Deliver(0));
    states, actions := [c, d, e], [ClientPut(x, req), Deliver(0)];
    assert Noticed(e, req.key, 1) by { assert CommitAck(req.client.value, req.key, 1) in e.net; }
    PairReads(e, x, y, req);
    assert ReadResult(1, Some(req.value)) == Found(req.value, 1);
    assert ReadHappens(states, 2, 2, 2, x, req.key, ReadResult(1, Some(req.value)));
  }

  lemma PairReads(c: Cluster, x: NodeId, y: NodeId, req: PutRequest)
    requires x != y && c.ring == Ring([x, y], CRAQ, 1) && c.servers.Keys == {x, y}
    requires c.servers[x].store == AddDirty(EMPTY, req.key, Types.Record(1, req.value))
    requires At(c.servers[y].store, req.key).clean == Some(Types.Record(1, req.value))
    ensures Seat(c, x) == 0 && Seat(c, y) == 1
    ensures BeginGet(c.ring, 0, c.servers[x].store, req.key) == AskTail(y)
    ensures AfterQuery(c.servers[x].store, req.key, AnswerQuery(c.ring, 1, c.servers[y].store, req.key, 1)) ==
            Found(req.value, 1)
  {
    SeatUnique(c.ring, 0);
    SeatUnique(c.ring, 1);
    assert 1 in DirtyAt(c.servers[x].store, req.key);
  }

  // ---------- a member is lost, or the mode changed, with a write in flight ----------

  lemma WrittenState(c: Cluster, x: NodeId, y: NodeId, req: PutRequest)
    requires x != y && PairWritten(c, x, y, req)
    ensures Shape(c) && Seat(c, x) == 0 && Seat(c, y) == 1 && Hist(c, req.key) == [WriteOf(req)]
    ensures DirtyAt(c.servers[x].store, req.key) == map[1 := Types.Record(1, req.value)]
    ensures forall key :: CleanVersion(c.servers[x].store, key) == CleanVersion(c.servers[y].store, key) == 0
    ensures forall id :: id != req.id ==> Fresh(c, id)
  {
    SeatUnique(c.ring, 0);
    SeatUnique(c.ring, 1);
  }

  /** A server that holds nothing takes a write of a key that has one already, as the only member. */
  lemma LoneTakes(c: Cluster, y: NodeId, req: PutRequest)
    requires c.ring.members == [y] && c.ring.mode == CRAQ && y in c.servers && c.servers[y] == IDLE
    requires req.version == 0 && req.epoch >= c.ring.epoch
    ensures Seat(c, y) == 0 && HandlePut(c.ring, 0, LocalOf(c.servers[y], CRAQ), req).response == PutOk(1)
    ensures var d := TakePut(c, y, req);
      && d.ring == c.ring && d.servers.Keys == c.servers.Keys
      && (forall z :: z in c.servers && z != y ==> d.servers[z] == c.servers[z])
      && Hist(d, req.key) == Hist(c, req.key) + [WriteOf(req)]
      && d.servers[y].store == Store(map[req.key := Types.Record(1, req.value)], map[req.key := map[]])
  {
    var staged := PutNext(EMPTY, req.key, req.value);
    Collisions.Latest(EMPTY, req.key, 0);
    assert staged.dirty[req.key] == map[1 := Types.Record(1, req.value)];
    assert Above(staged.dirty[req.key], 1) == map[];
    hide LatestVersion;
    TakePutAccepts(c, y, req);
  }

  /** The head of two is lost while its first write is on its way to the tail, although its successor does not have the
      write. The successor, now alone, gives the next write the version of the lost one and commits it. */
  lemma LostHeadReusesVersion(x: NodeId, y: NodeId, first: PutRequest, second: PutRequest)
    requires x != y && first.version == second.version == 0 && first.key == second.key && first.id != second.id
    requires first.epoch >= 1 && second.epoch >= 2
    ensures var c := PairStart(x, y);
      && Init(c) && Enabled(c, ClientPut(x, first))
      && var d := Apply(c, ClientPut(x, first));
      && |d.ring.members| == 2 && !MayGo(d, 0, first.key)
      && var lost := Shrink(d, 0, 2);
      && lost.ring == Ring([y], CRAQ, 2) && Enabled(lost, ClientPut(y, second))
      && HandlePut(lost.ring, 0, LocalOf(lost.servers[y], CRAQ), second).response == PutOk(1)
      && var e := Apply(lost, ClientPut(y, second));
      && Hist(e, first.key) == [WriteOf(first), WriteOf(second)]
      && DirtyCopy(e, x, first.key, 1, first.value) && CleanCopy(e, y, first.key, 1, second.value)
  {
    hide Init, TakePut, HandlePut, LatestVersion, Shape;
    PairWrites(x, y, first);
    var d := Apply(PairStart(x, y), ClientPut(x, first));
    WrittenState(d, x, y, first);
    assert !HoldsAt(d.servers[y].store, first.key, 1);
    ShrinkOnlyRing(d, 0, 2);
    var lost := Shrink(d, 0, 2);
    assert Fresh(d, second.id) && Fresh(lost, second.id);
    LoneTakes(lost, y, second);
  }

  /** The tail of two is lost after it committed a write, and after the client was told, but before the head heard of it. The
      head, now the tail, still has the write dirty, and answers that the key does not exist. */
  lemma LostTailForgets(x: NodeId, y: NodeId, req: PutRequest)
    requires x != y && req.version == 0 && req.epoch >= 1 && req.client.Some?
    ensures var c := PairStart(x, y);
      && Init(c) && Enabled(c, ClientPut(x, req))
      && var d := Apply(c, ClientPut(x, req));
      && Enabled(d, Deliver(0))
      && var e := Apply(d, Deliver(0));
      && Shape(e) && TailVersion(e, req.key) == 1 && Noticed(e, req.key, 1)
      && |e.ring.members| == 2 && !MayGo(e, 1, req.key)
      && var lost := Shrink(e, 1, 2);
      && lost.ring == Ring([x], CRAQ, 2) && Shape(lost) && TailVersion(lost, req.key) == 0
      && BeginGet(lost.ring, 0, lost.servers[x].store, req.key) == Done(GetError(NotFound))
      && DirtyCopy(lost, x, req.key, 1, req.value)
  {
    hide Init, Apply, Enabled, LatestVersion;
    PairWrites(x, y, req);
    var d := Apply(PairStart(x, y), ClientPut(x, req));
    WrittenState(d, x, y, req);
    PairCommits(d, x, y, req);
    var e := Apply(d, Deliver(0));
    assert Noticed(e, req.key, 1) by { assert CommitAck(req.client.value, req.key, 1) in e.net; }
    ShrinkOnlyRing(e, 1, 2);
    assert 1 in DirtyAt(e.servers[x].store, req.key);
    SeatUnique(Ring([x], CRAQ, 2), 0);
  }

  /** The mode is changed from CRAQ to CROWN while a write is on its way to the tail, for a key whose head that makes the other
      replica. The new head gives the second write the version of the first: there are two copies of version 1. */
  lemma ModeChangeReusesVersion(x: NodeId, y: NodeId, first: PutRequest, second: PutRequest)
    requires x != y && first.version == second.version == 0 && first.key == second.key && first.id != second.id
    requires first.epoch >= 1 && second.epoch >= 2 && Ring([x, y], CROWN, 2).HeadIndex(first.key) == 1
    ensures var c := PairStart(x, y);
      && Init(c) && Enabled(c, ClientPut(x, first))
      && var d := Apply(c, ClientPut(x, first));
      && !Settled(d)
      && var changed := Install(d, Ring([x, y], CROWN, 2), map[]);
      && Enabled(changed, ClientPut(y, second))
      && HandlePut(changed.ring, 1, LocalOf(changed.servers[y], CROWN), second).response == PutOk(1)
      && var e := Apply(changed, ClientPut(y, second));
      && Hist(e, first.key) == [WriteOf(first), WriteOf(second)]
      && DirtyCopy(e, x, first.key, 1, first.value) && DirtyCopy(e, y, first.key, 1, second.value)
  {
    hide Init, TakePut, HandlePut, LatestVersion, Shape;
    PairWrites(x, y, first);
    var d := Apply(PairStart(x, y), ClientPut(x, first));
    WrittenState(d, x, y, first);
    assert 1 in DirtyAt(d.servers[x].store, first.key) && x in d.ring.members;
    var changed := Install(d, Ring([x, y], CROWN, 2), map[]);
    assert Fresh(d, second.id) && Fresh(changed, second.id);
    CrownTakes(changed, x, y, first, second);
  }

  lemma CrownTakes(c: Cluster, x: NodeId, y: NodeId, first: PutRequest, second: PutRequest)
    requires x != y && second.version == 0 && first.key == second.key && second.epoch >= 2
    requires c.ring == Ring([x, y], CROWN, 2) && c.servers.Keys == {x, y} && c.servers[y] == IDLE
    requires c.ring.HeadIndex(second.key) == 1
    requires c.servers[x].store == AddDirty(EMPTY, first.key, Types.Record(1, first.value))
    ensures HandlePut(c.ring, 1, LocalOf(c.servers[y], CROWN), second).response == PutOk(1)
    ensures var e := TakePut(c, y, second);
      && Hist(e, first.key) == Hist(c, first.key) + [WriteOf(second)]
      && DirtyCopy(e, x, first.key, 1, first.value) && DirtyCopy(e, y, first.key, 1, second.value)
  {
    SeatUnique(c.ring, 1);
    Collisions.Latest(EMPTY, second.key, 0);
    hide LatestVersion;
    TakePutAccepts(c, y, second);
    Collisions.HeadFiles(c.ring, LocalOf(IDLE, CROWN), second, 1);
    var e := Accepted(c, y, second);
    assert DirtyAt(e.servers[y].store, second.key) == map[1 := Types.Record(1, second.value)];
  }

  /** The tail of two is lost before the first write reaches it, which may happen: nothing is committed. The head, now alone
      and the tail of its key, has the write pending, and nobody will ever acknowledge it: nothing is left to deliver, the
      write stays dirty, its client is never told, and the run has not converged. */
  lemma LeftoverStays(x: NodeId, y: NodeId, req: PutRequest) returns (states: seq<Cluster>, actions: seq<Action>)
    requires x != y && req.version == 0 && req.epoch >= 1
    ensures LosslessRun(states, actions) && |states| == 3
    ensures actions == [ClientPut(x, req), Action.Remove(1, 2, [Resend(x, req.id)])]
    ensures !TailsAnswered(states[1], states[2].ring)
    ensures Quiet(states[2]) && !Converged(states[2])
    ensures DirtyCopy(states[2], x, req.key, 1, req.value) && PendingCopy(states[2], x, CRAQ, req.id, req.key, 1, req.value)
    ensures req.client.Some? ==> !Announced(states, 2, req.key, 1)
  {
    hide Init, Apply, LatestVersion;
    PairWrites(x, y, req);
    var c := PairStart(x, y);
    var d := Apply(c, ClientPut(x, req));
    WrittenState(d, x, y, req);
    LeftoverRemoved(d, x, y, req);
    var a := Action.Remove(1, 2, [Resend(x, req.id)]);
    states, actions := [c, d, Apply(d, a)], [ClientPut(x, req), a];
    if req.client.Some? {
      assert !Told(c, req.key, 1);
      assert !Told(d, req.key, 1);
    }
  }

  lemma LeftoverRemoved(d: Cluster, x: NodeId, y: NodeId, req: PutRequest)
    requires x != y && PairWritten(d, x, y, req)
    ensures var a := Action.Remove(1, 2, [Resend(x, req.id)]);
      && Enabled(d, a)
      && var e := Apply(d, a);
      && !TailsAnswered(d, e.ring) && Quiet(e) && !Converged(e)
      && DirtyCopy(e, x, req.key, 1, req.value) && PendingCopy(e, x, CRAQ, req.id, req.key, 1, req.value)
      && (req.client.Some? ==> !Told(e, req.key, 1))
  {
    WrittenState(d, x, y, req);
    var r := Resend(x, req.id);
    var a := Action.Remove(1, 2, [r]);
    assert Shrunk(d.ring, 1, 2) == Ring([x], CRAQ, 2);
    assert AllPending(d, Shrunk(d.ring, 1, 2), [r]);
    assert forall key :: SameCommitted(d, x, y, key);
    assert Enabled(d, a);
    ShrinkOnlyRing(d, 1, 2);
    var lost := Shrink(d, 1, 2);
    LoneReforward(lost, x, r);
    var e := Apply(d, a);
    assert e == Reforward(lost, r);
    assert LeftAt(d.servers[x], e.ring, x, req.id);
  }

  lemma LoneReforward(c: Cluster, x: NodeId, r: Resend)
    requires c.ring.members == [x] && x in c.servers && r.node == x
    ensures ReforwardAll(c, [r]) == Reforward(c, r)
    ensures Reforward(c, r).ring == c.ring && Reforward(c, r).net == c.net && Reforward(c, r).hist == c.hist
    ensures Reforward(c, r).servers.Keys == c.servers.Keys
    ensures Reforward(c, r).servers[x].store == c.servers[x].store
    ensures TableOf(Reforward(c, r).servers[x], c.ring.mode) == TableOf(c.servers[x], c.ring.mode)
  {
    assert [r][..0] == [];
  }

  // ---------- a lone server and a spare one ----------

  function LoneStart(x: NodeId, y: NodeId): Cluster {
    Cluster(Ring([x], CRAQ, 1), map[x := IDLE, y := IDLE], [], map[])
  }

  lemma LoneWrites(x: NodeId, y: NodeId, req: PutRequest)
    requires x != y && req.version == 0 && req.epoch >= 1
    ensures var c := LoneStart(x, y);
      && Init(c) && Enabled(c, ClientPut(x, req))
      && var d := Apply(c, ClientPut(x, req));
      && d.ring == c.ring && d.servers.Keys == {x, y} && d.servers[y] == IDLE
      && Hist(d, req.key) == [WriteOf(req)]
      && d.servers[x].store == Store(map[req.key := Types.Record(1, req.value)], map[req.key := map[]])
  {
    hide LatestVersion, TakePut, HandlePut;
    LoneTakes(LoneStart(x, y), x, req);
  }

  /** A settled ring with a committed write takes in a server that obtained no dump, because it heard of its addition by a
      fetch or because no peer answered. The newcomer is the tail, holds nothing, and answers that the key does not exist,
      while the old member still has the write. */
  lemma JoinWithoutDumpForgets(x: NodeId, y: NodeId, req: PutRequest)
    requires x != y && req.version == 0 && req.epoch >= 1
    ensures var c := LoneStart(x, y);
      && Init(c) && Enabled(c, ClientPut(x, req))
      && var d := Apply(c, ClientPut(x, req));
      && Settled(d) && Shape(d) && TailVersion(d, req.key) == 1
      && var joined := Install(d, Ring([x, y], CRAQ, 2), map[]);
      && !EntrantsReady(d, joined.ring, map[])
      && Shape(joined) && TailNode(joined, req.key) == y && TailVersion(joined, req.key) == 0
      && BeginGet(joined.ring, Seat(joined, y), joined.servers[y].store, req.key) == Done(GetError(NotFound))
      && BeginGet(joined.ring, Seat(joined, x), joined.servers[x].store, req.key) == Done(Found(req.value, 1))
  {
    LoneWrites(x, y, req);
    var d := Apply(LoneStart(x, y), ClientPut(x, req));
    hide Apply, Enabled, Init, LatestVersion;
    assert DirtyAt(d.servers[x].store, req.key) == map[];
    var ring := Ring([x, y], CRAQ, 2);
    SeatUnique(ring, 0);
    SeatUnique(ring, 1);
    assert y in ring.members && y !in d.ring.members;
    assert CleanVersion(d.servers[y].store, req.key) != |Hist(d, req.key)|;
  }
}
