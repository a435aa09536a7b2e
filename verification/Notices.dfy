/** Who is told of a commit: a write that is committed was announced to its client, at the address the client gave; and at
    rest, exactly which accepted writes were announced. */
module Notices {
  import opened Types
  import opened Rings
  import opened Stores
  import opened Handlers
  import opened Clusters
  import opened Views
  import opened Simulation
  import opened Steps
  import opened Invariants
  import opened Members
  import opened AllModes
  import opened Switching
  import opened Removals
  import opened Runs
  import opened Reads
  import opened Linearizability
  import opened Termination
  import opened Convergence

  /** The client of the write is being told, or did not ask to be. */
  ghost predicate Told(c: Cluster, key: Key, v: nat) {
    && 1 <= v <= |Hist(c, key)|
    && var client := Hist(c, key)[v - 1].client;
       client.None? || CommitAck(client.value, key, v) in c.net
  }

  ghost predicate CleanAt(c: Cluster, x: NodeId, key: Key, v: nat) {
    x in c.servers && key in c.servers[x].store.clean && c.servers[x].store.clean[key].version == v
  }

  predicate AckOfVersion(m: Message, key: Key, v: nat) {
    m.WriteAck? && m.ackKey == key && m.ackVersion == v
  }

  /** Some server has exactly this version clean, or an acknowledgement of it is in flight. */
  ghost predicate Finished(c: Cluster, key: Key, v: nat) {
    (exists x :: CleanAt(c, x, key, v)) || (exists m :: m in c.net && AckOfVersion(m, key, v))
  }

  // ---------- nothing is finished in silence ----------

  predicate HasClean(s: Store, key: Key, v: nat) {
    key in s.clean && s.clean[key].version == v
  }

  /** What a reaction finishes: a version it makes clean, or one it acknowledges. */
  ghost predicate Finishes(s: Store, e: Effect, key: Key, v: nat) {
    || (HasClean(e.local.store, key, v) && !HasClean(s, key, v))
    || (exists m :: m in e.out && AckOfVersion(m, key, v))
  }

  lemma ReactFinishes(c: Cluster, x: NodeId, e: Effect, rest: seq<Message>, key: Key, v: nat)
    requires x in c.servers && forall m :: m in rest ==> m in c.net
    requires Finished(React(c, x, e, rest), key, v)
    ensures Finished(c, key, v) || Finishes(c.servers[x].store, e, key, v)
  {
    var d := React(c, x, e, rest);
    if y :| CleanAt(d, y, key, v) {
      if y != x || HasClean(c.servers[x].store, key, v) { assert CleanAt(c, y, key, v); }
    } else {
      var m :| m in d.net && AckOfVersion(m, key, v);
      assert m in rest || m in e.out;
    }
  }

  lemma MarkCleanFinishes(s: Store, key: Key, version: nat, k: Key, v: nat)
    requires Valid(s) && HasClean(MarkClean(s, key, version), k, v) && !HasClean(s, k, v)
    ensures k == key && v == version
  {
  }

  lemma CommitFinishes(mode: Mode, s: Store, req: PutRequest, key: Key, v: nat)
    requires Valid(s) && HasClean(CommitForwarded(mode, s, req), key, v) && !HasClean(s, key, v)
    ensures key == req.key && v == req.version
  {
    hide MarkClean, PutAt, LatestVersion;
    OperationsKeepValid(s, req.key, req.value, req.version);
    SameCleans(s, req);
    MarkCleanFinishes(PutAt(s, req.key, req.value, req.version), req.key, req.version, key, v);
  }

  lemma SameCleans(s: Store, req: PutRequest)
    ensures PutAt(s, req.key, req.value, req.version).clean == s.clean
  {
  }

  /** The tail acknowledges this write and no other, and tells its client. */
  lemma TailTells(r: Ring, i: nat, req: PutRequest)
    ensures req.client.Some? ==> CommitAck(req.client.value, req.key, req.version) in TailOut(r, i, req)
    ensures forall m :: m in TailOut(r, i, req) && m.CommitAck? ==>
              req.client.Some? && m == CommitAck(req.client.value, req.key, req.version)
    ensures forall m :: m in TailOut(r, i, req) && m.WriteAck? ==> m.ackKey == req.key && m.ackVersion == req.version
    ensures forall m :: m in TailOut(r, i, req) ==> !m.ForwardPut?
  {
    var notice := AckFor(req, None);
    var out := TailOut(r, i, req);
    assert forall k :: 0 <= k < |notice| ==> out[|out| - |notice| + k] == notice[k];
    if req.client.Some? { assert notice[0] in out; }
  }

  /** Whatever forwarded write reaches the tail, stale or not: its client is told. */
  lemma TailDeliveryTells(c: Cluster, i: nat)
    requires Genuine(c) && Enabled(c, Deliver(i)) && c.net[i].ForwardPut? && c.net[i].req.epoch >= c.ring.epoch
    requires AtTail(c.ring, c.net[i].to, c.net[i].req.key)
    ensures Told(Receive(c, i), c.net[i].req.key, c.net[i].req.version)
  {
    hide CommitForwarded, TailOut, Genuine;
    var m := c.net[i];
    DeliveredIsWrite(c, m);
    TailTells(c.ring, Seat(c, m.to), m.req);
  }

  lemma DeliveryFinishes(c: Cluster, i: nat, key: Key, v: nat)
    requires Genuine(c) && Shape(c) && Enabled(c, Deliver(i)) && c.net[i].ForwardPut? && c.net[i].req.epoch >= c.ring.epoch
    requires Finished(Receive(c, i), key, v)
    ensures Finished(c, key, v) || Told(Receive(c, i), key, v)
  {
    var m := c.net[i];
    var x, req := m.to, m.req;
    DeliveredIsWrite(c, m);
    GenuineStore(c, x);
    TailTells(c.ring, Seat(c, x), req);
    hide CommitForwarded, StoreForwarded, TailOut, Genuine, Finished, Told, AtTail;
    var local := LocalOf(c.servers[x], c.ring.mode);
    var e := ForwardedWrite(c.ring, Seat(c, x), local, req);
    ReactFinishes(c, x, e, RemoveAt(c.net, i), key, v);
    if Finishes(c.servers[x].store, e, key, v) {
      if Seat(c, x) == c.ring.TailIndex(req.key) {
        if HasClean(e.local.store, key, v) && !HasClean(local.store, key, v) {
          CommitFinishes(c.ring.mode, local.store, req, key, v);
        }
        assert AtTail(c.ring, x, req.key) by { SeatIsTail(c, x, req.key); }
        TailDeliveryTells(c, i);
      } else {
        ForwardFinishesNothing(c.ring, Seat(c, x), local, req, key, v);
      }
    }
  }

  lemma SeatIsTail(c: Cluster, x: NodeId, key: Key)
    requires Seat(c, x) == c.ring.TailIndex(key)
    ensures AtTail(c.ring, x, key)
  {
  }

  lemma ForwardFinishesNothing(r: Ring, i: nat, local: Local, req: PutRequest, key: Key, v: nat)
    ensures !Finishes(local.store, Forward(r, i, local.(store := StoreForwarded(r.mode, local.store, req)), req), key, v)
  {
    hide LatestVersion;
  }

  lemma GenuineStore(c: Cluster, x: NodeId)
    requires Genuine(c) && x in c.servers
    ensures Valid(c.servers[x].store) && GoodTable(c.hist, TableOf(c.servers[x], c.ring.mode)) && UniqueIds(c.hist)
  {
    assert GoodServer(c.hist, c.servers[x]);
  }

  lemma AckFinishesItsWrite(r: Ring, i: nat, local: Local, id: ReqId, key: Key, v: nat)
    requires Valid(local.store) && Finishes(local.store, HandleAck(r, i, local, id), key, v)
    ensures id in local.table && local.table[id].req.key == key && local.table[id].req.version == v
  {
    hide MarkClean;
    if id in local.table && HasClean(HandleAck(r, i, local, id).local.store, key, v) && !HasClean(local.store, key, v) {
      MarkCleanFinishes(local.store, local.table[id].req.key, local.table[id].req.version, key, v);
    }
  }

  /** An acknowledgement finishes only what it names, or what was finished already. */
  lemma AckFinishes(c: Cluster, i: nat, key: Key, v: nat)
    requires Genuine(c) && Shape(c) && Enabled(c, Deliver(i)) && c.net[i].WriteAck?
    requires Finished(Receive(c, i), key, v)
    ensures Finished(c, key, v)
  {
    ReceiveAck(c, i);
    var m := c.net[i];
    assert GoodMessage(c.hist, m);
    GenuineStore(c, m.to);
    FewerMessages(c.net, i);
    hide Genuine, UniqueIds, GoodTable, Finishes, HandleAck, Receive, React, GoodMessage;
    var local := LocalOf(c.servers[m.to], c.ring.mode);
    ReactFinishes(c, m.to, HandleAck(c.ring, Seat(c, m.to), local, m.id), RemoveAt(c.net, i), key, v);
    if Finishes(local.store, HandleAck(c.ring, Seat(c, m.to), local, m.id), key, v) {
      AckFinishesItsWrite(c.ring, Seat(c, m.to), local, m.id, key, v);
      AckFindsItsWrite(c.hist, local.table, m);
      assert AckOfVersion(m, key, v);
    }
  }

  /** A forwarded write that is taken is answered with the version the head gave it. */
  lemma ForwardIsAnswered(c: Cluster, i: nat)
    requires Genuine(c) && Shape(c) && Enabled(c, Deliver(i)) && c.net[i].ForwardPut? && c.net[i].req.epoch >= c.ring.epoch
    ensures var m := c.net[i];
      var e := HandlePut(c.ring, Seat(c, m.to), LocalOf(c.servers[m.to], c.ring.mode), m.req);
      && Receive(c, i) == React(c, m.to, e.effect, RemoveAt(c.net, i))
      && e.response.PutOk? && 1 <= e.response.version <= |Hist(c, m.req.key)|
      && Hist(c, m.req.key)[e.response.version - 1] == WriteOf(m.req)
  {
    DeliveredIsWrite(c, c.net[i]);
    hide Genuine, ForwardedWrite;
  }

  lemma AcceptFinishes(c: Cluster, x: NodeId, req: PutRequest, key: Key, v: nat)
    requires Base(c) && Enabled(c, ClientPut(x, req)) && req.epoch >= c.ring.epoch && Seat(c, x) == c.ring.HeadIndex(req.key)
    requires Finished(Accepted(c, x, req), key, v)
    ensures Finished(c, key, v) || Told(Accepted(c, x, req), key, v)
  {
    BaseParts(c, key);
    GenuineStore(c, x);
    LoneTells(c, x, req);
    hide Base, Genuine, Fresh, ClientWrite, Told, GoodTable, UniqueIds;
    var local := LocalOf(c.servers[x], c.ring.mode);
    var e := ClientWrite(c.ring, Seat(c, x), local, req).effect;
    RememberedFinishes(React(c, x, e, c.net), req.key, WriteOf(req), key, v);
    ReactFinishes(c, x, e, c.net, key, v);
    if Finishes(local.store, e, key, v) { AcceptedFinishes(c.ring, Seat(c, x), local, req, key, v); }
  }

  lemma RememberedFinishes(c: Cluster, k: Key, w: Write, key: Key, v: nat)
    requires Finished(Remember(c, k, w), key, v)
    ensures Finished(c, key, v)
  {
    if x :| CleanAt(Remember(c, k, w), x, key, v) { assert CleanAt(c, x, key, v); }
  }

  /** Only a lone head finishes what it accepts. */
  lemma AcceptedFinishes(r: Ring, i: nat, local: Local, req: PutRequest, key: Key, v: nat)
    requires Valid(local.store) && Finishes(local.store, ClientWrite(r, i, local, req).effect, key, v)
    ensures |r.members| <= 1 && key == req.key && v == LatestVersion(local.store, req.key) + 1
  {
    hide MarkClean, LatestVersion;
    var w := LatestVersion(local.store, req.key) + 1;
    var staged := PutNext(local.store, req.key, req.value);
    assert staged.clean == local.store.clean;
    OperationsKeepValid(local.store, req.key, req.value, w);
    if |r.members| <= 1 && HasClean(MarkClean(staged, req.key, w), key, v) && !HasClean(staged, key, v) {
      MarkCleanFinishes(staged, req.key, w, key, v);
    }
  }

  lemma PutParts(c: Cluster, x: NodeId, req: PutRequest)
    requires Enabled(c, ClientPut(x, req))
    ensures x in c.ring.members && x in c.servers && req.version == 0 && Fresh(c, req.id)
    ensures Apply(c, ClientPut(x, req)) == TakePut(c, x, req)
  {
    hide TakePut, Fresh;
  }

  lemma SomeMember(c: Cluster)
    requires Shape(c)
    ensures c.ring.members != []
    ensures forall x :: x in c.ring.members ==> x in c.servers
  {
  }

  /** ... and tells the client at once. */
  lemma LoneTells(c: Cluster, x: NodeId, req: PutRequest)
    requires Base(c) && Enabled(c, ClientPut(x, req)) && req.epoch >= c.ring.epoch && Seat(c, x) == c.ring.HeadIndex(req.key)
    ensures var v := LatestVersion(c.servers[x].store, req.key) + 1;
      && v == |Hist(c, req.key)| + 1 && Hist(Accepted(c, x, req), req.key) == Hist(c, req.key) + [WriteOf(req)]
      && (|c.ring.members| == 1 ==> Told(Accepted(c, x, req), req.key, v))
  {
    hide *;
    BaseParts(c, req.key);
    PutParts(c, x, req);
    SomeMember(c);
    HeadAnswers(c, x, req);
    VersionsAreNew(c, x, req, LatestVersion(c.servers[x].store, req.key) + 1);
    TakePutAccepts(c, x, req);
    if |c.ring.members| == 1 { LoneOut(c, x, req, LatestVersion(c.servers[x].store, req.key) + 1); }
  }

  lemma LoneOut(c: Cluster, x: NodeId, req: PutRequest, v: nat)
    requires x in c.servers && |c.ring.members| == 1 && v == LatestVersion(c.servers[x].store, req.key) + 1
    requires v == |Hist(c, req.key)| + 1 && Hist(Accepted(c, x, req), req.key) == Hist(c, req.key) + [WriteOf(req)]
    ensures Told(Accepted(c, x, req), req.key, v)
  {
    hide PutNext, MarkClean, LatestVersion;
  }

  lemma HeadAnswers(c: Cluster, x: NodeId, req: PutRequest)
    requires x in c.servers && req.version == 0 && c.ring.members != [] && Seat(c, x) == c.ring.HeadIndex(req.key)
    ensures HandlePut(c.ring, Seat(c, x), LocalOf(c.servers[x], c.ring.mode), req).response ==
            PutOk(LatestVersion(c.servers[x].store, req.key) + 1)
  {
    hide PutNext, MarkClean, Forward;
  }

  /** Sending pending writes on again touches no store and adds forwarded writes only, of writes that were pending. */
  ghost predicate OnlyForwards(c: Cluster, d: Cluster, resend: seq<Resend>) {
    && d.servers.Keys == c.servers.Keys && d.hist == c.hist && d.ring == c.ring
    && (forall x :: x in c.servers ==> d.servers[x].store == c.servers[x].store)
    && (forall m :: m in c.net ==> m in d.net)
    && (forall m :: m in d.net ==> m in c.net || (m.ForwardPut? && |c.ring.members| > 1 && Asked(resend, m.req.id)))
  }

  ghost predicate Asked(resend: seq<Resend>, id: ReqId) {
    exists r :: r in resend && r.id == id
  }

  lemma ReforwardSilent(c: Cluster, r: Resend)
    requires r.node in c.servers ==> WellKeyed(TableOf(c.servers[r.node], c.ring.mode))
    ensures OnlyForwards(c, Reforward(c, r), [r])
    ensures forall x :: x in c.servers && WellKeyed(TableOf(c.servers[x], c.ring.mode)) ==>
              WellKeyed(TableOf(Reforward(c, r).servers[x], c.ring.mode))
  {
    assert r in [r];
    assert Asked([r], r.id);
  }

  lemma {:induction false} ReforwardAllSilent(c: Cluster, resend: seq<Resend>)
    requires forall x :: x in c.servers ==> WellKeyed(TableOf(c.servers[x], c.ring.mode))
    ensures OnlyForwards(c, ReforwardAll(c, resend), resend)
    ensures forall x :: x in c.servers ==> WellKeyed(TableOf(ReforwardAll(c, resend).servers[x], c.ring.mode))
  {
    hide Reforward, WellKeyed;
    if resend != [] {
      var n := |resend| - 1;
      ReforwardAllSilent(c, resend[..n]);
      var d := ReforwardAll(c, resend[..n]);
      ReforwardSilent(d, resend[n]);
      var e := Reforward(d, resend[n]);
      forall m | m in e.net ensures m in c.net || (m.ForwardPut? && |c.ring.members| > 1 && Asked(resend, m.req.id)) {
        if m in d.net {
          if m !in c.net {
            var r :| r in resend[..n] && r.id == m.req.id;
            assert r in resend;
          }
        } else {
          var r :| r in [resend[n]] && r.id == m.req.id;
          assert r in resend;
        }
      }
    }
  }

  lemma TablesWellKeyed(c: Cluster)
    requires Genuine(c)
    ensures forall x :: x in c.servers ==> WellKeyed(TableOf(c.servers[x], c.ring.mode))
  {
    forall x | x in c.servers ensures WellKeyed(TableOf(c.servers[x], c.ring.mode)) { GenuineStore(c, x); }
  }

  /** A server enters with a clean version it had, or one that a server that is up has. */
  lemma EntryFinishes(c: Cluster, x: NodeId, dumps: map<NodeId, NodeId>, key: Key, v: nat)
    requires x in c.servers && DumpsUp(c, dumps) && HasClean(EntryStore(c, x, dumps), key, v)
    ensures Finished(c, key, v)
  {
    hide ApplyDump;
    if x in c.ring.members || x !in dumps {
      assert CleanAt(c, x, key, v);
    } else {
      SnapshotIsMaximum(c.servers[x].store, c.servers[dumps[x]].store, key);
      var u := ApplyDump(c.servers[x].store, c.servers[dumps[x]].store);
      if At(u, key).clean == At(c.servers[x].store, key).clean {
        assert CleanAt(c, x, key, v);
      } else {
        assert CleanAt(c, dumps[x], key, v);
      }
    }
  }

  lemma InstallFinishes(c: Cluster, ring: Ring, dumps: map<NodeId, NodeId>, resend: seq<Resend>, key: Key, v: nat)
    requires Genuine(c) && DumpsUp(c, dumps) && Finished(ReforwardAll(Install(c, ring, dumps), resend), key, v)
    ensures Finished(c, key, v)
  {
    hide Genuine, EntryStore, ReforwardAll;
    InstallKeepsGenuine(c, ring, dumps);
    var i := Install(c, ring, dumps);
    TablesWellKeyed(i);
    ReforwardAllSilent(i, resend);
    var d := ReforwardAll(i, resend);
    if x :| CleanAt(d, x, key, v) {
      if x in ring.members { EntryFinishes(c, x, dumps, key, v); } else { assert CleanAt(c, x, key, v); }
    } else {
      var m :| m in d.net && AckOfVersion(m, key, v);
      assert m in c.net;
    }
  }

  lemma NetFinishes(c: Cluster, net: seq<Message>, key: Key, v: nat)
    requires Finished(c.(net := net), key, v) && forall m :: m in net ==> m in c.net
    ensures Finished(c, key, v)
  {
    if x :| CleanAt(c.(net := net), x, key, v) { assert CleanAt(c, x, key, v); }
  }

  lemma ApplyRetry(c: Cluster, x: NodeId, r: ReqId)
    requires Enabled(c, Retry(x, r))
    ensures x in c.ring.members && x in c.servers && r in TableAt(c, x)
    ensures Apply(c, Retry(x, r)) ==
            React(c, x, RetryOne(c.ring, Seat(c, x), LocalOf(c.servers[x], c.ring.mode), r), c.net)
  {
    hide RetryOne, TakePut, Receive, Install, ReforwardAll, MayGo, Settled, Fresh;
  }

  lemma RetryFinishesNothing(r: Ring, i: nat, local: Local, id: ReqId, key: Key, v: nat)
    requires id in local.table
    ensures !Finishes(local.store, RetryOne(r, i, local, id), key, v)
  {
  }

  lemma RetryFinishes(c: Cluster, x: NodeId, id: ReqId, key: Key, v: nat)
    requires Enabled(c, Retry(x, id)) && Finished(Apply(c, Retry(x, id)), key, v)
    ensures Finished(c, key, v)
  {
    ApplyRetry(c, x, id);
    hide RetryOne, Finishes, Finished, Apply, Enabled, React;
    var local := LocalOf(c.servers[x], c.ring.mode);
    RetryFinishesNothing(c.ring, Seat(c, x), local, id, key, v);
    ReactFinishes(c, x, RetryOne(c.ring, Seat(c, x), local, id), c.net, key, v);
  }

  lemma PutFinishes(c: Cluster, x: NodeId, req: PutRequest, key: Key, v: nat)
    requires Base(c) && Enabled(c, ClientPut(x, req)) && Finished(TakePut(c, x, req), key, v)
    ensures Finished(c, key, v) || Told(TakePut(c, x, req), key, v)
  {
    BaseParts(c, key);
    hide Base, Genuine, Fresh, Finished, Told, ClientWrite;
    if req.epoch >= c.ring.epoch {
      if Seat(c, x) == c.ring.HeadIndex(req.key) {
        TakePutAccepts(c, x, req);
        AcceptFinishes(c, x, req, key, v);
      } else {
        var e := Effect(LocalOf(c.servers[x], c.ring.mode), []);
        ReactFinishes(c, x, e, c.net, key, v);
      }
    }
  }

  /** What the actions on a fixed ring do. */
  lemma ApplyParts(c: Cluster, a: Action)
    requires Enabled(c, a) && FixedRing(a)
    ensures match a
      case ClientPut(x, req) => x in c.servers && Apply(c, a) == TakePut(c, x, req)
      case Deliver(i) =>
        i < |c.net| && (c.net[i].CommitAck? || c.net[i].to in c.servers) && Apply(c, a) == Receive(c, i)
      case Lose(i) => i < |c.net| && Apply(c, a) == c.(net := RemoveAt(c.net, i))
      case Duplicate(i) => i < |c.net| && Apply(c, a) == c.(net := c.net + [c.net[i]])
      case _ => a.Retry?
  {
    hide TakePut, Receive, RetryOne, ReforwardAll, Install, MayGo, Settled, Fresh;
  }

  lemma FewerMessages(net: seq<Message>, i: nat)
    requires i < |net|
    ensures forall m :: m in RemoveAt(net, i) ==> m in net
  {
  }

  lemma IdleFinishes(c: Cluster, i: nat, key: Key, v: nat)
    requires Enabled(c, Deliver(i)) && Finished(Receive(c, i), key, v)
    requires c.net[i].CommitAck? || (c.net[i].ForwardPut? && c.net[i].req.epoch < c.ring.epoch)
    ensures Finished(c, key, v)
  {
    hide Finished;
    NetFinishes(c, RemoveAt(c.net, i), key, v);
  }

  lemma DeliverFinishes(c: Cluster, i: nat, key: Key, v: nat)
    requires Base(c) && Enabled(c, Deliver(i)) && Finished(Receive(c, i), key, v)
    ensures Finished(c, key, v) || Told(Receive(c, i), key, v)
  {
    assert FixedRing(Deliver(i));
    hide *;
    BaseParts(c, key);
    ApplyParts(c, Deliver(i));
    if c.net[i].WriteAck? { AckFinishes(c, i, key, v); }
    else if c.net[i].ForwardPut? && c.net[i].req.epoch >= c.ring.epoch { DeliveryFinishes(c, i, key, v); }
    else { IdleFinishes(c, i, key, v); }
  }

  lemma DumpsFromUp(c: Cluster, dumps: map<NodeId, NodeId>)
    requires DumpsFromMembers(c, dumps)
    ensures DumpsUp(c, dumps) && DumpsUp(c, map[])
  {
  }

  lemma MovingFinishes(c: Cluster, a: Action, key: Key, v: nat)
    requires Genuine(c) && Enabled(c, a) && !FixedRing(a) && Finished(Apply(c, a), key, v)
    ensures Finished(c, key, v)
  {
    assert a.Switch? || a.Remove?;
    hide *;
    if a.Switch? {
      SwitchParts(c, a.ring, a.dumps, a.resend);
      DumpsFromUp(c, a.dumps);
      InstallFinishes(c, a.ring, a.dumps, a.resend, key, v);
    } else {
      RemoveParts(c, a.seat, a.epoch, a.resend);
      ShrinkIsInstall(c, a.seat, a.epoch);
      InstallFinishes(c, Shrunk(c.ring, a.seat, a.epoch), map[], a.resend, key, v);
    }
  }

  lemma ShrinkIsInstall(c: Cluster, seat: nat, epoch: nat)
    requires seat < |c.ring.members|
    ensures DumpsUp(c, map[]) && Shrink(c, seat, epoch) == Install(c, Shrunk(c.ring, seat, epoch), map[])
  {
  }

  /** Nothing is finished in silence: when an action makes a version clean somewhere, or acknowledges it, for the first time,
      the client of the write is being told right after. */
  lemma FinishingTells(c: Cluster, a: Action, key: Key, v: nat)
    requires Base(c) && Enabled(c, a) && Finished(Apply(c, a), key, v)
    ensures Finished(c, key, v) || Told(Apply(c, a), key, v)
  {
    assert FixedRing(a) <==> !a.Switch? && !a.Remove?;
    hide *;
    BaseParts(c, key);
    if !FixedRing(a) {
      MovingFinishes(c, a, key, v);
    } else {
      ApplyParts(c, a);
      match a {
        case ClientPut(x, req) => PutFinishes(c, x, req, key, v);
        case Deliver(i) => DeliverFinishes(c, i, key, v);
        case Retry(x, id) => RetryFinishes(c, x, id, key, v);
        case Lose(i) =>
          FewerMessages(c.net, i);
          NetFinishes(c, RemoveAt(c.net, i), key, v);
        case Duplicate(i) => NetFinishes(c, c.net + [c.net[i]], key, v);
      }
    }
  }

  // ---------- over runs ----------

  /** At some point up to state i the client was being told of version v. */
  ghost predicate Announced(states: seq<Cluster>, i: nat, key: Key, v: nat)
    requires i < |states|
  {
    exists j :: 0 <= j <= i && Told(states[j], key, v)
  }

  lemma {:induction false} FinishedIsAnnounced(states: seq<Cluster>, actions: seq<Action>, i: nat, key: Key, v: nat)
    requires GoodRun(states, actions) && i < |states| && Finished(states[i], key, v)
    ensures Announced(states, i, key, v)
  {
    hide Sound, Apply, Enabled, Finished, Told;
    if i == 0 {
      NothingFinished(states[0], key, v);
    } else {
      RunIsSound(states, actions, i - 1, i - 1);
      SoundParts(states[i - 1]);
      FinishingTells(states[i - 1], actions[i - 1], key, v);
      if Finished(states[i - 1], key, v) {
        FinishedIsAnnounced(states, actions, i - 1, key, v);
        var j :| 0 <= j <= i - 1 && Told(states[j], key, v);
        assert Told(states[j], key, v);
      } else {
        assert Told(states[i], key, v);
      }
    }
  }

  lemma NothingFinished(c: Cluster, key: Key, v: nat)
    requires Init(c)
    ensures !Finished(c, key, v)
  {
  }

  /** In every run of any mode, with loss, duplication and reconfiguration: once any server, a tail above all, has a version
      clean, a notice of it has been on its way to the client that wrote it, after the write was accepted. */
  lemma CommittedIsAnnounced(states: seq<Cluster>, actions: seq<Action>, k: nat, i: nat, x: NodeId, key: Key, v: nat)
    returns (j: nat)
    requires GoodRun(states, actions) && WriteAccepted(states, actions, k, key, v) && actions[k].req.client.Some?
    requires i < |states| && x in states[i].servers && CleanVersion(states[i].servers[x].store, key) == v
    ensures k < j <= i && CommitAck(actions[k].req.client.value, key, v) in states[j].net
  {
    hide Sound, Apply, Enabled, Init, WriteAccepted, Progress, Shape;
    WriteSize(states, actions, k, key, v);
    AcceptedWrite(states, actions, k, key, v);
    assert CleanAt(states[i], x, key, v);
    FinishedIsAnnounced(states, actions, i, key, v);
    j :| 0 <= j <= i && Told(states[j], key, v);
    if j <= k {
      RunIsSound(states, actions, j, k);
      HistoryGrows(states[j], states[k], key);
    } else {
      RunIsSound(states, actions, k + 1, j);
      HistoryGrows(states[k + 1], states[j], key);
    }
  }

  /** And a notice goes to nobody else: whoever is told of version v is the client whose write got that version. */
  lemma NoticeGoesToItsClient(states: seq<Cluster>, actions: seq<Action>, k: nat, i: nat, client: string, key: Key, v: nat)
    requires GoodRun(states, actions) && WriteAccepted(states, actions, k, key, v)
    requires i < |states| && CommitAck(client, key, v) in states[i].net
    ensures k < i && actions[k].req.client == Some(client)
  {
    hide Sound, Apply, Enabled, Init, WriteAccepted, Progress, Shape;
    WriteSize(states, actions, k, key, v);
    AcceptedWrite(states, actions, k, key, v);
    RunIsSound(states, actions, i, i);
    SoundParts(states[i]);
    NoticeNamesClient(states[i], client, key, v);
    if i <= k {
      RunIsSound(states, actions, i, k);
      HistoryGrows(states[i], states[k], key);
    } else {
      RunIsSound(states, actions, k + 1, i);
      HistoryGrows(states[k + 1], states[i], key);
    }
  }

  lemma NoticeNamesClient(c: Cluster, client: string, key: Key, v: nat)
    requires Genuine(c) && CommitAck(client, key, v) in c.net
    ensures 1 <= v <= |Hist(c, key)| && Hist(c, key)[v - 1].client == Some(client)
  {
    assert GoodMessage(c.hist, CommitAck(client, key, v));
  }

  // ---------- writes still on their way ----------

  /** The write is pending at a member that is not the tail of its key, or on its way to a member. */
  ghost predicate Open(c: Cluster, id: ReqId) {
    || (exists x :: x in c.ring.members && WaitsAt(c, x, id))
    || (exists y :: y in c.ring.members && SentTo(c.net, c.ring.epoch, y, id))
  }

  lemma ReactKeepsOpen(c: Cluster, x: NodeId, e: Effect, rest: seq<Message>, gone: set<Message>, id: ReqId)
    requires Shape(c) && x in c.ring.members && Taken(c, x, rest, gone) && Open(c, id)
    requires WaitsAt(c, x, id) || Brings(gone, id) ==> Waits(c.ring, x, e.local.table, id)
    ensures Open(React(c, x, e, rest), id)
  {
    hide AtTail;
    var d := React(c, x, e, rest);
    TableAfterReact(c, x, e, rest, x);
    if Waits(c.ring, x, e.local.table, id) {
      assert WaitsAt(d, x, id);
    } else if z :| z in c.ring.members && WaitsAt(c, z, id) {
      TableAfterReact(c, x, e, rest, z);
      assert WaitsAt(d, z, id);
    } else {
      var y :| y in c.ring.members && SentTo(c.net, c.ring.epoch, y, id);
      var m :| m in c.net && m.ForwardPut? && m.to == y && m.req.id == id && m.req.epoch == c.ring.epoch;
      assert m !in gone;
      assert m in d.net;
      assert SentTo(d.net, d.ring.epoch, y, id);
    }
  }

  lemma NetKeepsOpen(c: Cluster, net: seq<Message>, id: ReqId)
    requires Open(c, id) && forall m :: m in c.net && m.ForwardPut? && m.req.epoch == c.ring.epoch ==> m in net
    ensures Open(c.(net := net), id)
  {
    hide AtTail;
    var d := c.(net := net);
    if x :| x in c.ring.members && WaitsAt(c, x, id) {
      assert WaitsAt(d, x, id);
    } else {
      var y :| y in c.ring.members && SentTo(c.net, c.ring.epoch, y, id);
      assert SentTo(net, c.ring.epoch, y, id);
    }
  }

  /** A write of the history, under its id. */
  ghost predicate Entry(c: Cluster, key: Key, v: nat, id: ReqId) {
    1 <= v <= |Hist(c, key)| && Hist(c, key)[v - 1].id == id
  }

  lemma EntryIsUnique(c: Cluster, key: Key, v: nat, k: Key, w: nat, id: ReqId)
    requires Genuine(c) && Entry(c, key, v, id) && Entry(c, k, w, id)
    ensures k == key && w == v
  {
  }

  lemma DeliveryKeepsOpen(c: Cluster, i: nat, key: Key, v: nat, id: ReqId)
    requires Genuine(c) && Shape(c) && Enabled(c, Deliver(i)) && c.net[i].ForwardPut? && c.net[i].req.epoch >= c.ring.epoch
    requires Entry(c, key, v, id) && Open(c, id)
    ensures Open(Receive(c, i), id) || Told(Receive(c, i), key, v)
  {
    hide Genuine, Open, Told, AtTail, StoreForwarded, CommitForwarded, TailOut;
    var m := c.net[i];
    var x, req := m.to, m.req;
    DeliveredIsWrite(c, m);
    DeliveredEntry(c, m);
    OneTaken(c, i);
    var local := LocalOf(c.servers[x], c.ring.mode);
    if req.id in local.table { FiledHere(c, x, req); }
    if AtTail(c.ring, x, req.key) {
      if req.id == id {
        EntryIsUnique(c, key, v, req.key, req.version, id);
        TailDeliveryTells(c, i);
      } else {
        TailEffect(c, x, req);
        ReactKeepsOpen(c, x, ForwardedWrite(c.ring, Seat(c, x), local, req), RemoveAt(c.net, i), {m}, id);
      }
    } else {
      if |c.ring.members| == 1 { LoneIsTail(c.ring, x, req.key); }
      AfterIsNext(c, x);
      MiddleEffect(c, x, req);
      ReactKeepsOpen(c, x, ForwardedWrite(c.ring, Seat(c, x), local, req), RemoveAt(c.net, i), {m}, id);
    }
  }

  lemma DeliveredEntry(c: Cluster, m: Message)
    requires Genuine(c) && m in c.net && m.ForwardPut?
    ensures Entry(c, m.req.key, m.req.version, m.req.id)
  {
    assert GoodMessage(c.hist, m);
  }

  lemma TailEffect(c: Cluster, x: NodeId, req: PutRequest)
    requires x in c.servers && AtTail(c.ring, x, req.key)
    ensures var local := LocalOf(c.servers[x], c.ring.mode);
      ForwardedWrite(c.ring, Seat(c, x), local, req).local.table == local.table
  {
  }

  lemma MiddleEffect(c: Cluster, x: NodeId, req: PutRequest)
    requires x in c.servers && !AtTail(c.ring, x, req.key) && Next(c.ring, Seat(c, x)).Some?
    ensures var local := LocalOf(c.servers[x], c.ring.mode);
      ForwardedWrite(c.ring, Seat(c, x), local, req).local.table ==
      Handlers.Stage(local.table, req.(epoch := c.ring.epoch))
  {
    hide StoreForwarded, CommitForwarded, TailOut;
  }

  lemma AckedEntry(c: Cluster, m: Message)
    requires Genuine(c) && m in c.net && m.WriteAck?
    ensures Entry(c, m.ackKey, m.ackVersion, m.id)
  {
    assert GoodMessage(c.hist, m);
  }

  lemma ReceiveAck(c: Cluster, i: nat)
    requires Enabled(c, Deliver(i)) && c.net[i].WriteAck?
    ensures var m := c.net[i];
      && m in c.net && m.to in c.ring.members && m.to in c.servers
      && Receive(c, i) == React(c, m.to,
           HandleAck(c.ring, Seat(c, m.to), LocalOf(c.servers[m.to], c.ring.mode), m.id), RemoveAt(c.net, i))
  {
    hide HandleAck;
  }

  lemma AckEffect(c: Cluster, x: NodeId, acked: ReqId, id: ReqId)
    requires x in c.servers && id != acked && WaitsAt(c, x, id)
    ensures Waits(c.ring, x, HandleAck(c.ring, Seat(c, x), LocalOf(c.servers[x], c.ring.mode), acked).local.table, id)
  {
    hide AtTail, MarkClean, AckFor;
  }

  lemma AckBringsNothing(m: Message, id: ReqId)
    requires m.WriteAck?
    ensures !Brings({m}, id)
  {
  }

  lemma AckKeepsOpen(c: Cluster, i: nat, key: Key, v: nat, id: ReqId)
    requires Genuine(c) && Shape(c) && Enabled(c, Deliver(i)) && c.net[i].WriteAck?
    requires Entry(c, key, v, id) && Open(c, id)
    ensures Open(Receive(c, i), id) || Finished(c, key, v)
  {
    ReceiveAck(c, i);
    var m := c.net[i];
    if m.id == id {
      AckedEntry(c, m);
      EntryIsUnique(c, key, v, m.ackKey, m.ackVersion, id);
      assert AckOfVersion(m, key, v);
    } else {
      hide *;
      OneTaken(c, i);
      AckBringsNothing(m, id);
      if WaitsAt(c, m.to, id) { AckEffect(c, m.to, m.id, id); }
      var e := HandleAck(c.ring, Seat(c, m.to), LocalOf(c.servers[m.to], c.ring.mode), m.id);
      ReactKeepsOpen(c, m.to, e, RemoveAt(c.net, i), {m}, id);
    }
  }

  lemma RetryEffect(c: Cluster, x: NodeId, r: ReqId, id: ReqId)
    requires x in c.servers && r in TableAt(c, x) && TableAt(c, x)[r].req.id == r && WaitsAt(c, x, id)
    ensures Waits(c.ring, x, RetryOne(c.ring, Seat(c, x), LocalOf(c.servers[x], c.ring.mode), r).local.table, id)
  {
    hide AtTail;
  }

  lemma NothingBrought(id: ReqId)
    ensures !Brings({}, id)
  {
  }

  lemma RetryKeepsOpen(c: Cluster, x: NodeId, r: ReqId, id: ReqId)
    requires Genuine(c) && Shape(c) && Enabled(c, Retry(x, r)) && Open(c, id)
    ensures Open(Apply(c, Retry(x, r)), id)
  {
    hide Genuine, Open, AtTail, Apply, Enabled, RetryOne, React, Taken, Brings, Waits, WaitsAt, Shape;
    ApplyRetry(c, x, r);
    SameWrite(c, x, x, r);
    NoneTaken(c, x);
    NothingBrought(id);
    if WaitsAt(c, x, id) { RetryEffect(c, x, r, id); }
    ReactKeepsOpen(c, x, RetryOne(c.ring, Seat(c, x), LocalOf(c.servers[x], c.ring.mode), r), c.net, {}, id);
  }

  lemma AcceptEffect(c: Cluster, x: NodeId, req: PutRequest, id: ReqId)
    requires x in c.servers && req.id !in TableAt(c, x) && WaitsAt(c, x, id)
    ensures Waits(c.ring, x, ClientWrite(c.ring, Seat(c, x), LocalOf(c.servers[x], c.ring.mode), req).effect.local.table, id)
  {
    hide AtTail, PutNext, MarkClean, LatestVersion;
  }

  lemma AcceptedReacts(c: Cluster, x: NodeId, req: PutRequest)
    requires x in c.servers
    ensures var e := ClientWrite(c.ring, Seat(c, x), LocalOf(c.servers[x], c.ring.mode), req).effect;
      Accepted(c, x, req) == Remember(React(c, x, e, c.net), req.key, WriteOf(req))
  {
    hide ClientWrite;
  }

  lemma AcceptKeepsOpen(c: Cluster, x: NodeId, req: PutRequest, id: ReqId)
    requires Genuine(c) && Shape(c) && Enabled(c, ClientPut(x, req)) && Seat(c, x) == c.ring.HeadIndex(req.key)
    requires Open(c, id)
    ensures x in c.servers && Open(Accepted(c, x, req), id)
  {
    hide *;
    PutParts(c, x, req);
    FreshIsNew(c, x, req.id);
    NoneTaken(c, x);
    NothingBrought(id);
    AcceptedReacts(c, x, req);
    var e := ClientWrite(c.ring, Seat(c, x), LocalOf(c.servers[x], c.ring.mode), req).effect;
    if WaitsAt(c, x, id) { AcceptEffect(c, x, req, id); }
    ReactKeepsOpen(c, x, e, c.net, {}, id);
    RememberedOpen(React(c, x, e, c.net), req.key, WriteOf(req), id);
  }

  lemma RememberedOpen(c: Cluster, k: Key, w: Write, id: ReqId)
    ensures Open(Remember(c, k, w), id) <==> Open(c, id)
  {
    hide AtTail;
    var d := Remember(c, k, w);
    assert forall x :: WaitsAt(d, x, id) <==> WaitsAt(c, x, id);
  }

  /** A write that is on its way stays so until it is finished or its client is told, as long as nothing is lost. */
  lemma ActionKeepsOpen(c: Cluster, a: Action, key: Key, v: nat, id: ReqId)
    requires Genuine(c) && Shape(c) && Enabled(c, a) && FixedRing(a) && !a.Lose?
    requires Entry(c, key, v, id) && Open(c, id)
    ensures Open(Apply(c, a), id) || Told(Apply(c, a), key, v) || Finished(c, key, v)
  {
    hide Genuine, Open, Told, Finished, Receive, HandlePut, RetryOne, ReforwardAll, Install, MayGo, Settled;
    match a {
      case ClientPut(x, req) =>
        if req.epoch >= c.ring.epoch {
          if Seat(c, x) == c.ring.HeadIndex(req.key) {
            TakePutAccepts(c, x, req);
            AcceptKeepsOpen(c, x, req, id);
          } else {
            RefusedKeepsOpen(c, x, req, id);
          }
        }
      case Deliver(i) =>
        if c.net[i].WriteAck? { AckKeepsOpen(c, i, key, v, id); }
        else if c.net[i].ForwardPut? && c.net[i].req.epoch >= c.ring.epoch { DeliveryKeepsOpen(c, i, key, v, id); }
        else { IdleKeepsOpen(c, i, id); }
      case Retry(x, r) => RetryKeepsOpen(c, x, r, id);
      case Duplicate(i) => NetKeepsOpen(c, c.net + [c.net[i]], id);
    }
  }

  lemma IdleKeepsOpen(c: Cluster, i: nat, id: ReqId)
    requires Enabled(c, Deliver(i)) && Open(c, id)
    requires c.net[i].CommitAck? || (c.net[i].ForwardPut? && c.net[i].req.epoch < c.ring.epoch)
    ensures Open(Receive(c, i), id)
  {
    hide Open, HandlePut;
    NetKeepsOpen(c, RemoveAt(c.net, i), id);
  }

  lemma RefusedKeepsOpen(c: Cluster, x: NodeId, req: PutRequest, id: ReqId)
    requires Shape(c) && x in c.ring.members && req.version == 0 && Seat(c, x) != c.ring.HeadIndex(req.key) && Open(c, id)
    ensures Open(TakePut(c, x, req), id)
  {
    hide Open, AtTail;
    NoneTaken(c, x);
    if req.epoch >= c.ring.epoch {
      ReactKeepsOpen(c, x, Effect(LocalOf(c.servers[x], c.ring.mode), []), c.net, {}, id);
    }
  }

  lemma OnlyTheHeadAccepts(c: Cluster, x: NodeId, req: PutRequest)
    requires Enabled(c, ClientPut(x, req)) && |Hist(Apply(c, ClientPut(x, req)), req.key)| > |Hist(c, req.key)|
    ensures x in c.servers && Seat(c, x) == c.ring.HeadIndex(req.key) && req.epoch >= c.ring.epoch
  {
    hide Fresh, ClientWrite;
  }

  /** An accepted write is on its way, or its client is told at once. */
  lemma AcceptedIsOpen(c: Cluster, x: NodeId, req: PutRequest)
    requires Base(c) && Enabled(c, ClientPut(x, req)) && |Hist(Apply(c, ClientPut(x, req)), req.key)| > |Hist(c, req.key)|
    ensures var d := Apply(c, ClientPut(x, req));
      Open(d, req.id) || Told(d, req.key, |Hist(c, req.key)| + 1)
  {
    hide *;
    BaseParts(c, req.key);
    SomeMember(c);
    OnlyTheHeadAccepts(c, x, req);
    PutParts(c, x, req);
    TakePutAccepts(c, x, req);
    LoneTells(c, x, req);
    if |c.ring.members| > 1 { HeadFilesIt(c, x, req); }
  }

  lemma HeadFilesIt(c: Cluster, x: NodeId, req: PutRequest)
    requires Shape(c) && x in c.ring.members && |c.ring.members| > 1 && Seat(c, x) == c.ring.HeadIndex(req.key)
    ensures Open(Accepted(c, x, req), req.id)
  {
    hide View, PutNext, MarkClean, LatestVersion;
    Positions(c.ring, req.key, Seat(c, x));
    var d := Accepted(c, x, req);
    assert WaitsAt(d, x, req.id);
  }

  /** At rest nothing is on its way. */
  lemma NoneOpen(c: Cluster, id: ReqId)
    requires Genuine(c) && Live(c) && Quiet(c)
    ensures !Open(c, id)
  {
    hide Genuine, Live, Quiet, AtTail, SentTo, AckedTo;
    LiveShape(c);
    forall x | x in c.ring.members ensures !WaitsAt(c, x, id) && !SentTo(c.net, c.ring.epoch, x, id) {
      NothingPends(c, x, id);
      QuietMeansNone(c, x, id);
    }
  }

  lemma LiveShape(c: Cluster)
    requires Live(c)
    ensures Shape(c)
  {
  }

  /** What is announced stays announced, and what is finished was. */
  lemma AnnouncedLater(states: seq<Cluster>, i: nat, j: nat, key: Key, v: nat)
    requires i <= j < |states| && Announced(states, i, key, v)
    ensures Announced(states, j, key, v)
  {
    hide Told;
    var k :| 0 <= k <= i && Told(states[k], key, v);
    assert Told(states[k], key, v);
  }

  lemma HereIsAnnounced(states: seq<Cluster>, i: nat, key: Key, v: nat)
    requires i < |states| && Told(states[i], key, v)
    ensures Announced(states, i, key, v)
  {
  }

  /** On a fixed ring without loss, a write that is on its way is still so later, or was announced. */
  lemma {:induction false} OpenAlongRun(states: seq<Cluster>, actions: seq<Action>, k: nat, j: nat, key: Key, v: nat, id: ReqId)
    requires LosslessRun(states, actions) && k <= j < |states|
    requires forall i :: k <= i < |actions| ==> FixedRing(actions[i])
    requires Entry(states[k], key, v, id) && Open(states[k], id)
    ensures Entry(states[j], key, v, id)
    ensures Open(states[j], id) || Announced(states, j, key, v)
    decreases j
  {
    hide Sound, Apply, Enabled, Open, Told, Finished, Announced, Init, Progress, Shape, FixedRing;
    RunIsSound(states, actions, k, j);
    HistoryGrows(states[k], states[j], key);
    if k < j {
      OpenAlongRun(states, actions, k, j - 1, key, v, id);
      if Announced(states, j - 1, key, v) {
        AnnouncedLater(states, j - 1, j, key, v);
      } else {
        RunIsSound(states, actions, j - 1, j - 1);
        SoundParts(states[j - 1]);
        ActionKeepsOpen(states[j - 1], actions[j - 1], key, v, id);
        if Finished(states[j - 1], key, v) {
          FinishedIsAnnounced(states, actions, j - 1, key, v);
        } else if Told(states[j], key, v) {
          HereIsAnnounced(states, j, key, v);
        }
      }
    }
  }

  // ---------- writes nobody carries any more ----------

  /** No member has the write pending, and no copy of it that would be taken is in flight. A lone member sends nothing on, so
      there its table does not matter. */
  ghost predicate Silent(c: Cluster, id: ReqId) {
    && (|c.ring.members| > 1 ==> forall x :: x in c.ring.members && x in c.servers ==> id !in TableAt(c, x))
    && (forall y :: y in c.ring.members ==> !SentTo(c.net, c.ring.epoch, y, id))
  }

  /** No copy of the write is sent. */
  ghost predicate Quiets(c: Cluster, e: Effect, id: ReqId) {
    && (|c.ring.members| > 1 ==> id !in e.local.table)
    && (forall m :: m in e.out && m.ForwardPut? ==> m.req.id != id)
  }

  lemma ReactKeepsSilent(c: Cluster, x: NodeId, e: Effect, rest: seq<Message>, id: ReqId)
    requires Shape(c) && x in c.ring.members && (forall m :: m in rest ==> m in c.net) && Silent(c, id) && Quiets(c, e, id)
    ensures Silent(React(c, x, e, rest), id)
  {
    var d := React(c, x, e, rest);
    forall z | z in d.ring.members && |d.ring.members| > 1 ensures id !in TableAt(d, z) {
      TableAfterReact(c, x, e, rest, z);
    }
    forall y | y in d.ring.members ensures !SentTo(d.net, d.ring.epoch, y, id) {
      assert !SentTo(c.net, c.ring.epoch, y, id);
    }
  }

  lemma NetKeepsSilent(c: Cluster, net: seq<Message>, id: ReqId)
    requires Silent(c, id) && forall m :: m in net ==> m in c.net
    ensures Silent(c.(net := net), id)
  {
    var d := c.(net := net);
    forall y | y in d.ring.members ensures !SentTo(d.net, d.ring.epoch, y, id) {
      if SentTo(d.net, d.ring.epoch, y, id) { assert SentTo(c.net, c.ring.epoch, y, id); }
    }
  }

  lemma SameTablesSilent(c: Cluster, d: Cluster, id: ReqId)
    requires Silent(c, id) && d.ring == c.ring && d.net == c.net && d.servers == c.servers
    ensures Silent(d, id)
  {
  }

  /** A forwarded write that is taken is not the silent one. */
  lemma DeliveredIsNotSilent(c: Cluster, i: nat, id: ReqId)
    requires AllDeliverable(c.ring, c.net) && Silent(c, id) && Enabled(c, Deliver(i))
    requires c.net[i].ForwardPut? && c.net[i].req.epoch >= c.ring.epoch
    ensures c.net[i].req.id != id
  {
    var m := c.net[i];
    assert m in c.net && Deliverable(c.ring, m);
    if m.req.id == id { assert SentTo(c.net, c.ring.epoch, m.to, id); }
  }

  /** The notices a reaction sends. */
  ghost predicate Notifies(e: Effect, key: Key, v: nat) {
    exists m :: m in e.out && m.CommitAck? && m.doneKey == key && m.doneVersion == v
  }

  lemma DeliveryKeepsSilent(c: Cluster, i: nat, key: Key, v: nat, id: ReqId)
    requires Genuine(c) && Shape(c) && AllDeliverable(c.ring, c.net) && Enabled(c, Deliver(i))
    requires c.net[i].ForwardPut? && c.net[i].req.epoch >= c.ring.epoch
    requires Entry(c, key, v, id) && Silent(c, id)
    ensures Silent(Receive(c, i), id)
    ensures Noticed(Receive(c, i), key, v) ==> Noticed(c, key, v)
  {
    hide Genuine, Silent, Quiets, AtTail, StoreForwarded, CommitForwarded, TailOut, Noticed;
    var m := c.net[i];
    var x, req := m.to, m.req;
    DeliveredIsWrite(c, m);
    DeliveredEntry(c, m);
    DeliveredIsNotSilent(c, i, id);
    var e := ForwardedWrite(c.ring, Seat(c, x), LocalOf(c.servers[x], c.ring.mode), req);
    WriteQuiets(c, x, req, id);
    TailTells(c.ring, Seat(c, x), req);
    ReactKeepsSilent(c, x, e, RemoveAt(c.net, i), id);
    if Notifies(e, key, v) { EntryIsOther(c, key, v, req.key, req.version, id, req.id); }
    NothingNew(c, x, e, RemoveAt(c.net, i), key, v);
  }

  lemma EntryIsOther(c: Cluster, key: Key, v: nat, k: Key, w: nat, id: ReqId, other: ReqId)
    requires Entry(c, key, v, id) && Entry(c, k, w, other) && id != other
    ensures k != key || w != v
  {
  }

  lemma WriteQuiets(c: Cluster, x: NodeId, req: PutRequest, id: ReqId)
    requires x in c.ring.members && x in c.servers && Silent(c, id) && req.id != id
    ensures Quiets(c, ForwardedWrite(c.ring, Seat(c, x), LocalOf(c.servers[x], c.ring.mode), req), id)
  {
    TailTells(c.ring, Seat(c, x), req);
    hide SentTo, StoreForwarded, CommitForwarded, TailOut;
  }

  lemma NothingNew(c: Cluster, x: NodeId, e: Effect, rest: seq<Message>, key: Key, v: nat)
    requires x in c.servers && (forall m :: m in rest ==> m in c.net) && !Notifies(e, key, v)
    ensures Noticed(React(c, x, e, rest), key, v) ==> Noticed(c, key, v)
  {
    var d := React(c, x, e, rest);
    if Noticed(d, key, v) {
      var m :| m in d.net && m.CommitAck? && m.doneKey == key && m.doneVersion == v;
      assert m in rest;
    }
  }

  lemma AckKeepsSilent(c: Cluster, i: nat, key: Key, v: nat, id: ReqId)
    requires Shape(c) && Enabled(c, Deliver(i)) && c.net[i].WriteAck? && Silent(c, id)
    ensures Silent(Receive(c, i), id)
    ensures Noticed(Receive(c, i), key, v) ==> Noticed(c, key, v)
  {
    hide MarkClean;
    var x := c.net[i].to;
    var e := HandleAck(c.ring, Seat(c, x), LocalOf(c.servers[x], c.ring.mode), c.net[i].id);
    assert forall m :: m in e.out ==> m.WriteAck? by { AcksOnly(c, x, c.net[i].id); }
    assert Quiets(c, e, id);
    hide Silent, Quiets, Noticed, HandleAck;
    ReactKeepsSilent(c, x, e, RemoveAt(c.net, i), id);
    NothingNew(c, x, e, RemoveAt(c.net, i), key, v);
  }

  lemma AcksOnly(c: Cluster, x: NodeId, id: ReqId)
    requires Shape(c) && x in c.ring.members
    ensures forall m :: m in HandleAck(c.ring, Seat(c, x), LocalOf(c.servers[x], c.ring.mode), id).out ==> m.WriteAck?
  {
    hide MarkClean;
    if |c.ring.members| > 1 { BeforeIsPrev(c, x); }
  }

  lemma RetryKeepsSilent(c: Cluster, x: NodeId, r: ReqId, key: Key, v: nat, id: ReqId)
    requires Genuine(c) && Shape(c) && Enabled(c, Retry(x, r)) && Silent(c, id)
    ensures Silent(Apply(c, Retry(x, r)), id)
    ensures Noticed(Apply(c, Retry(x, r)), key, v) ==> Noticed(c, key, v)
  {
    SameWrite(c, x, x, r);
    hide Genuine, TakePut, Receive, Install, ReforwardAll, MayGo, Settled, Fresh;
    var e := RetryOne(c.ring, Seat(c, x), LocalOf(c.servers[x], c.ring.mode), r);
    assert Quiets(c, e, id);
    assert !Notifies(e, key, v);
    hide Silent, Quiets, Noticed, RetryOne, Notifies;
    ReactKeepsSilent(c, x, e, c.net, id);
    NothingNew(c, x, e, c.net, key, v);
  }

  lemma AcceptKeepsSilent(c: Cluster, x: NodeId, req: PutRequest, key: Key, v: nat, id: ReqId)
    requires Base(c) && Enabled(c, ClientPut(x, req)) && Entry(c, key, v, id) && Silent(c, id)
    requires req.epoch >= c.ring.epoch && Seat(c, x) == c.ring.HeadIndex(req.key)
    ensures x in c.servers && Silent(Accepted(c, x, req), id)
    ensures Noticed(Accepted(c, x, req), key, v) ==> Noticed(c, key, v)
  {
    EntryBound(c, key, v, id);
    hide *;
    BaseParts(c, key);
    PutParts(c, x, req);
    FreshIsOther(c, key, v, id, req);
    LoneTells(c, x, req);
    AcceptedReacts(c, x, req);
    AcceptQuiets(c, x, req, key, v, id);
    var e := ClientWrite(c.ring, Seat(c, x), LocalOf(c.servers[x], c.ring.mode), req).effect;
    var d := React(c, x, e, c.net);
    ReactKeepsSilent(c, x, e, c.net, id);
    NothingNew(c, x, e, c.net, key, v);
    Remembered(d, req.key, WriteOf(req));
    SameTablesSilent(d, Remember(d, req.key, WriteOf(req)), id);
    SameNotices(d, Remember(d, req.key, WriteOf(req)), key, v);
  }

  lemma EntryBound(c: Cluster, key: Key, v: nat, id: ReqId)
    requires Entry(c, key, v, id)
    ensures v <= |Hist(c, key)|
  {
  }

  lemma Remembered(c: Cluster, key: Key, w: Write)
    ensures var d := Remember(c, key, w); d.ring == c.ring && d.net == c.net && d.servers == c.servers
  {
  }

  lemma PutKeepsSilent(c: Cluster, x: NodeId, req: PutRequest, key: Key, v: nat, id: ReqId)
    requires Base(c) && Enabled(c, ClientPut(x, req)) && Entry(c, key, v, id) && Silent(c, id)
    ensures x in c.servers && Silent(TakePut(c, x, req), id)
    ensures Noticed(TakePut(c, x, req), key, v) ==> Noticed(c, key, v)
  {
    hide *;
    PutParts(c, x, req);
    BaseParts(c, key);
    SomeMember(c);
    if req.epoch < c.ring.epoch {
      TakePutRefuses(c, x, req);
    } else if Seat(c, x) == c.ring.HeadIndex(req.key) {
      TakePutAccepts(c, x, req);
      AcceptKeepsSilent(c, x, req, key, v, id);
    } else {
      TakePutRefuses(c, x, req);
      NothingQuiets(c, x, id);
      ReactKeepsSilent(c, x, Effect(LocalOf(c.servers[x], c.ring.mode), []), c.net, id);
      NothingNotified(LocalOf(c.servers[x], c.ring.mode), key, v);
      NothingNew(c, x, Effect(LocalOf(c.servers[x], c.ring.mode), []), c.net, key, v);
    }
  }

  lemma TakePutRefuses(c: Cluster, x: NodeId, req: PutRequest)
    requires x in c.servers && c.ring.members != [] && req.version == 0
    ensures req.epoch < c.ring.epoch ==> TakePut(c, x, req) == c
    ensures req.epoch >= c.ring.epoch && Seat(c, x) != c.ring.HeadIndex(req.key) ==>
              TakePut(c, x, req) == React(c, x, Effect(LocalOf(c.servers[x], c.ring.mode), []), c.net)
  {
    hide ClientWrite;
  }

  lemma NothingNotified(local: Local, key: Key, v: nat)
    ensures !Notifies(Effect(local, []), key, v)
  {
  }

  lemma NothingQuiets(c: Cluster, x: NodeId, id: ReqId)
    requires x in c.ring.members && x in c.servers && Silent(c, id)
    ensures Quiets(c, Effect(LocalOf(c.servers[x], c.ring.mode), []), id)
  {
  }

  lemma SameNotices(c: Cluster, d: Cluster, key: Key, v: nat)
    requires d.net == c.net
    ensures Noticed(d, key, v) ==> Noticed(c, key, v)
  {
  }

  lemma FreshIsOther(c: Cluster, key: Key, v: nat, id: ReqId, req: PutRequest)
    requires Fresh(c, req.id) && Entry(c, key, v, id)
    ensures req.id != id
  {
  }

  lemma AcceptQuiets(c: Cluster, x: NodeId, req: PutRequest, key: Key, v: nat, id: ReqId)
    requires x in c.ring.members && x in c.servers && Silent(c, id) && req.id != id && v <= |Hist(c, key)|
    requires LatestVersion(c.servers[x].store, req.key) == |Hist(c, req.key)|
    ensures var e := ClientWrite(c.ring, Seat(c, x), LocalOf(c.servers[x], c.ring.mode), req).effect;
      Quiets(c, e, id) && !Notifies(e, key, v)
  {
    hide SentTo, PutNext, MarkClean, LatestVersion;
  }

  lemma DeliverKeepsSilent(c: Cluster, i: nat, key: Key, v: nat, id: ReqId)
    requires Base(c) && AllDeliverable(c.ring, c.net) && Enabled(c, Deliver(i))
    requires Entry(c, key, v, id) && Silent(c, id)
    ensures Silent(Receive(c, i), id)
    ensures Noticed(Receive(c, i), key, v) ==> Noticed(c, key, v)
  {
    assert FixedRing(Deliver(i));
    hide *;
    BaseParts(c, key);
    ApplyParts(c, Deliver(i));
    if c.net[i].WriteAck? { AckKeepsSilent(c, i, key, v, id); }
    else if c.net[i].ForwardPut? && c.net[i].req.epoch >= c.ring.epoch { DeliveryKeepsSilent(c, i, key, v, id); }
    else { IdleKeepsSilent(c, i, key, v, id); }
  }

  /** On a fixed ring a silent write stays silent, and its client is not told any more. */
  lemma ActionKeepsSilent(c: Cluster, a: Action, key: Key, v: nat, id: ReqId)
    requires Base(c) && AllDeliverable(c.ring, c.net) && Enabled(c, a) && FixedRing(a)
    requires Entry(c, key, v, id) && Silent(c, id)
    ensures Silent(Apply(c, a), id)
    ensures Noticed(Apply(c, a), key, v) ==> Noticed(c, key, v)
  {
    assert !a.Switch? && !a.Remove?;
    hide *;
    ApplyParts(c, a);
    BaseParts(c, key);
    match a {
      case ClientPut(x, req) => PutKeepsSilent(c, x, req, key, v, id);
      case Deliver(i) => DeliverKeepsSilent(c, i, key, v, id);
      case Retry(x, r) => RetryKeepsSilent(c, x, r, key, v, id);
      case Lose(i) =>
        FewerMessages(c.net, i);
        LessKeepsSilent(c, RemoveAt(c.net, i), key, v, id);
      case Duplicate(i) => LessKeepsSilent(c, c.net + [c.net[i]], key, v, id);
    }
  }

  lemma LessKeepsSilent(c: Cluster, net: seq<Message>, key: Key, v: nat, id: ReqId)
    requires Silent(c, id) && forall m :: m in net ==> m in c.net
    ensures Silent(c.(net := net), id)
    ensures Noticed(c.(net := net), key, v) ==> Noticed(c, key, v)
  {
    hide Silent;
    NetKeepsSilent(c, net, id);
  }

  lemma IdleKeepsSilent(c: Cluster, i: nat, key: Key, v: nat, id: ReqId)
    requires Enabled(c, Deliver(i)) && Silent(c, id)
    requires c.net[i].CommitAck? || (c.net[i].ForwardPut? && c.net[i].req.epoch < c.ring.epoch)
    ensures Silent(Receive(c, i), id)
    ensures Noticed(Receive(c, i), key, v) ==> Noticed(c, key, v)
  {
    hide Silent, Noticed, HandlePut;
    LessKeepsSilent(c, RemoveAt(c.net, i), key, v, id);
  }

  // ---------- exactly which writes are announced ----------

  /** Some member of the ring has the write pending in the mode of the ring, and has a successor to send it to. */
  ghost predicate Resumed(c: Cluster, ring: Ring, id: ReqId) {
    && |ring.members| > 1
    && exists x :: x in ring.members && x in c.servers && id in TableOf(c.servers[x], ring.mode)
  }

  /** What a reconfiguration carries on: exactly the writes that are pending at the new members. All others are silent. */
  lemma ReconfigurationResumes(c: Cluster, a: Action, id: ReqId)
    requires Genuine(c) && Live(c) && Enabled(c, a) && !FixedRing(a)
    ensures var d := Apply(c, a);
      && (Open(d, id) <==> Resumed(c, d.ring, id))
      && (!Open(d, id) ==> Silent(d, id))
  {
    hide Genuine, View, MayGo, AllCarried, AllPending, Install, ReforwardAll, Apply, Enabled, NextRing, Open, Resumed, Silent;
    if a.Switch? {
      SwitchParts(c, a.ring, a.dumps, a.resend);
      SwitchPending(c, a.ring, a.dumps, a.resend);
      InstalledTables(c, a.ring, a.dumps);
      ResendingResumes(c, Install(c, a.ring, a.dumps), a.resend, id);
      RingAfter(c, a.ring, a.dumps, a.resend);
    } else {
      RemoveParts(c, a.seat, a.epoch, a.resend);
      RemovePending(c, a.seat, a.epoch, a.resend);
      ShrunkMembers(c.ring, a.seat, a.epoch);
      var ring := Shrunk(c.ring, a.seat, a.epoch);
      InstalledTables(c, ring, map[]);
      ResendingResumes(c, Install(c, ring, map[]), a.resend, id);
      RingAfter(c, ring, map[], a.resend);
    }
  }

  lemma ResendingResumes(c: Cluster, i: Cluster, resend: seq<Resend>, id: ReqId)
    requires AllDeliverable(c.ring, c.net) && NextRing(c, i) && AllPending(c, i.ring, resend)
    ensures var d := ReforwardAll(i, resend);
      && (Open(d, id) <==> Resumed(c, i.ring, id))
      && (!Open(d, id) ==> Silent(d, id))
  {
    hide Genuine, Resent, Live, View, OnlyForwards, Open, Resumed, Silent;
    TablesAreKeyed(i);
    TablesWellKeyed(i);
    ReforwardAllSends(i, resend);
    ReforwardAllSilent(i, resend);
    ResentOpens(c, i, resend, ReforwardAll(i, resend), id);
  }

  lemma SameIds(c: Cluster, i: Cluster, resend: seq<Resend>, d: Cluster, x: NodeId, id: ReqId)
    requires NextRing(c, i) && Shape(d) && Resent(i, d, resend) && x in d.ring.members
    ensures x in c.servers && (id in TableAt(d, x) <==> id in TableOf(c.servers[x], i.ring.mode))
  {
    hide View, AtTail, Genuine, SentTo, Deliverable;
    assert SameEntries(TableAt(i, x), TableAt(d, x));
    assert TableAt(i, x) == TableOf(c.servers[x], i.ring.mode);
  }

  lemma ResentOpens(c: Cluster, i: Cluster, resend: seq<Resend>, d: Cluster, id: ReqId)
    requires AllDeliverable(c.ring, c.net) && NextRing(c, i) && AllPending(c, i.ring, resend)
    requires Shape(d) && Resent(i, d, resend) && OnlyForwards(i, d, resend)
    ensures Open(d, id) <==> Resumed(c, i.ring, id)
    ensures !Open(d, id) ==> Silent(d, id)
  {
    SameRing(i, d, resend);
    hide View, AtTail, Genuine, SentTo, NextRing, Resent, OnlyForwards, AllPending, AllDeliverable, TableAt, KeyAt;
    forall x | x in d.ring.members
      ensures x in d.servers && x in c.servers && (id in TableAt(d, x) <==> id in TableOf(c.servers[x], i.ring.mode))
    {
      SameIds(c, i, resend, d, x, id);
    }
    if Resumed(c, i.ring, id) {
      var x :| x in i.ring.members && x in c.servers && id in TableOf(c.servers[x], i.ring.mode);
      SentAnew(c, i, resend, d, x, id);
    } else {
      forall x | x in d.ring.members ensures !WaitsAt(d, x, id) {
        if |d.ring.members| == 1 && id in TableAt(d, x) { LoneIsTail(d.ring, x, KeyAt(d, x, id)); }
      }
      forall y | y in d.ring.members ensures !SentTo(d.net, d.ring.epoch, y, id) {
        if SentTo(d.net, d.ring.epoch, y, id) { NotSentAnew(c, i, resend, d, y, id); }
      }
    }
  }

  lemma SameRing(i: Cluster, d: Cluster, resend: seq<Resend>)
    requires OnlyForwards(i, d, resend) && Shape(d)
    ensures d.ring == i.ring && forall x :: x in d.ring.members ==> x in d.servers
  {
  }

  lemma SentAnew(c: Cluster, i: Cluster, resend: seq<Resend>, d: Cluster, x: NodeId, id: ReqId)
    requires NextRing(c, i) && AllPending(c, i.ring, resend) && Shape(d) && Resent(i, d, resend)
    requires x in i.ring.members && x in c.servers && id in TableOf(c.servers[x], i.ring.mode) && |i.ring.members| > 1
    ensures Open(d, id)
  {
    hide View, AtTail, Genuine, SentTo, Deliverable;
    assert Resend(x, id) in resend;
    AfterIsNext(d, x);
    assert TableAt(i, x) == TableOf(c.servers[x], i.ring.mode);
    assert SentTo(d.net, d.ring.epoch, After(d.ring, x), id);
  }

  lemma NotSentAnew(c: Cluster, i: Cluster, resend: seq<Resend>, d: Cluster, y: NodeId, id: ReqId)
    requires AllDeliverable(c.ring, c.net) && NextRing(c, i) && AllPending(c, i.ring, resend)
    requires OnlyForwards(i, d, resend) && SentTo(d.net, d.ring.epoch, y, id)
    ensures Resumed(c, i.ring, id)
  {
    hide View, AtTail, Genuine;
    var m :| m in d.net && m.ForwardPut? && m.to == y && m.req.id == id && m.req.epoch == d.ring.epoch;
    assert m in c.net ==> Deliverable(c.ring, m);
    var r :| r in resend && r.id == id;
    assert Resend(r.node, id) in resend;
    assert r.node in i.ring.members && r.node in c.servers;
  }

  lemma {:induction false} SilentAlongRun(states: seq<Cluster>, actions: seq<Action>, k: nat, j: nat, key: Key, v: nat,
                                          id: ReqId)
    requires LosslessRun(states, actions) && k <= j < |states|
    requires forall i :: k <= i < |actions| ==> FixedRing(actions[i])
    requires Entry(states[k], key, v, id) && Silent(states[k], id)
    ensures Entry(states[j], key, v, id) && Silent(states[j], id)
    ensures Noticed(states[j], key, v) ==> Noticed(states[k], key, v)
    decreases j
  {
    hide Sound, Apply, Enabled, Silent, Noticed, Init, Progress, Shape, FixedRing;
    RunIsSound(states, actions, k, j);
    HistoryGrows(states[k], states[j], key);
    if k < j {
      SilentAlongRun(states, actions, k, j - 1, key, v, id);
      RunIsLive(states, actions, j - 1);
      ActionKeepsSilent(states[j - 1], actions[j - 1], key, v, id);
    }
  }

  /** What is accepted after the last reconfiguration is announced. */
  lemma NewIsAnnounced(states: seq<Cluster>, actions: seq<Action>, k: nat, key: Key, v: nat)
    requires LosslessRun(states, actions) && k < |states|
    requires forall i :: k <= i < |actions| ==> FixedRing(actions[i])
    requires Quiet(states[|actions|]) && |Hist(states[k], key)| < v <= |Hist(states[|actions|], key)|
    ensures Announced(states, |actions|, key, v)
  {
    hide Sound, Apply, Enabled, Init, Progress, Shape, WriteAccepted, FixedRing, Quiet, Open, Told, Announced, Live, Base;
    var n := |actions|;
    var i := VersionWasAccepted(states, actions, n, key, v);
    WriteSize(states, actions, i, key, v);
    if i < k {
      RunIsSound(states, actions, i + 1, k);
      HistoryGrows(states[i + 1], states[k], key);
    } else {
      RunIsLive(states, actions, i);
      AcceptedStep(states, actions, i, key, v);
      var req := actions[i].req;
      AcceptedIsOpen(states[i], actions[i].node, req);
      if Told(states[i + 1], key, v) {
        HereIsAnnounced(states, i + 1, key, v);
        AnnouncedLater(states, i + 1, n, key, v);
      } else {
        OpenIsAnnounced(states, actions, i + 1, key, v, req.id);
      }
    }
  }

  lemma AcceptedStep(states: seq<Cluster>, actions: seq<Action>, i: nat, key: Key, v: nat)
    requires GoodRun(states, actions) && WriteAccepted(states, actions, i, key, v)
    ensures i + 1 < |states| && i < |actions| && actions[i].ClientPut? && actions[i].req.key == key
    ensures Enabled(states[i], actions[i]) && states[i + 1] == Apply(states[i], actions[i])
    ensures Entry(states[i + 1], key, v, actions[i].req.id) && |Hist(states[i], key)| == v - 1
  {
    AcceptedWrite(states, actions, i, key, v);
    hide Apply, Enabled;
  }

  lemma OpenIsAnnounced(states: seq<Cluster>, actions: seq<Action>, k: nat, key: Key, v: nat, id: ReqId)
    requires LosslessRun(states, actions) && k < |states|
    requires forall i :: k <= i < |actions| ==> FixedRing(actions[i])
    requires Quiet(states[|actions|]) && Entry(states[k], key, v, id) && Open(states[k], id)
    ensures Announced(states, |actions|, key, v)
  {
    hide Sound, Apply, Enabled, Init, Shape, FixedRing, Quiet, Open, Announced, Live, Base;
    var n := |actions|;
    OpenAlongRun(states, actions, k, n, key, v, id);
    RunIsLive(states, actions, n);
    BaseParts(states[n], key);
    NoneOpen(states[n], id);
  }

  lemma SilentIsNotAnnounced(states: seq<Cluster>, actions: seq<Action>, k: nat, key: Key, v: nat, id: ReqId)
    requires LosslessRun(states, actions) && k < |states|
    requires forall i :: k <= i < |actions| ==> FixedRing(actions[i])
    requires Entry(states[k], key, v, id) && Silent(states[k], id) && Hist(states[k], key)[v - 1].client.Some?
    requires Announced(states, |actions|, key, v)
    ensures Announced(states, k, key, v)
  {
    hide Sound, Apply, Enabled, Init, Shape, FixedRing, Silent, Progress;
    var j :| 0 <= j <= |actions| && Told(states[j], key, v);
    if j <= k {
      assert Told(states[j], key, v);
    } else {
      SilentAlongRun(states, actions, k, j, key, v, id);
      RunIsSound(states, actions, k, j);
      HistoryGrows(states[k], states[j], key);
      assert CommitAck(Hist(states[j], key)[v - 1].client.value, key, v) in states[j].net;
      assert Noticed(states[k], key, v);
      var m :| m in states[k].net && m.CommitAck? && m.doneKey == key && m.doneVersion == v;
      SoundParts(states[k]);
      NoticeNamesClient(states[k], m.client, key, v);
      assert Told(states[k], key, v);
    }
  }

  /** Who is told, exactly. Take a run that loses no message and is at rest, whose last reconfiguration leads to state k (0 if
      there is none). A client with an address was told of its accepted write if and only if the write was accepted after
      that, or the client had been told before, or the write was pending at a member of the new ring, in its mode, and that
      ring has more than one member. */
  lemma AnnouncedExactly(states: seq<Cluster>, actions: seq<Action>, k: nat, key: Key, v: nat)
    requires LosslessRun(states, actions) && k < |states| && (k == 0 || !FixedRing(actions[k - 1]))
    requires forall i :: k <= i < |actions| ==> FixedRing(actions[i])
    requires Quiet(states[|actions|]) && 1 <= v <= |Hist(states[|actions|], key)|
    requires Hist(states[|actions|], key)[v - 1].client.Some?
    ensures Announced(states, |actions|, key, v) <==>
      || v > |Hist(states[k], key)|
      || Announced(states, k, key, v)
      || (k > 0 && Resumed(states[k - 1], states[k].ring, Hist(states[|actions|], key)[v - 1].id))
  {
    hide Sound, Apply, Enabled, Shape, FixedRing, Quiet, Open, Told, Announced, Live, Base, Progress, Silent, Resumed;
    var n := |actions|;
    var id := Hist(states[n], key)[v - 1].id;
    if v > |Hist(states[k], key)| {
      NewIsAnnounced(states, actions, k, key, v);
    } else {
      RunIsSound(states, actions, k, n);
      HistoryGrows(states[k], states[n], key);
      assert k > 0;
      RunIsLive(states, actions, k - 1);
      BaseParts(states[k - 1], key);
      ReconfigurationResumes(states[k - 1], actions[k - 1], id);
      if Announced(states, k, key, v) {
        AnnouncedLater(states, k, n, key, v);
      } else if Open(states[k], id) {
        OpenIsAnnounced(states, actions, k, key, v, id);
      } else if Announced(states, n, key, v) {
        SilentIsNotAnnounced(states, actions, k, key, v, id);
      }
    }
  }
}
