/** How the metadata store and the server processes come together with the protocol: what the store decides is a switch or
    a removal of the transition system, and what a process does with a request is what the switch does to its server. */
module Reconfigurations {
  import opened Types
  import opened Rings
  import opened Stores
  import opened Handlers
  import opened Clusters
  import opened Views
  import opened Members
  import opened AllModes
  import opened Switching
  import opened Removals
  import opened Metadata
  import opened Servers
  import opened Replicas
  import opened Rounds
  import Lines

  // ---------- what a process does ----------

  /** The answers to state dumps are the committed records of the servers that give them. */
  ghost predicate Honest(c: Cluster, answers: map<NodeId, Dump>) {
    forall y :: y in answers ==>
      y in c.servers && answers[y] == Dump(DumpValues(c.servers[y].store), DumpVersions(c.servers[y].store))
  }

  /** Who obtains a dump from whom: only the added server, from the first member that answers. */
  function DumpsOf(membership: seq<NodeInfo>, added: NodeId, answers: map<NodeId, Dump>): map<NodeId, NodeId> {
    var peer := FirstPeer(membership, added, answers);
    if added == "" || peer.None? then map[] else map[added := peer.value]
  }

  /** The store with which a process enters a membership is the store the switch gives its server: with a dump if a peer
      answered, without one if none did or if the process was not told that it is the one being added. */
  lemma ProcessEntersAsSwitch(c: Cluster, membership: seq<NodeInfo>, x: NodeId, added: NodeId, answers: map<NodeId, Dump>)
    requires x in c.servers && Honest(c, answers) && added !in c.ring.members
    ensures var dumps := DumpsOf(membership, added, answers);
      DumpsUp(c, dumps) && Entered(c.servers[x].store, membership, x, added, answers) == EntryStore(c, x, dumps)
  {
  }

  /** The pending writes of one server, sent on again in some order. */
  function Passes(x: NodeId, ids: seq<ReqId>): seq<Resend> {
    seq(|ids|, k requires 0 <= k < |ids| => Resend(x, ids[k]))
  }

  /** After a newer membership was installed, the replication object of the mode in force, and no other, has sent its pending
      writes on. In the transition system that is what the reconfiguration makes this server send: all it has pending in the
      mode of the new ring, each once. */
  lemma ProcessResendsAsSwitch(p: Process, r: Replica, pending: Table, sent: seq<Message>, ids: seq<ReqId>, c: Cluster)
    requires p.Valid() && p.AllInstalled() && p.ActiveIsInForce()
    requires p.Active() == Some(r) && Servers.Resent(r, pending, sent, ids)
    requires RingOf(p.Held()) == Some(c.ring) && p.id in c.servers
    requires c.servers[p.id].store == p.kv.View() && c.ring.mode in c.servers[p.id].tables
    requires TableOf(c.servers[p.id], c.ring.mode) == pending
    ensures var d := ReforwardAll(c, Passes(p.id, ids));
      && (forall q :: q in Passes(p.id, ids) <==> q.node == p.id && q.id in TableOf(c.servers[p.id], c.ring.mode))
      && p.id in d.servers && LocalOf(d.servers[p.id], c.ring.mode) == r.LocalView()
      && (forall y :: y in c.servers && y != p.id ==> y in d.servers && d.servers[y] == c.servers[y])
      && r.sent[..|sent|] == sent && d.net == c.net + r.sent[|sent|..]
  {
    assert r == p.chain || r == p.craq || r == p.crown;
    assert c.ring == r.RingView() && r.index == Seat(c, p.id);
    forall q ensures q in Passes(p.id, ids) <==> q.node == p.id && q.id in pending {
      if q.node == p.id && q.id in ids {
        var k :| 0 <= k < |ids| && ids[k] == q.id;
        assert Passes(p.id, ids)[k] == q;
      }
    }
    hide ForwardAll, ReforwardAll;
    ForwardingPass(c, p.id, ids);
  }

  // ---------- what the metadata store decides ----------

  lemma RingOfIsValid(config: Config)
    requires RingOf(config).Some? && DistinctMembers(config.membership) && config.membership != []
    ensures RingOf(config).value.Valid()
  {
  }

  lemma IdsAreMembers(membership: seq<NodeInfo>, id: NodeId)
    ensures id in Ids(membership) <==> HasMember(membership, id)
  {
    if HasMember(membership, id) {
      var i :| 0 <= i < |membership| && membership[i].id == id;
      assert Ids(membership)[i] == id;
    }
  }

  /** The seat of a member in the list of infos. */
  lemma {:induction false} WithoutIsRemoveAt(membership: seq<NodeInfo>, seat: nat)
    requires seat < |membership| && DistinctMembers(membership)
    ensures Without(membership, membership[seat].id) == RemoveAt(membership, seat)
  {
    var n := |membership| - 1;
    var init := membership[..n];
    if seat == n {
      WithoutNobody(init, membership[n].id);
      assert RemoveAt(membership, seat) == init;
    } else {
      WithoutIsRemoveAt(init, seat);
      assert RemoveAt(membership, seat) == RemoveAt(init, seat) + [membership[n]];
    }
  }

  lemma {:induction false} WithoutNobody(membership: seq<NodeInfo>, id: NodeId)
    requires forall i :: 0 <= i < |membership| ==> membership[i].id != id
    ensures Without(membership, id) == membership
  {
    if membership != [] {
      var n := |membership| - 1;
      WithoutNobody(membership[..n], id);
      assert membership == membership[..n] + [membership[n]];
    }
  }

  /** The removal of a node by the metadata store takes one seat out of the ring: it is the ring of a Remove action. */
  lemma RemovalShrinksRing(config: Config, id: NodeId)
    requires RingOf(config).Some? && DistinctMembers(config.membership) && HasMember(config.membership, id)
    ensures var r := RingOf(config).value;
      var seat := SeatOf(r.members, id);
      && Metadata.Remove(config, id).Some? && seat < |r.members| && r.members[seat] == id
      && RingOf(Metadata.Remove(config, id).value) == Some(Shrunk(r, seat, config.epoch + 1))
  {
    var r := RingOf(config).value;
    IdsAreMembers(config.membership, id);
    var seat := SeatOf(r.members, id);
    assert config.membership[seat].id == id;
    WithoutIsRemoveAt(config.membership, seat);
    assert Ids(RemoveAt(config.membership, seat)) == RemoveAt(r.members, seat);
  }

  /** ... so with one head for all keys it is an action of the system, with writes in flight, exactly if the member may
      go. */
  lemma RemovalIsAction(c: Cluster, config: Config, id: NodeId, resend: seq<Resend>)
    requires Shape(c) && RingOf(config) == Some(c.ring) && DistinctMembers(config.membership)
    requires HasMember(config.membership, id) && |c.ring.members| >= 2 && c.ring.mode != CROWN
    requires RingOf(Metadata.Remove(config, id).value).Some?
    requires AllPending(c, RingOf(Metadata.Remove(config, id).value).value, resend)
    ensures var seat := SeatOf(c.ring.members, id);
      && seat < |c.ring.members|
      && (Enabled(c, Action.Remove(seat, config.epoch + 1, resend)) <==> forall key :: MayGo(c, seat, key))
  {
    hide MayGo, AllPending;
    RemovalShrinksRing(config, id);
  }

  /** The added node is the one that enters. */
  lemma AdditionExtendsRing(config: Config, node: NodeInfo)
    requires RingOf(config).Some? && DistinctMembers(config.membership) && Metadata.Add(config, node).Some?
    ensures var next := Metadata.Add(config, node).value;
      && RingOf(next) == Some(Ring(RingOf(config).value.members + [node.id], RingOf(config).value.mode, config.epoch + 1))
      && DistinctMembers(next.membership) && RingOf(next).value.Valid()
      && node.id !in RingOf(config).value.members
  {
    var next := Metadata.Add(config, node).value;
    ChangesKeepDistinct(config, "", node, "");
    IdsAreMembers(config.membership, node.id);
    assert Ids(next.membership) == Ids(config.membership) + [node.id];
    RingOfIsValid(next);
  }

  lemma PeersAreMembers(config: Config, node: NodeInfo, answers: map<NodeId, Dump>)
    requires RingOf(config).Some? && Metadata.Add(config, node).Some?
    ensures var dumps := DumpsOf(Metadata.Add(config, node).value.membership, node.id, answers);
      forall x :: x in dumps ==> x == node.id && dumps[x] in RingOf(config).value.members
  {
    var next := Metadata.Add(config, node).value;
    var peer := FirstPeer(next.membership, node.id, answers);
    if peer.Some? {
      var i :| 0 <= i < |next.membership| && next.membership[i].id == peer.value;
      assert config.membership[i].id == peer.value;
      IdsAreMembers(config.membership, peer.value);
    }
  }

  /** The addition of a node in a settled state is an action of the system, and by that keeps every invariant, exactly if
      the node obtains a dump or has the newest version of every key already. */
  lemma AdditionIsAction(c: Cluster, config: Config, node: NodeInfo, answers: map<NodeId, Dump>, resend: seq<Resend>)
    requires Shape(c) && Settled(c) && RingOf(config) == Some(c.ring) && DistinctMembers(config.membership)
    requires Metadata.Add(config, node).Some? && node.id in c.servers && node.id != "" && Honest(c, answers)
    requires RingOf(Metadata.Add(config, node).value).Some?
    requires AllPending(c, RingOf(Metadata.Add(config, node).value).value, resend)
    ensures var next := Metadata.Add(config, node).value;
      var dumps := DumpsOf(next.membership, node.id, answers);
      Enabled(c, Switch(RingOf(next).value, dumps, resend)) <==>
      FirstPeer(next.membership, node.id, answers).Some? ||
      forall key :: CleanVersion(c.servers[node.id].store, key) == |Hist(c, key)|
  {
    hide AllPending, Settled, CleanVersion;
    AdditionExtendsRing(config, node);
    PeersAreMembers(config, node, answers);
    var next := Metadata.Add(config, node).value;
    var ring := RingOf(next).value;
    assert forall x :: x in ring.members <==> x in c.ring.members || x == node.id;
    assert node.id in ring.members;
  }

  /** A mode change in a settled state is an action of the system. */
  lemma ModeChangeIsAction(c: Cluster, config: Config, mode: string, resend: seq<Resend>)
    requires Shape(c) && Settled(c) && RingOf(config) == Some(c.ring) && DistinctMembers(config.membership)
    requires ModeOf(mode).Some? && AllPending(c, RingOf(ChangeMode(config, mode)).value, resend)
    ensures Enabled(c, Switch(RingOf(ChangeMode(config, mode)).value, map[], resend))
  {
    hide AllPending, Settled;
    assert RingOf(ChangeMode(config, mode)).value.members == c.ring.members;
  }

  /** The removal of a node in a settled state is an action of the system in every mode, CROWN included. */
  lemma SettledRemovalIsAction(c: Cluster, config: Config, id: NodeId, resend: seq<Resend>)
    requires Shape(c) && Settled(c) && RingOf(config) == Some(c.ring) && DistinctMembers(config.membership)
    requires HasMember(config.membership, id) && |c.ring.members| >= 2
    requires RingOf(Metadata.Remove(config, id).value).Some?
    requires AllPending(c, RingOf(Metadata.Remove(config, id).value).value, resend)
    ensures Enabled(c, Switch(RingOf(Metadata.Remove(config, id).value).value, map[], resend))
  {
    hide AllPending, Settled;
    RemovalShrinksRing(config, id);
    ShrunkMembers(c.ring, SeatOf(c.ring.members, id), config.epoch + 1);
  }
}
