/** A server process: the membership it holds, its store, and one replication object per mode. */
module Servers {
  import opened Types
  import opened Rings
  import opened Stores
  import opened KVStores
  import opened Handlers
  import opened Replicas
  import opened Metadata

  /** A committed snapshot of a peer, as a state dump carries it. */
  datatype Dump = Dump(values: map<Key, Value>, versions: map<Key, nat>)

  /** What a server process holds before it has heard of any membership. */
  const BLANK := Config(0, "", [])

  /** A reconfiguration request replaces what is held unless it is older; a repeated one replaces it by the same. */
  function TakeOrder(held: Config, c: Config): Config {
    if c.epoch < held.epoch then held else c
  }

  /** The answer of the metadata store to a fetch; a fetch caused by a message of a newer epoch counts only if it
      brings a newer epoch. */
  function TakeFetch(held: Config, c: Config, onlyNewer: bool): Config {
    if c.epoch < held.epoch || (onlyNewer && c.epoch == held.epoch) then held else c
  }

  /** The first other member that answers a state dump. */
  function FirstPeer(membership: seq<NodeInfo>, id: NodeId, answers: map<NodeId, Dump>): (peer: Option<NodeId>)
    ensures peer.Some? ==> peer.value in answers && peer.value != id && HasMember(membership, peer.value)
    ensures peer.None? ==> forall m :: m in membership && m.id != id ==> m.id !in answers
  {
    if membership == [] then None
    else if membership[0].id != id && membership[0].id in answers then Some(membership[0].id)
    else
      var rest := FirstPeer(membership[1..], id, answers);
      assert rest.Some? ==> exists i :: 0 <= i < |membership| - 1 && membership[1..][i].id == rest.value;
      assert membership == [membership[0]] + membership[1..];
      rest
  }

  /** No other member that answers comes before it. */
  lemma {:induction false} FirstPeerIsFirst(membership: seq<NodeInfo>, id: NodeId, answers: map<NodeId, Dump>, i: nat)
    returns (j: nat)
    requires i < |membership| && membership[i].id != id && membership[i].id in answers
    ensures j <= i && FirstPeer(membership, id, answers) == Some(membership[j].id)
  {
    if membership[0].id != id && membership[0].id in answers {
      j := 0;
    } else {
      j := FirstPeerIsFirst(membership[1..], id, answers, i - 1);
      j := j + 1;
    }
  }

  function FirstDump(membership: seq<NodeInfo>, id: NodeId, answers: map<NodeId, Dump>): Option<Dump> {
    var peer := FirstPeer(membership, id, answers);
    if peer.None? then None else Some(answers[peer.value])
  }

  /** The replication object has the membership, the seat and the epoch of a configuration. */
  ghost predicate Installed(r: Replica, c: Config, id: NodeId)
    reads r
  {
    r.members == Ids(c.membership) && r.index == SeatOf(Ids(c.membership), id) && r.epoch == c.epoch
  }

  /** All pending writes were sent on once, in some order. */
  ghost predicate Resent(r: Replica, pending: Table, sent: seq<Message>, ids: seq<ReqId>)
    reads r, r.kv
  {
    && Distinct(ids) && (forall id :: id in ids <==> id in pending)
    && var e := ForwardAll(r.RingView(), r.index, Local(r.kv.View(), pending), ids);
       r.LocalView() == e.local && r.sent == sent + e.out
  }

  /** The store with which a server enters a membership: one that is being added takes over a dump, if a peer
      answers. */
  function Entered(s: Store, membership: seq<NodeInfo>, id: NodeId, added: NodeId, answers: map<NodeId, Dump>): Store {
    if added == "" || added != id then s
    else
      match FirstDump(membership, id, answers)
      case None => s
      case Some(d) => ApplySnapshot(s, d.values, d.versions)
  }

  class Process {
    const id: NodeId
    const kv: KVStore
    const chain: Replica
    const craq: Replica
    const crown: Replica
    var epoch: nat
    var mode: string
    var membership: seq<NodeInfo>
    var starting: bool

    ghost function Held(): Config
      reads this`epoch, this`mode, this`membership
    {
      Config(epoch, mode, membership)
    }

    /** The three replication objects share the store. */
    ghost predicate Valid()
      reads chain, craq, crown
    {
      && chain.mode == CHAIN && craq.mode == CRAQ && crown.mode == CROWN
      && chain.kv == craq.kv == crown.kv == kv
      && chain.Valid() && craq.Valid() && crown.Valid()
    }

    ghost predicate AllInstalled()
      reads this`epoch, this`mode, this`membership, chain, craq, crown
    {
      Installed(chain, Held(), id) && Installed(craq, Held(), id) && Installed(crown, Held(), id)
    }

    /** The replication object of the mode in force, if the mode is known. */
    ghost function Active(): Option<Replica>
      reads this`mode
    {
      if mode == "CHAIN" then Some(chain)
      else if mode == "CRAQ" then Some(craq)
      else if mode == "CROWN" then Some(crown)
      else None
    }

    /** What is held describes the ring of the active replication object. */
    ghost predicate ActiveIsInForce()
      reads this`epoch, this`mode, this`membership, chain, craq, crown
    {
      RingOf(Held()) == if Active().None? then None else Some(Active().value.RingView())
    }

    constructor (id: NodeId)
      ensures Valid() && this.id == id && Held() == BLANK && starting && kv.View() == EMPTY
    {
      var store := new KVStore();
      this.id, kv := id, store;
      chain := new Replica(CHAIN, store);
      craq := new Replica(CRAQ, store);
      crown := new Replica(CROWN, store);
      epoch, mode, membership, starting := 0, "", [], true;
    }

    /** Installs what is held in all three replication objects. If the epoch went up, the one in force sends its
        pending writes to its new successor; the order of the table decides in which order. */
    method ApplyMembership(advanced: bool) returns (ids: seq<ReqId>)
      requires Valid()
      modifies chain, craq, crown
      ensures Valid() && AllInstalled() && ActiveIsInForce()
      ensures forall r :: r in {chain, craq, crown} && !(advanced && Active() == Some(r)) ==>
        r.pending == old(r.pending) && r.sent == old(r.sent)
      ensures forall r :: r in {chain, craq, crown} && advanced && Active() == Some(r) ==>
        Resent(r, old(r.pending), old(r.sent), ids)
    {
      ids := [];
      Install(chain);
      Install(craq);
      Install(crown);
      if !advanced {
        return;
      }
      if mode == "CHAIN" {
        ids := chain.ReforwardPending();
      } else if mode == "CRAQ" {
        ids := craq.ReforwardPending();
      } else if mode == "CROWN" {
        ids := crown.ReforwardPending();
      }
    }

    method Install(r: Replica)
      requires r.Valid()
      modifies r
      ensures r.Valid() && Installed(r, Held(), id)
      ensures r.pending == old(r.pending) && r.sent == old(r.sent)
    {
      var ids := Ids(membership);
      r.UpdateMembership(ids, id);
      r.SetEpoch(epoch);
    }

    /** Asks the members one after the other for their committed records and takes over the first answer. */
    method SyncFromPeer(answers: map<NodeId, Dump>)
      modifies kv
      ensures kv.View() == match FirstDump(membership, id, answers)
        case None => old(kv.View())
        case Some(d) => ApplySnapshot(old(kv.View()), d.values, d.versions)
    {
      var i := 0;
      while i < |membership|
        invariant 0 <= i <= |membership|
        invariant kv.View() == old(kv.View())
        invariant FirstDump(membership, id, answers) == FirstDump(membership[i..], id, answers)
      {
        var member := membership[i];
        assert membership[i..][1..] == membership[i + 1..];
        if member.id != id && member.id in answers {
          kv.ApplyCommittedSnapshot(answers[member.id].values, answers[member.id].versions);
          return;
        }
        i := i + 1;
      }
    }

    /** A reconfiguration request. `answers` says which peers would answer a state dump, and with what. */
    method Reconfigure(request: Config, added: NodeId, answers: map<NodeId, Dump>)
      returns (success: bool, ids: seq<ReqId>)
      requires Valid()
      modifies this, kv, chain, craq, crown
      ensures Valid()
      ensures success <==> request.epoch >= old(epoch)
      ensures Held() == TakeOrder(old(Held()), request)
      ensures !success ==> unchanged(this, kv, chain, craq, crown)
      ensures success ==> Held() == request && AllInstalled() && ActiveIsInForce() && !starting
      ensures success ==> kv.View() == Entered(old(kv.View()), request.membership, id, added, answers)
      ensures forall r :: r in {chain, craq, crown} && !(request.epoch > old(epoch) && Active() == Some(r)) ==>
        r.pending == old(r.pending) && r.sent == old(r.sent)
      ensures forall r :: r in {chain, craq, crown} && request.epoch > old(epoch) && Active() == Some(r) ==>
        Resent(r, old(r.pending), old(r.sent), ids)
    {
      if request.epoch < epoch {
        return false, [];
      }
      hide Resent, ApplySnapshot, FirstDump, Entered, RingOf, Ids, AllInstalled, ActiveIsInForce;
      var advanced := request.epoch > epoch;
      Adopt(request, added, answers);
      ids := ApplyMembership(advanced);
      starting := false;
      success := true;
    }

    /** Takes the new membership, and the dump if this is the added server. */
    method Adopt(request: Config, added: NodeId, answers: map<NodeId, Dump>)
      requires Valid()
      modifies this, kv
      ensures Valid() && Held() == request
      ensures kv.View() == Entered(old(kv.View()), request.membership, id, added, answers)
    {
      epoch, mode, membership := request.epoch, request.mode, request.membership;
      if added != "" && added == id {
        SyncFromPeer(answers);
      }
    }

    /** A fetched membership: on start and after a heartbeat, or because of a message of a newer epoch. */
    method Refresh(response: Config, onlyNewer: bool) returns (ids: seq<ReqId>)
      requires Valid()
      modifies this, chain, craq, crown
      ensures Valid()
      ensures Held() == TakeFetch(old(Held()), response, onlyNewer)
      ensures response.epoch < old(epoch) || (onlyNewer && response.epoch == old(epoch)) ==>
        unchanged(this, chain, craq, crown)
      ensures response.epoch > old(epoch) || (!onlyNewer && response.epoch == old(epoch)) ==>
        Held() == response && AllInstalled() && ActiveIsInForce() && (starting <==> old(starting) && onlyNewer)
      ensures forall r :: r in {chain, craq, crown} && !(response.epoch > old(epoch) && Active() == Some(r)) ==>
        r.pending == old(r.pending) && r.sent == old(r.sent)
      ensures forall r :: r in {chain, craq, crown} && response.epoch > old(epoch) && Active() == Some(r) ==>
        Resent(r, old(r.pending), old(r.sent), ids)
    {
      if response.epoch < epoch || (onlyNewer && response.epoch == epoch) {
        return [];
      }
      var advanced := response.epoch > epoch;
      epoch, mode, membership := response.epoch, response.mode, response.membership;
      if !onlyNewer {
        starting := false;
      }
      ids := ApplyMembership(advanced);
    }
  }
}
