/** The metadata store: the one place where membership, mode and epoch change. */
module Metadata {
  import opened Types
  import opened Rings

  datatype NodeInfo = NodeInfo(id: NodeId, address: string)

  /** A membership as it is handed out: mode names are plain strings, as on the wire. */
  datatype Config = Config(epoch: nat, mode: string, membership: seq<NodeInfo>)

  /** A reconfiguration request to one member. An id is empty when nothing was removed or added. */
  datatype Reconfigure = Reconfigure(to: NodeId, config: Config, removed: NodeId, added: NodeId)

  const MODES: set<string> := {"CHAIN", "CRAQ", "CROWN"}

  function Ids(membership: seq<NodeInfo>): (ids: seq<NodeId>)
    ensures |ids| == |membership| && forall i :: 0 <= i < |ids| ==> ids[i] == membership[i].id
  {
    seq(|membership|, i requires 0 <= i < |membership| => membership[i].id)
  }

  ghost predicate DistinctMembers(membership: seq<NodeInfo>) {
    forall i, j :: 0 <= i < j < |membership| ==> membership[i].id != membership[j].id
  }

  predicate HasMember(membership: seq<NodeInfo>, id: NodeId) {
    exists i :: 0 <= i < |membership| && membership[i].id == id
  }

  /** The members other than one, in their order. */
  function Without(membership: seq<NodeInfo>, id: NodeId): seq<NodeInfo> {
    if membership == [] then []
    else
      var last := membership[|membership| - 1];
      var rest := Without(membership[..|membership| - 1], id);
      if last.id == id then rest else rest + [last]
  }

  lemma {:induction false} WithoutOnly(membership: seq<NodeInfo>, id: NodeId)
    ensures forall m :: m in Without(membership, id) <==> m in membership && m.id != id
  {
    if membership != [] {
      var n := |membership| - 1;
      WithoutOnly(membership[..n], id);
      assert membership == membership[..n] + [membership[n]];
    }
  }

  /** What removing, adding and changing the mode make of a configuration; None when the store refuses. */
  function Remove(c: Config, id: NodeId): Option<Config> {
    if !HasMember(c.membership, id) then None
    else Some(c.(epoch := c.epoch + 1, membership := Without(c.membership, id)))
  }

  function Add(c: Config, node: NodeInfo): Option<Config> {
    if HasMember(c.membership, node.id) then None
    else Some(c.(epoch := c.epoch + 1, membership := c.membership + [node]))
  }

  function ChangeMode(c: Config, mode: string): Config {
    c.(epoch := c.epoch + 1, mode := mode)
  }

  /** One reconfiguration request for each member. */
  function Announce(c: Config, removed: NodeId, added: NodeId): (out: seq<Reconfigure>)
    ensures |out| == |c.membership|
    ensures forall i :: 0 <= i < |out| ==> out[i] == Reconfigure(c.membership[i].id, c, removed, added)
  {
    seq(|c.membership|, i requires 0 <= i < |c.membership| => Reconfigure(c.membership[i].id, c, removed, added))
  }

  lemma {:induction false} WithoutKeepsDistinct(membership: seq<NodeInfo>, id: NodeId)
    requires DistinctMembers(membership)
    ensures DistinctMembers(Without(membership, id))
  {
    if membership != [] {
      var n := |membership| - 1;
      WithoutKeepsDistinct(membership[..n], id);
      var rest := Without(membership[..n], id);
      WithoutOnly(membership[..n], id);
      forall i | 0 <= i < |rest| ensures rest[i].id != membership[n].id {
        assert rest[i] in membership[..n];
      }
    }
  }

  /** Member ids that are distinct stay distinct. */
  lemma ChangesKeepDistinct(c: Config, id: NodeId, node: NodeInfo, mode: string)
    requires DistinctMembers(c.membership)
    ensures Remove(c, id).Some? ==> DistinctMembers(Remove(c, id).value.membership)
    ensures Add(c, node).Some? ==> DistinctMembers(Add(c, node).value.membership)
    ensures DistinctMembers(ChangeMode(c, mode).membership)
  {
    WithoutKeepsDistinct(c.membership, id);
    if Add(c, node).Some? {
      var added := c.membership + [node];
      forall i, j | 0 <= i < j < |added| ensures added[i].id != added[j].id {
        if j == |c.membership| { assert c.membership[i].id != node.id; }
      }
    }
  }

  /** The answer to a mode change request. */
  datatype ModeReply = Switched(epoch: nat) | UnknownMode

  /** A request for the mode in force is answered with the epoch in force, one for another mode with the next epoch. */
  function AnswerTo(c: Config, requested: string): ModeReply {
    if requested !in MODES then UnknownMode
    else Switched(if requested == c.mode then c.epoch else c.epoch + 1)
  }

  function ModeOf(name: string): Option<Mode> {
    if name == "CHAIN" then Some(CHAIN)
    else if name == "CRAQ" then Some(CRAQ)
    else if name == "CROWN" then Some(CROWN)
    else None
  }

  function NameOf(mode: Mode): string {
    match mode
    case CHAIN => "CHAIN"
    case CRAQ => "CRAQ"
    case CROWN => "CROWN"
  }

  /** The modes and their names on the wire. */
  lemma ModeNames(name: string, mode: Mode)
    ensures ModeOf(name) == Some(mode) <==> name == NameOf(mode)
    ensures ModeOf(name).Some? <==> name in MODES
  {
  }

  /** The ring a configuration describes. */
  function RingOf(c: Config): Option<Ring> {
    if ModeOf(c.mode).None? then None else Some(Ring(Ids(c.membership), ModeOf(c.mode).value, c.epoch))
  }

  class MetadataStore {
    var epoch: nat
    var mode: string
    var membership: seq<NodeInfo>
    ghost var history: seq<Config>

    ghost function Current(): Config
      reads this
    {
      Config(epoch, mode, membership)
    }

    /** The history holds the configuration of every epoch, the first one at index 0. */
    ghost predicate Valid()
      reads this
    {
      && |history| == epoch >= 1
      && history[epoch - 1] == Current()
      && (forall i :: 0 <= i < |history| ==> history[i].epoch == i + 1)
    }

    constructor (mode: string, members: seq<NodeInfo>)
      ensures Valid() && Current() == Config(1, mode, members)
    {
      epoch, this.mode, membership := 1, mode, members;
      history := [Config(1, mode, members)];
    }

    method GetMembership() returns (config: Config)
      requires Valid()
      ensures config == Current() && config in history
    {
      config := Config(epoch, mode, membership);
      assert config == history[epoch - 1];
    }

    /** The members other than one, and whether that one was there. */
    method Survivors(failed: NodeId) returns (survivors: seq<NodeInfo>, found: bool)
      ensures survivors == Without(membership, failed) && (found <==> HasMember(membership, failed))
    {
      survivors, found := [], false;
      var i := 0;
      while i < |membership|
        invariant 0 <= i <= |membership|
        invariant survivors == Without(membership[..i], failed)
        invariant found <==> exists j :: 0 <= j < i && membership[j].id == failed
      {
        assert membership[..i + 1][..i] == membership[..i];
        if membership[i].id != failed {
          survivors := survivors + [membership[i]];
        } else {
          found := true;
        }
        i := i + 1;
      }
      assert membership[..i] == membership;
    }

    /** Takes a failed node out. The survivors are told; nothing happens if it is not a member. */
    method TriggerReconfigureRemove(failed: NodeId) returns (sent: seq<Reconfigure>)
      requires Valid()
      modifies this
      ensures Valid()
      ensures match Remove(old(Current()), failed)
        case None => sent == [] && Current() == old(Current()) && history == old(history)
        case Some(c) => sent == Announce(c, failed, "") && Current() == c && history == old(history) + [c]
    {
      var survivors, found := Survivors(failed);
      if !found {
        return [];
      }
      epoch, membership := epoch + 1, survivors;
      history := history + [Current()];
      sent := SendAll(failed, "");
    }

    /** Adds a node at the end of the membership, unless its id is there already. */
    method TriggerReconfigureAdd(node: NodeInfo) returns (sent: seq<Reconfigure>)
      requires Valid()
      modifies this
      ensures Valid()
      ensures match Add(old(Current()), node)
        case None => sent == [] && Current() == old(Current()) && history == old(history)
        case Some(c) => sent == Announce(c, "", node.id) && Current() == c && history == old(history) + [c]
    {
      var i := 0;
      while i < |membership|
        invariant 0 <= i <= |membership|
        invariant forall j :: 0 <= j < i ==> membership[j].id != node.id
      {
        if membership[i].id == node.id {
          return [];
        }
        i := i + 1;
      }
      epoch, membership := epoch + 1, membership + [node];
      history := history + [Current()];
      sent := SendAll("", node.id);
    }

    method TriggerModeChange(newMode: string) returns (sent: seq<Reconfigure>)
      requires Valid()
      modifies this
      ensures Valid()
      ensures var c := ChangeMode(old(Current()), newMode);
        sent == Announce(c, "", "") && Current() == c && history == old(history) + [c]
    {
      epoch, mode := epoch + 1, newMode;
      history := history + [Current()];
      sent := SendAll("", "");
    }

    method SendAll(removed: NodeId, added: NodeId) returns (sent: seq<Reconfigure>)
      ensures sent == Announce(Current(), removed, added)
    {
      sent := [];
      var config := Config(epoch, mode, membership);
      var i := 0;
      while i < |membership|
        invariant 0 <= i <= |membership|
        invariant sent == Announce(config, removed, added)[..i]
      {
        sent := sent + [Reconfigure(membership[i].id, config, removed, added)];
        i := i + 1;
      }
    }

    /** Answers a request for a mode; `start` says that a mode change is started in the background. */
    method SetMode(requested: string) returns (reply: ModeReply, start: bool)
      requires Valid()
      ensures reply == AnswerTo(Current(), requested)
      ensures start <==> requested in MODES && requested != mode
    {
      if requested != "CHAIN" && requested != "CRAQ" && requested != "CROWN" {
        return UnknownMode, false;
      }
      if mode == requested {
        return Switched(epoch), false;
      }
      return Switched(epoch + 1), true;
    }
  }
}
