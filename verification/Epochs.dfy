/** The metadata store and all servers together: which configurations servers can hold, whatever happens to
    reconfiguration requests and to the answers to fetches. */
module Epochs {
  import opened Types
  import opened Rings
  import opened Metadata
  import opened Servers

  /** In flight: a reconfiguration request, or the answer to a fetch. */
  datatype Packet = Order(order: Reconfigure) | Answer(to: NodeId, config: Config)

  /** `history` holds the configuration of every epoch so far; the last one is in force at the metadata store. */
  datatype World = World(history: seq<Config>, servers: map<NodeId, Config>, net: seq<Packet>)

  datatype Event =
    | Fail(node: NodeId)
    | Join(info: NodeInfo)
    | SwitchMode(mode: string)
    | Start(node: NodeId)
    | Fetch(node: NodeId)
    | Arrive(i: nat, onlyNewer: bool)
    | Drop(i: nat)
    | Repeat(i: nat)

  function Master(w: World): Config
    requires w.history != []
  {
    w.history[|w.history| - 1]
  }

  function Orders(sent: seq<Reconfigure>): (net: seq<Packet>)
    ensures forall p :: p in net ==> p.Order? && p.order in sent
  {
    seq(|sent|, i requires 0 <= i < |sent| => Order(sent[i]))
  }

  /** A new configuration takes effect at the metadata store and is announced. */
  function Change(w: World, next: Option<Config>, removed: NodeId, added: NodeId): World {
    if next.None? then w
    else w.(history := w.history + [next.value], net := w.net + Orders(Announce(next.value, removed, added)))
  }

  /** A packet reaches its server, if it is up. */
  function Delivered(w: World, p: Packet, onlyNewer: bool): World {
    match p
    case Order(o) =>
      if o.to in w.servers then w.(servers := w.servers[o.to := TakeOrder(w.servers[o.to], o.config)]) else w
    case Answer(x, c) =>
      if x in w.servers then w.(servers := w.servers[x := TakeFetch(w.servers[x], c, onlyNewer)]) else w
  }

  /** An event that is not possible changes nothing. A server starts once. */
  function Next(w: World, e: Event): World
    requires w.history != []
  {
    match e
    case Fail(x) => Change(w, Remove(Master(w), x), x, "")
    case Join(info) => Change(w, Add(Master(w), info), "", info.id)
    case SwitchMode(m) => Change(w, Some(ChangeMode(Master(w), m)), "", "")
    case Start(x) => if x in w.servers then w else w.(servers := w.servers[x := BLANK])
    case Fetch(x) => w.(net := w.net + [Answer(x, Master(w))])
    case Arrive(i, onlyNewer) => if i < |w.net| then Delivered(w.(net := RemoveAt(w.net, i)), w.net[i], onlyNewer) else w
    case Drop(i) => if i < |w.net| then w.(net := RemoveAt(w.net, i)) else w
    case Repeat(i) => if i < |w.net| then w.(net := w.net + [w.net[i]]) else w
  }

  predicate Known(history: seq<Config>, c: Config) {
    1 <= c.epoch <= |history| && history[c.epoch - 1] == c
  }

  function ConfigOf(p: Packet): Config {
    match p
    case Order(o) => o.config
    case Answer(_, c) => c
  }

  ghost predicate AllDistinct(history: seq<Config>) {
    forall i :: 0 <= i < |history| ==> DistinctMembers(history[i].membership)
  }

  ghost predicate WorldInv(w: World) {
    && w.history != []
    && (forall i :: 0 <= i < |w.history| ==> w.history[i].epoch == i + 1)
    && (DistinctMembers(w.history[0].membership) ==> AllDistinct(w.history))
    && (forall x :: x in w.servers ==> w.servers[x] == BLANK || Known(w.history, w.servers[x]))
    && (forall p :: p in w.net ==> Known(w.history, ConfigOf(p)))
  }

  /** What events never undo. */
  ghost predicate Later(w: World, v: World) {
    && w.history <= v.history
    && forall x :: x in w.servers ==> x in v.servers && w.servers[x].epoch <= v.servers[x].epoch
  }

  lemma ChangeKeepsInv(w: World, next: Option<Config>, removed: NodeId, added: NodeId)
    requires WorldInv(w)
    requires next.Some? ==> next.value.epoch == |w.history| + 1
    requires next.Some? && DistinctMembers(Master(w).membership) ==> DistinctMembers(next.value.membership)
    ensures WorldInv(Change(w, next, removed, added)) && Later(w, Change(w, next, removed, added))
  {
    if next.Some? {
      var v := Change(w, next, removed, added);
      forall p | p in v.net ensures Known(v.history, ConfigOf(p)) {
        if p in w.net {
          assert Known(w.history, ConfigOf(p));
        } else {
          assert p.order in Announce(next.value, removed, added);
        }
      }
      forall x | x in v.servers ensures v.servers[x] == BLANK || Known(v.history, v.servers[x]) {
        assert w.servers[x] == BLANK || Known(w.history, w.servers[x]);
      }
    }
  }

  lemma DeliveredKeepsInv(w: World, p: Packet, onlyNewer: bool)
    requires WorldInv(w) && Known(w.history, ConfigOf(p))
    ensures WorldInv(Delivered(w, p, onlyNewer)) && Later(w, Delivered(w, p, onlyNewer))
  {
    hide Known, DistinctMembers;
    var v := Delivered(w, p, onlyNewer);
    forall x | x in v.servers ensures v.servers[x] == BLANK || Known(v.history, v.servers[x]) {
      assert w.servers[x] == BLANK || Known(w.history, w.servers[x]);
    }
  }

  lemma LessKeepsInv(w: World, i: nat)
    requires WorldInv(w) && i < |w.net|
    ensures WorldInv(w.(net := RemoveAt(w.net, i))) && Known(w.history, ConfigOf(w.net[i]))
  {
    hide Known, DistinctMembers;
    assert w.net[i] in w.net;
    assert forall p :: p in RemoveAt(w.net, i) ==> p in w.net;
  }

  lemma ArriveKeepsInv(w: World, i: nat, onlyNewer: bool)
    requires WorldInv(w) && i < |w.net|
    ensures WorldInv(Next(w, Arrive(i, onlyNewer))) && Later(w, Next(w, Arrive(i, onlyNewer)))
  {
    hide WorldInv, Known, Delivered, DistinctMembers;
    LessKeepsInv(w, i);
    DeliveredKeepsInv(w.(net := RemoveAt(w.net, i)), w.net[i], onlyNewer);
  }

  lemma NextKeepsInv(w: World, e: Event)
    requires WorldInv(w)
    ensures WorldInv(Next(w, e)) && Later(w, Next(w, e))
  {
    match e {
      case Fail(x) =>
        if DistinctMembers(Master(w).membership) { ChangesKeepDistinct(Master(w), x, NodeInfo("", ""), ""); }
        ChangeKeepsInv(w, Remove(Master(w), x), x, "");
      case Join(info) =>
        if DistinctMembers(Master(w).membership) { ChangesKeepDistinct(Master(w), "", info, ""); }
        ChangeKeepsInv(w, Add(Master(w), info), "", info.id);
      case SwitchMode(m) =>
        if DistinctMembers(Master(w).membership) { ChangesKeepDistinct(Master(w), "", NodeInfo("", ""), m); }
        ChangeKeepsInv(w, Some(ChangeMode(Master(w), m)), "", "");
      case Start(x) =>
      case Fetch(x) =>
      case Arrive(i, onlyNewer) => if i < |w.net| { ArriveKeepsInv(w, i, onlyNewer); }
      case Drop(i) =>
      case Repeat(i) =>
    }
  }

  /** Runs start with the metadata store in epoch 1 and no server up. */
  ghost predicate WorldRun(states: seq<World>, events: seq<Event>) {
    && |states| == |events| + 1
    && (exists mode, members :: states[0] == World([Config(1, mode, members)], map[], []))
    && forall i :: 0 <= i < |events| ==> states[i].history != [] && states[i + 1] == Next(states[i], events[i])
  }

  lemma {:induction false} RunKeepsInv(states: seq<World>, events: seq<Event>, i: nat, j: nat)
    requires WorldRun(states, events) && i <= j < |states|
    ensures WorldInv(states[i]) && WorldInv(states[j]) && Later(states[i], states[j])
    decreases j
  {
    hide Next;
    if j > 0 {
      RunKeepsInv(states, events, if i < j then i else i - 1, j - 1);
      NextKeepsInv(states[j - 1], events[j - 1]);
    }
  }

  /** Under any loss, duplication and reordering of reconfiguration requests and fetched memberships: a server's
      epoch never goes down and never exceeds the epoch of the metadata store, and whenever two servers hold the
      same epoch, at the same time or not, they hold the same membership and mode. */
  lemma EpochAgreement(states: seq<World>, events: seq<Event>, i: nat, j: nat, x: NodeId, y: NodeId)
    requires WorldRun(states, events) && i <= j < |states|
    requires x in states[i].servers && y in states[j].servers
    ensures x in states[j].servers && states[j].history != []
    ensures states[i].servers[x].epoch <= states[j].servers[x].epoch <= Master(states[j]).epoch
    ensures states[i].servers[x].epoch == states[j].servers[y].epoch ==> states[i].servers[x] == states[j].servers[y]
  {
    RunKeepsInv(states, events, i, j);
    assert states[j].servers[y] == BLANK || Known(states[j].history, states[j].servers[y]);
  }

  /** Servers in the same epoch agree on the head, the tail and the neighbours of every key: they have the same ring;
      its members are distinct if the members at the start were. */
  lemma SameEpochSameRing(states: seq<World>, events: seq<Event>, j: nat, x: NodeId, y: NodeId)
    requires WorldRun(states, events) && j < |states| && x in states[j].servers && y in states[j].servers
    requires states[j].servers[x].epoch == states[j].servers[y].epoch
    ensures RingOf(states[j].servers[x]) == RingOf(states[j].servers[y])
    ensures states[0].history != []
    ensures DistinctMembers(states[0].history[0].membership) && states[j].servers[x].membership != [] ==>
              RingOf(states[j].servers[x]).Some? ==> RingOf(states[j].servers[x]).value.Valid()
  {
    EpochAgreement(states, events, j, j, x, y);
    RunKeepsInv(states, events, 0, j);
    var c := states[j].servers[x];
    if c != BLANK && DistinctMembers(states[0].history[0].membership) {
      assert Known(states[j].history, c);
      assert AllDistinct(states[j].history);
      assert DistinctMembers(c.membership);
    }
  }

  /** A server that installs an answer given since the last change holds exactly what is in force, whatever it held
      before and whichever way it asked. */
  lemma FetchCatchesUp(w: World, i: nat, onlyNewer: bool)
    requires WorldInv(w) && i < |w.net| && w.net[i].Answer? && w.net[i].to in w.servers
    requires w.net[i].config.epoch == Master(w).epoch
    ensures Next(w, Arrive(i, onlyNewer)).servers[w.net[i].to] == Master(w)
  {
    var held := w.servers[w.net[i].to];
    assert held == BLANK || Known(w.history, held);
    assert Known(w.history, ConfigOf(w.net[i]));
  }

  function Addressee(p: Packet): NodeId {
    match p
    case Order(o) => o.to
    case Answer(x, _) => x
  }

  /** What reaches a running server is obeyed, a reconfiguration request or the answer to a fetch: afterwards the server's epoch
      is at least that of the configuration, it holds exactly that configuration if and only if it was not older than its own,
      and one of the epoch in force brings it to what is in force. No other server moves. */
  lemma PacketIsObeyed(w: World, i: nat, onlyNewer: bool)
    requires WorldInv(w) && i < |w.net| && Addressee(w.net[i]) in w.servers
    ensures var x, c := Addressee(w.net[i]), ConfigOf(w.net[i]);
      var v := Next(w, Arrive(i, onlyNewer));
      && v.history == w.history && v.servers.Keys == w.servers.Keys
      && v.servers[x].epoch >= c.epoch && v.servers[x].epoch >= w.servers[x].epoch
      && (v.servers[x] == c <==> w.servers[x].epoch <= c.epoch)
      && (c.epoch == Master(w).epoch ==> v.servers[x] == Master(w))
      && forall y :: y in w.servers && y != x ==> v.servers[y] == w.servers[y]
  {
    hide DistinctMembers;
    var held := w.servers[Addressee(w.net[i])];
    assert held == BLANK || Known(w.history, held);
    assert w.net[i] in w.net;
    assert Known(w.history, ConfigOf(w.net[i]));
  }

  /** A change of the metadata store takes effect with the next epoch: a failed member is gone and everybody else stays, a new
      one is the last member, a mode change leaves the members alone. */
  lemma ChangeTakesEffect(w: World, e: Event)
    requires WorldInv(w)
    ensures var c, v := Master(w), Next(w, e);
      && v.history != [] && var d := Master(v);
      && (e.Fail? && HasMember(c.membership, e.node) ==>
           && d.epoch == c.epoch + 1 && d.mode == c.mode
           && (forall m :: m in d.membership <==> m in c.membership && m.id != e.node))
      && (e.Join? && !HasMember(c.membership, e.info.id) ==> d == Config(c.epoch + 1, c.mode, c.membership + [e.info]))
      && (e.SwitchMode? ==> d == Config(c.epoch + 1, e.mode, c.membership))
  {
    hide WorldInv, Known, DistinctMembers, Announce;
    assert w.history != [] by { SomeHistory(w); }
    if e.Fail? { WithoutOnly(Master(w).membership, e.node); }
  }

  lemma SomeHistory(w: World)
    requires WorldInv(w)
    ensures w.history != []
  {
  }

  /** Every member of the new configuration is sent it, with the name of who was removed or added. */
  lemma ChangeIsAnnounced(w: World, e: Event, m: NodeInfo)
    requires w.history != [] && Next(w, e).history != w.history && m in Master(Next(w, e)).membership
    ensures Next(w, e).history != []
    ensures Order(Reconfigure(m.id, Master(Next(w, e)), if e.Fail? then e.node else "", if e.Join? then e.info.id else ""))
            in Next(w, e).net
  {
    var d := Master(Next(w, e));
    var sent := Announce(d, if e.Fail? then e.node else "", if e.Join? then e.info.id else "");
    assert Next(w, e).net == w.net + Orders(sent);
    var k :| 0 <= k < |d.membership| && d.membership[k] == m;
    assert Orders(sent)[k] in Orders(sent);
  }

  // ---------- the answer to a mode change ----------

  /** A mode change is answered at one moment and takes effect at a later one. The epoch in the answer is the epoch of the
      change exactly if nothing else changed in between. */
  lemma AnswerExactly(states: seq<World>, events: seq<Event>, i: nat, j: nat, mode: string)
    requires WorldRun(states, events) && i <= j < |events| && events[j] == SwitchMode(mode)
    requires states[i].history != [] && mode in MODES && mode != Master(states[i]).mode
    ensures states[j + 1].history != [] && Master(states[j + 1]).mode == mode
    ensures AnswerTo(Master(states[i]), mode) == Switched(Master(states[j + 1]).epoch) <==>
            states[j].history == states[i].history
  {
    RunKeepsInv(states, events, i, j);
    assert states[j + 1] == Next(states[j], SwitchMode(mode));
    assert states[j + 1].history == states[j].history + [ChangeMode(Master(states[j]), mode)];
  }

  /** A request for the mode in force is answered with the epoch of the configuration that has it, and changes nothing; one for
      an unknown mode is refused. */
  lemma AnswerInForce(states: seq<World>, events: seq<Event>, i: nat, mode: string)
    requires WorldRun(states, events) && i < |states|
    ensures states[i].history != []
    ensures mode in MODES && mode == Master(states[i]).mode ==>
      AnswerTo(Master(states[i]), mode) == Switched(|states[i].history|)
    ensures AnswerTo(Master(states[i]), mode) == UnknownMode <==> mode !in MODES
  {
    RunKeepsInv(states, events, i, i);
  }

  /** A server is added between the answer and the change: the answer names the epoch of the addition. */
  lemma AnswerIsAGuess(first: Config, info: NodeInfo, mode: string)
    returns (states: seq<World>, events: seq<Event>)
    requires first.epoch == 1 && !HasMember(first.membership, info.id) && mode in MODES && mode != first.mode
    ensures WorldRun(states, events) && events == [Join(info), SwitchMode(mode)]
    ensures states[0].history == [first] && AnswerTo(first, mode) == Switched(2)
    ensures |states[2].history| == 3 && states[2].history[1] == Add(first, info).value
    ensures Master(states[2]).mode == mode && Master(states[2]).epoch == 3
  {
    var w := World([first], map[], []);
    var v := Next(w, Join(info));
    states, events := [w, v, Next(v, SwitchMode(mode))], [Join(info), SwitchMode(mode)];
    assert w == World([Config(1, first.mode, first.membership)], map[], []);
  }
}
