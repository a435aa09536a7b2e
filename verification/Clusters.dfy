/** The whole system: servers, the messages in flight, and every atomic step any of them can take.
    The network is a bag: a message may be delivered in any order, lost, or duplicated. */
module Clusters {
  import opened Types
  import opened Rings
  import opened Stores
  import opened Handlers

  /** A server process: one store, and a pending table per replication mode. */
  datatype Server = Server(store: Store, tables: map<Mode, Table>)

  function TableOf(s: Server, mode: Mode): Table {
    if mode in s.tables then s.tables[mode] else map[]
  }

  function LocalOf(s: Server, mode: Mode): Local {
    Local(s.store, TableOf(s, mode))
  }

  function WithLocal(s: Server, mode: Mode, local: Local): Server {
    Server(local.store, s.tables[mode := local.table])
  }

  /** A write the head of its key accepted, and the address its client wants to be told at. */
  datatype Write = Write(id: ReqId, value: Value, client: Option<string>)

  function WriteOf(req: PutRequest): Write {
    Write(req.id, req.value, req.client)
  }

  /** `hist` remembers, per key, the accepted writes in the order in which they were accepted: the write
      with version v is entry v-1. No handler reads it. */
  datatype Cluster = Cluster(ring: Ring, servers: map<NodeId, Server>, net: seq<Message>, hist: map<Key, seq<Write>>)

  function Hist(c: Cluster, key: Key): seq<Write> {
    if key in c.hist then c.hist[key] else []
  }

  function Seat(c: Cluster, x: NodeId): nat {
    SeatOf(c.ring.members, x)
  }

  /** A settled switch carries the servers that obtained a dump, and from whom. A removal takes out one member while
      writes are in flight. */
  datatype Action =
    | ClientPut(node: NodeId, req: PutRequest)
    | Deliver(i: nat)
    | Retry(node: NodeId, id: ReqId)
    | Lose(i: nat)
    | Duplicate(i: nat)
    | Switch(ring: Ring, dumps: map<NodeId, NodeId>, resend: seq<Resend>)
    | Remove(seat: nat, epoch: nat, resend: seq<Resend>)

  /** One pending write that a reconfigured server sends again. */
  datatype Resend = Resend(node: NodeId, id: ReqId)

  ghost predicate Fresh(c: Cluster, id: ReqId) {
    forall key, v :: 0 <= v < |Hist(c, key)| ==> Hist(c, key)[v].id != id
  }

  /** All members hold the same clean records and no dirty ones. */
  ghost predicate Settled(c: Cluster) {
    && (forall x :: x in c.ring.members ==> x in c.servers)
    && (forall x, y, key :: x in c.ring.members && y in c.ring.members ==>
          At(c.servers[x].store, key).clean == At(c.servers[y].store, key).clean)
    && (forall x, key :: x in c.ring.members ==> DirtyAt(c.servers[x].store, key) == map[])
  }

  predicate HoldsAt(s: Store, key: Key, v: nat) {
    v in DirtyAt(s, key) || v <= CleanVersion(s, key)
  }

  /** Every server that enters without a dump has the newest version of every key already. */
  ghost predicate EntrantsReady(c: Cluster, ring: Ring, dumps: map<NodeId, NodeId>) {
    forall x, key :: x in ring.members && x !in c.ring.members && x !in dumps && x in c.servers ==>
      CleanVersion(c.servers[x].store, key) == |Hist(c, key)|
  }

  /** Exactly the writes pending at the members of a new ring, in its mode. */
  ghost predicate AllPending(c: Cluster, ring: Ring, resend: seq<Resend>) {
    && (forall k :: 0 <= k < |resend| ==> resend[k].node in ring.members)
    && (forall x, id :: x in ring.members && x in c.servers ==>
          (Resend(x, id) in resend <==> id in TableOf(c.servers[x], ring.mode)))
  }

  /** The ring without one of its seats. */
  function Shrunk(r: Ring, seat: nat, epoch: nat): Ring
    requires seat < |r.members|
  {
    Ring(RemoveAt(r.members, seat), r.mode, epoch)
  }

  /** The server has every version of the key that was ever handed out, or a newer clean one. */
  ghost predicate Complete(c: Cluster, x: NodeId, key: Key) {
    x in c.servers ==> forall v :: 1 <= v <= |Hist(c, key)| ==> HoldsAt(c.servers[x].store, key, v)
  }

  ghost predicate NothingDirty(c: Cluster, x: NodeId, key: Key) {
    x in c.servers ==> DirtyAt(c.servers[x].store, key) == map[]
  }

  ghost predicate SameCommitted(c: Cluster, x: NodeId, y: NodeId, key: Key) {
    x in c.servers && y in c.servers ==> CleanVersion(c.servers[x].store, key) == CleanVersion(c.servers[y].store, key)
  }

  /** A member may go while writes are in flight: the head only if its successor has everything the head has, the tail only
      if its predecessor has committed as much, and in CHAIN mode has nothing dirty besides; any other one always. */
  ghost predicate MayGo(c: Cluster, seat: nat, key: Key)
    requires seat < |c.ring.members| && |c.ring.members| >= 2
  {
    && (seat == 0 ==> Complete(c, c.ring.members[1], key))
    && (seat == |c.ring.members| - 1 ==>
          if c.ring.mode == CHAIN then NothingDirty(c, c.ring.members[seat - 1], key)
          else SameCommitted(c, c.ring.members[seat - 1], c.ring.members[seat], key))
  }

  /** Client writes come with version 0 and an id never used before. */
  ghost predicate Enabled(c: Cluster, a: Action) {
    match a
    case ClientPut(x, req) => x in c.ring.members && x in c.servers && req.version == 0 && Fresh(c, req.id)
    case Deliver(i) => i < |c.net| && (c.net[i].CommitAck? || (c.net[i].to in c.ring.members && c.net[i].to in c.servers))
    case Retry(x, id) =>
      && x in c.ring.members && x in c.servers
      && id in TableOf(c.servers[x], c.ring.mode)
      && TableOf(c.servers[x], c.ring.mode)[id].retries < MAX_RETRIES
    case Lose(i) => i < |c.net|
    case Duplicate(i) => i < |c.net|
    case Switch(ring, dumps, resend) =>
      && Settled(c)
      && ring.Valid() && ring.epoch > c.ring.epoch
      && (forall x :: x in ring.members ==> x in c.servers)
      && (forall x :: x in dumps ==> dumps[x] in c.ring.members)
      && EntrantsReady(c, ring, dumps)
      && AllPending(c, ring, resend)
    case Remove(seat, epoch, resend) =>
      && c.ring.mode != CROWN && seat < |c.ring.members| && |c.ring.members| >= 2 && epoch > c.ring.epoch
      && (forall key :: MayGo(c, seat, key))
      && AllPending(c, Shrunk(c.ring, seat, epoch), resend)
  }

  /** The state after server x has reacted; `rest` is what remains of the network. */
  function React(c: Cluster, x: NodeId, e: Effect, rest: seq<Message>): Cluster
    requires x in c.servers
  {
    c.(servers := c.servers[x := WithLocal(c.servers[x], c.ring.mode, e.local)], net := rest + e.out)
  }

  function Remember(c: Cluster, key: Key, w: Write): Cluster {
    c.(hist := c.hist[key := Hist(c, key) + [w]])
  }

  /** A client write, behind the server's epoch check. */
  ghost function TakePut(c: Cluster, x: NodeId, req: PutRequest): Cluster
    requires x in c.servers
  {
    if req.epoch < c.ring.epoch then c
    else
      var e := HandlePut(c.ring, Seat(c, x), LocalOf(c.servers[x], c.ring.mode), req);
      var c' := React(c, x, e.effect, c.net);
      if e.response.PutOk? then Remember(c', req.key, WriteOf(req)) else c'
  }

  /** A message arrives. Forwarded writes of an older epoch are refused, acknowledgements never are. */
  ghost function Receive(c: Cluster, i: nat): Cluster
    requires i < |c.net| && (c.net[i].CommitAck? || c.net[i].to in c.servers)
  {
    var rest := RemoveAt(c.net, i);
    match c.net[i]
    case ForwardPut(x, req) =>
      if req.epoch < c.ring.epoch then c.(net := rest)
      else React(c, x, HandlePut(c.ring, Seat(c, x), LocalOf(c.servers[x], c.ring.mode), req).effect, rest)
    case WriteAck(x, id, _, _, _) =>
      React(c, x, HandleAck(c.ring, Seat(c, x), LocalOf(c.servers[x], c.ring.mode), id), rest)
    case CommitAck(_, _, _) => c.(net := rest)
  }

  /** Every dump comes from a server that is up. */
  predicate DumpsUp(c: Cluster, dumps: map<NodeId, NodeId>) {
    forall x :: x in dumps ==> dumps[x] in c.servers
  }

  /** The store with which a server enters a new membership: a new member that obtained a dump applies it, everybody
      else keeps what it has. */
  function EntryStore(c: Cluster, x: NodeId, dumps: map<NodeId, NodeId>): Store
    requires x in c.servers && DumpsUp(c, dumps)
  {
    if x in c.ring.members || x !in dumps then c.servers[x].store
    else ApplyDump(c.servers[x].store, c.servers[dumps[x]].store)
  }

  /** Installs a membership everywhere. */
  function Install(c: Cluster, ring: Ring, dumps: map<NodeId, NodeId>): Cluster
    requires DumpsUp(c, dumps)
  {
    c.(ring := ring,
       servers := map x | x in c.servers ::
         if x in ring.members then c.servers[x].(store := EntryStore(c, x, dumps)) else c.servers[x])
  }

  /** Sends one pending write again without counting it as a retry. */
  function Reforward(c: Cluster, r: Resend): Cluster {
    if r.node in c.servers && r.id in TableOf(c.servers[r.node], c.ring.mode) then
      var local := LocalOf(c.servers[r.node], c.ring.mode);
      React(c, r.node, Forward(c.ring, Seat(c, r.node), local, local.table[r.id].req), c.net)
    else c
  }

  function ReforwardAll(c: Cluster, resend: seq<Resend>): Cluster {
    if resend == [] then c else Reforward(ReforwardAll(c, resend[..|resend| - 1]), resend[|resend| - 1])
  }

  /** The members stay as they are. */
  predicate FixedRing(a: Action) {
    !a.Switch? && !a.Remove?
  }

  ghost function Apply(c: Cluster, a: Action): Cluster
    requires Enabled(c, a)
  {
    match a
    case ClientPut(x, req) => TakePut(c, x, req)
    case Deliver(i) => Receive(c, i)
    case Retry(x, id) => React(c, x, RetryOne(c.ring, Seat(c, x), LocalOf(c.servers[x], c.ring.mode), id), c.net)
    case Lose(i) => c.(net := RemoveAt(c.net, i))
    case Duplicate(i) => c.(net := c.net + [c.net[i]])
    case Switch(ring, dumps, resend) => ReforwardAll(Install(c, ring, dumps), resend)
    case Remove(seat, epoch, resend) => ReforwardAll(Install(c, Shrunk(c.ring, seat, epoch), map[]), resend)
  }

  /** A freshly started cluster: empty stores, nothing pending, nothing in flight. */
  ghost predicate Init(c: Cluster) {
    && c.ring.Valid()
    && (forall x :: x in c.ring.members ==> x in c.servers)
    && (forall x :: x in c.servers ==> c.servers[x] == Server(EMPTY, map[]))
    && c.net == [] && c.hist == map[]
  }

  // ---------- runs ----------

  /** The states a sequence of actions leads through, first to last. */
  ghost predicate Run(states: seq<Cluster>, actions: seq<Action>) {
    && |states| == |actions| + 1
    && forall i :: 0 <= i < |actions| ==> Enabled(states[i], actions[i]) && states[i + 1] == Apply(states[i], actions[i])
  }
}
