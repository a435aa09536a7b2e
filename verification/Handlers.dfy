/** What each message handler of a replica does, as a function from what the replica holds to what it
    holds afterwards, what it sends and what it answers. CRAQ and CROWN differ only in the ring's choice
    of head; CHAIN also differs in what counts as stale and in where reads are served. */
module Handlers {
  import opened Types
  import opened Rings
  import opened Stores

  const MAX_RETRIES: nat := 3

  /** What one replication object works on: the shared store and its own pending table. */
  datatype Local = Local(store: Store, table: Table)

  datatype Effect = Effect(local: Local, out: seq<Message>)

  datatype PutEffect = PutEffect(effect: Effect, response: PutResponse)

  function Next(r: Ring, i: nat): Option<NodeId> {
    if |r.members| > 1 then Some(r.members[r.NextIndex(i)]) else None
  }

  function Prev(r: Ring, i: nat): Option<NodeId> {
    if |r.members| > 1 then Some(r.members[r.PrevIndex(i)]) else None
  }

  /** The acknowledgement of a write: to a replica, or to the client when there is none. */
  function AckFor(req: PutRequest, to: Option<NodeId>): seq<Message> {
    if to.Some? then [WriteAck(to.value, req.id, req.key, req.version, req.epoch)]
    else if req.client.Some? then [CommitAck(req.client.value, req.key, req.version)]
    else []
  }

  /** Files a write as pending; a write filed before keeps its retry count. */
  function Stage(table: Table, req: PutRequest): Table {
    table[req.id := Pending(req, if req.id in table then table[req.id].retries else 0)]
  }

  /** Sends a write to a node, if there is one, and files it as pending. */
  function SendOn(epoch: nat, local: Local, req: PutRequest, to: Option<NodeId>): Effect {
    if to.None? then Effect(local, [])
    else
      var stamped := req.(epoch := epoch);
      Effect(local.(table := Stage(local.table, stamped)), [ForwardPut(to.value, stamped)])
  }

  /** Sends a write to the successor. */
  function Forward(r: Ring, i: nat, local: Local, req: PutRequest): Effect {
    SendOn(r.epoch, local, req, Next(r, i))
  }

  /** The version a forwarded write must exceed to be stored. */
  ghost function StaleBound(mode: Mode, s: Store, key: Key): nat {
    if mode == CHAIN then LatestVersion(s, key) else CleanVersion(s, key)
  }

  /** A client write at the head. */
  ghost function ClientWrite(r: Ring, i: nat, local: Local, req: PutRequest): PutEffect {
    var v := LatestVersion(local.store, req.key) + 1;
    var staged := local.(store := PutNext(local.store, req.key, req.value));
    var req' := req.(version := v);
    if Next(r, i).None? then
      PutEffect(Effect(staged.(store := MarkClean(staged.store, req.key, v)), AckFor(req', None)), PutOk(v))
    else
      PutEffect(Forward(r, i, staged, req'), PutOk(v))
  }

  ghost predicate IsStale(mode: Mode, s: Store, req: PutRequest) {
    req.version <= StaleBound(mode, s, req.key)
  }

  /** A forwarded write is stored unless it is stale. */
  ghost function StoreForwarded(mode: Mode, s: Store, req: PutRequest): Store {
    if IsStale(mode, s, req) then s else PutAt(s, req.key, req.value, req.version)
  }

  /** The tail stores it and marks it clean at once. */
  ghost function CommitForwarded(mode: Mode, s: Store, req: PutRequest): Store {
    if IsStale(mode, s, req) then s else MarkClean(PutAt(s, req.key, req.value, req.version), req.key, req.version)
  }

  /** At a CRAQ or CROWN tail this is the step whose order does not matter. */
  lemma CommitIsTailStep(mode: Mode, s: Store, req: PutRequest)
    requires mode != CHAIN
    ensures CommitForwarded(mode, s, req) == TailStep(s, req.key, Types.Record(req.version, req.value))
  {
  }

  /** What the tail sends: an acknowledgement to its predecessor and a notice to the client. In CHAIN mode a
      lone tail addresses the acknowledgement to the client as well. */
  function TailOut(r: Ring, i: nat, req: PutRequest): seq<Message> {
    (if Prev(r, i).Some? || r.mode == CHAIN then AckFor(req, Prev(r, i)) else []) + AckFor(req, None)
  }

  /** A write that comes down the chain. */
  ghost function ForwardedWrite(r: Ring, i: nat, local: Local, req: PutRequest): Effect {
    if i == r.TailIndex(req.key) then
      Effect(local.(store := CommitForwarded(r.mode, local.store, req)), TailOut(r, i, req))
    else
      Forward(r, i, local.(store := StoreForwarded(r.mode, local.store, req)), req)
  }

  ghost function HandlePut(r: Ring, i: nat, local: Local, req: PutRequest): PutEffect {
    if r.members == [] then PutEffect(Effect(local, []), PutError(NoMembership))
    else if req.version > 0 then PutEffect(ForwardedWrite(r, i, local, req), PutOk(req.version))
    else if i != r.HeadIndex(req.key) then
      PutEffect(Effect(local, []), PutError(WrongNode(Some(r.members[r.HeadIndex(req.key)]))))
    else ClientWrite(r, i, local, req)
  }

  /** An acknowledgement from further down the chain. Only the request id is looked at. */
  function HandleAck(r: Ring, i: nat, local: Local, id: ReqId): Effect {
    if id !in local.table then Effect(local, [])
    else
      var req := local.table[id].req;
      var cleaned := local.(store := MarkClean(local.store, req.key, req.version));
      if r.members == [] then Effect(cleaned, [])
      else Effect(cleaned.(table := local.table - {id}),
                  if i != r.HeadIndex(req.key) then AckFor(req, Prev(r, i)) else [])
  }

  /** Without a membership an acknowledgement goes nowhere and the entry stays, to be sent on again once there is one. */
  lemma AckWithoutRing(r: Ring, i: nat, local: Local, id: ReqId)
    requires r.members == [] && id in local.table
    ensures var e := HandleAck(r, i, local, id);
      e.out == [] && e.local.table == local.table
  {
  }

  /** One retry of a pending write: the count goes up and the write is sent again. */
  function RetryOne(r: Ring, i: nat, local: Local, id: ReqId): Effect
    requires id in local.table
  {
    var entry := local.table[id];
    Forward(r, i, local.(table := local.table[id := entry.(retries := entry.retries + 1)]), entry.req)
  }

  ghost predicate WellKeyed(table: Table) {
    forall id :: id in table ==> table[id].req.id == id
  }

  ghost predicate Distinct(ids: seq<ReqId>) {
    forall i, j :: 0 <= i < j < |ids| ==> ids[i] != ids[j]
  }

  /** Retrying several pending writes, one after the other. */
  function RetryAll(r: Ring, i: nat, local: Local, ids: seq<ReqId>): (e: Effect)
    requires forall id :: id in ids ==> id in local.table
    ensures forall id :: id in local.table ==> id in e.local.table
  {
    if ids == [] then Effect(local, [])
    else
      var e := RetryAll(r, i, local, ids[..|ids| - 1]);
      var f := RetryOne(r, i, e.local, ids[|ids| - 1]);
      Effect(f.local, e.out + f.out)
  }

  /** The table with the retry counts of some entries raised. */
  function Counted(table: Table, ids: seq<ReqId>): Table {
    map id | id in table :: if id in ids then Pending(table[id].req, table[id].retries + 1) else table[id]
  }

  /** The table with some entries' writes stamped with an epoch. */
  function Stamped(table: Table, ids: seq<ReqId>, epoch: nat): Table {
    map id | id in table :: if id in ids then Pending(table[id].req.(epoch := epoch), table[id].retries) else table[id]
  }

  /** The messages that send some pending writes again. */
  function Copies(table: Table, ids: seq<ReqId>, to: NodeId, epoch: nat): seq<Message>
    requires forall id :: id in ids ==> id in table
  {
    if ids == [] then []
    else
      var last := ids[|ids| - 1];
      assert last in ids;
      Copies(table, ids[..|ids| - 1], to, epoch) + [ForwardPut(to, table[last].req.(epoch := epoch))]
  }

  lemma CountedMore(table: Table, ids: seq<ReqId>, id: ReqId)
    requires id in table && id !in ids
    ensures Counted(table, ids + [id]) == Counted(table, ids)[id := Pending(table[id].req, table[id].retries + 1)]
  {
  }

  lemma StampedMore(table: Table, ids: seq<ReqId>, id: ReqId, epoch: nat)
    requires id in table && id !in ids
    ensures Stamped(table, ids + [id], epoch) ==
            Stamped(table, ids, epoch)[id := Pending(table[id].req.(epoch := epoch), table[id].retries)]
  {
  }

  /** The effect of retrying a list of entries: raised counts, and with a successor stamped writes. */
  function Retried(r: Ring, i: nat, table: Table, ids: seq<ReqId>): Table {
    if Next(r, i).None? then Counted(table, ids) else Stamped(Counted(table, ids), ids, r.epoch)
  }

  lemma RetriedMore(r: Ring, i: nat, local: Local, ids: seq<ReqId>, id: ReqId)
    requires id in local.table && id !in ids && WellKeyed(local.table)
    ensures var table := local.table;
      && id in Retried(r, i, table, ids)
      && RetryOne(r, i, Local(local.store, Retried(r, i, table, ids)), id) ==
         Effect(Local(local.store, Retried(r, i, table, ids + [id])),
                if Next(r, i).None? then [] else [ForwardPut(Next(r, i).value, table[id].req.(epoch := r.epoch))])
  {
    var table := local.table;
    var t := Retried(r, i, table, ids);
    assert t[id] == table[id];
    var u := RetryOne(r, i, Local(local.store, t), id).local.table;
    CountedMore(table, ids, id);
    assert u.Keys == Retried(r, i, table, ids + [id]).Keys;
    assert forall j :: j in u ==> u[j] == Retried(r, i, table, ids + [id])[j];
  }

  /** Retrying one by one is the same as first raising all counts and then sending everything. */
  lemma {:induction false} RetryAllCounts(r: Ring, i: nat, local: Local, ids: seq<ReqId>)
    requires WellKeyed(local.table) && Distinct(ids)
    requires forall id :: id in ids ==> id in local.table
    ensures var e := RetryAll(r, i, local, ids);
      && e.local == Local(local.store, Retried(r, i, local.table, ids))
      && e.out == if Next(r, i).None? then [] else Copies(local.table, ids, Next(r, i).value, r.epoch)
  {
    if ids == [] {
      assert Retried(r, i, local.table, ids) == local.table;
    } else {
      var n := |ids| - 1;
      var init, last := ids[..n], ids[n];
      assert ids == init + [last];
      RetryAllCounts(r, i, local, init);
      RetriedMore(r, i, local, init, last);
    }
  }

  /** Sending several pending writes on, one after the other, without counting. */
  function ForwardAll(r: Ring, i: nat, local: Local, ids: seq<ReqId>): (e: Effect)
    requires forall id :: id in ids ==> id in local.table
    ensures forall id :: id in local.table ==> id in e.local.table
  {
    if ids == [] then Effect(local, [])
    else
      var e := ForwardAll(r, i, local, ids[..|ids| - 1]);
      var f := Forward(r, i, e.local, e.local.table[ids[|ids| - 1]].req);
      Effect(f.local, e.out + f.out)
  }

  /** An entry that has not had its turn is as it was. */
  lemma {:induction false} NotYetForwarded(r: Ring, i: nat, local: Local, ids: seq<ReqId>, id: ReqId)
    requires WellKeyed(local.table) && id in local.table && id !in ids
    requires forall k :: k in ids ==> k in local.table
    ensures WellKeyed(ForwardAll(r, i, local, ids).local.table)
    ensures ForwardAll(r, i, local, ids).local.table[id] == local.table[id]
  {
    if ids != [] {
      var n := |ids| - 1;
      NotYetForwarded(r, i, local, ids[..n], id);
    }
  }

  // ---------- reads ----------

  datatype GetStep = Done(response: GetResponse) | AskTail(tail: NodeId)

  /** The local part of a read. */
  ghost function BeginGet(r: Ring, i: nat, s: Store, key: Key): GetStep {
    if r.members == [] then Done(GetError(NoMembership))
    else if r.mode == CHAIN then
      if i != r.TailIndex(key) then Done(GetError(WrongNode(None)))
      else if key !in s.clean then Done(GetError(NotFound))
      else Done(Found(s.clean[key].value, LatestVersion(s, key)))
    else if DirtyAt(s, key) == map[] then
      if key !in s.clean then Done(GetError(NotFound))
      else Done(Found(s.clean[key].value, s.clean[key].version))
    else if i == r.TailIndex(key) then Done(FinishGet(s, key, CleanVersion(s, key)))
    else AskTail(r.members[r.TailIndex(key)])
  }

  /** The tail's answer to a version query, behind the epoch and mode checks of the server. */
  function AnswerQuery(r: Ring, i: nat, s: Store, key: Key, epoch: nat): VersionResponse {
    if epoch < r.epoch then QueryError(StaleEpoch)
    else if r.mode == CHAIN then QueryError(WrongMode)
    else if r.members == [] then QueryError(NoMembership)
    else if i != r.TailIndex(key) then QueryError(WrongNode(None))
    else if key !in s.clean then QueryError(NotFound)
    else Committed(s.clean[key].version)
  }

  /** The end of a read, once the committed version is known. */
  function FinishGet(s: Store, key: Key, committed: nat): GetResponse {
    if committed == 0 then GetError(NotFound)
    else if committed in DirtyAt(s, key) then Found(DirtyAt(s, key)[committed].value, committed)
    else if key in s.clean && s.clean[key].version >= committed then
      Found(s.clean[key].value, s.clean[key].version)
    else GetError(VersionNotFound)
  }

  function AfterQuery(s: Store, key: Key, answer: VersionResponse): GetResponse {
    match answer
    case QueryError(e) => GetError(e)
    case Committed(v) => FinishGet(s, key, v)
  }
}
