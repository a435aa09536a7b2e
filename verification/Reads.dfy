/** Reads at any replica: what they return, and what is known about versions and commit notices. */
module Reads {
  import opened Types
  import opened Rings
  import opened Stores
  import opened Handlers
  import opened Clusters
  import opened Views
  import opened Steps
  import opened Invariants
  import opened Members
  import opened AllModes
  import opened Runs
  import ChainLines
  import Lines

  /** A read of a key at member x: it looks at its own records in state a, the tail answers its version query
      in state b, or the query is lost, and it finishes on its own records in state e. Anything may happen in
      between. A read that needs no query is over in state a. */
  ghost predicate ReadHappens(states: seq<Cluster>, a: nat, b: nat, e: nat, x: NodeId, key: Key, result: GetResponse)
  {
    && a <= b <= e < |states|
    && x in states[a].ring.members && x in states[a].servers && x in states[e].servers
    && match BeginGet(states[a].ring, Seat(states[a], x), states[a].servers[x].store, key)
       case Done(response) => a == b == e && result == response
       case AskTail(t) =>
         && t in states[b].servers
         && (result == GetError(TailUnavailable) || result == AfterQuery(states[e].servers[x].store, key,
              AnswerQuery(states[b].ring, Seat(states[b], t), states[b].servers[t].store, key, states[a].ring.epoch)))
  }

  /** A read of the key at x needs the tail's answer. */
  ghost predicate AsksTail(c: Cluster, x: NodeId, key: Key) {
    x in c.servers && BeginGet(c.ring, Seat(c, x), c.servers[x].store, key).AskTail?
  }

  lemma TailIsHeld(l: Lines.Line, p: nat)
    requires Lines.Inv(l) && p < |l.slots|
    ensures var v := l.slots[|l.slots| - 1].cv; (v in l.slots[p].dirty || v <= l.slots[p].cv) && v <= l.latest
  {
    var n := |l.slots| - 1;
    if p < n { assert Lines.Holds(l.slots[p], l.slots[n].cv); }
  }

  /** In CRAQ and CROWN a member holds what the tail has committed. */
  lemma MemberHoldsCommitted(c: Cluster, x: NodeId, key: Key)
    requires Sound(c) && c.ring.mode != CHAIN && x in c.ring.members
    ensures Shape(c) && HoldsAt(c.servers[x].store, key, TailVersion(c, key)) && TailVersion(c, key) <= |Hist(c, key)|
  {
    hide Sound, Genuine, Lines.Inv, View, CleanVersion, DirtyAt, Lines.Holds;
    StrongLine(c, key);
    var p := MemberSlot(c, x, key);
    TailSlot(c, key);
    TailIsHeld(View(c, key), p);
  }

  /** A read that finishes locally: the tail is at the very version it returns. */
  lemma LocalRead(c: Cluster, x: NodeId, key: Key, response: GetResponse)
    requires Sound(c) && x in c.ring.members
    requires x in c.servers && BeginGet(c.ring, Seat(c, x), c.servers[x].store, key) == Done(response)
    ensures Shape(c)
    ensures match response
      case Found(value, v) => IsWrite(c, key, value, v) && v == TailVersion(c, key)
      case GetError(error) =>
        || (error == NotFound && TailVersion(c, key) == 0)
        || (error == WrongNode(None) && c.ring.mode == CHAIN && Seat(c, x) != c.ring.TailIndex(key))
  {
    SoundParts(c);
    hide Base, Inv, LatestVersion;
    TailIsAhead(c, x, key);
    RecordIsIssued(c, x, key);
    CleanOrDirty(c.servers[x].store, key);
  }

  lemma CleanOrDirty(s: Store, key: Key)
    ensures DirtyAt(s, key) == map[] ==> LatestVersion(s, key) == CleanVersion(s, key)
  {
  }

  /** A read in CHAIN mode, exactly: only the tail answers, with the committed version and the value the head
      assigned it to, although value and version are looked up one after the other. */
  lemma ChainRead(c: Cluster, x: NodeId, key: Key)
    requires Sound(c) && c.ring.mode == CHAIN && x in c.ring.members
    ensures Shape(c) && TailVersion(c, key) <= |Hist(c, key)|
    ensures var v := TailVersion(c, key);
      BeginGet(c.ring, Seat(c, x), c.servers[x].store, key) ==
      Done(if Seat(c, x) != c.ring.TailIndex(key) then GetError(WrongNode(None))
           else if v == 0 then GetError(NotFound)
           else Found(Hist(c, key)[v - 1].value, v))
  {
    SoundParts(c);
    hide Sound, Base, LatestVersion, Genuine, View, TailVersion, BeginGet, CleanVersion;
    TailIsAhead(c, x, key);
    CleanIsIssued(c, x, key);
    BeginChain(c.ring, Seat(c, x), c.servers[x].store, key);
  }

  lemma BeginChain(r: Ring, i: nat, s: Store, key: Key)
    requires r.mode == CHAIN && r.members != []
    ensures BeginGet(r, i, s, key) ==
      if i != r.TailIndex(key) then Done(GetError(WrongNode(None)))
      else if key in s.clean then Done(Found(s.clean[key].value, LatestVersion(s, key))) else Done(GetError(NotFound))
  {
  }

  /** The server holds a version of the key that is newer than its clean one. */
  ghost predicate HoldsNewer(s: Store, key: Key) {
    exists v :: v in DirtyAt(s, key) && v > CleanVersion(s, key)
  }

  lemma DirtyIsNewer(s: Store, key: Key)
    requires Valid(s)
    ensures HoldsNewer(s, key) <==> DirtyAt(s, key) != map[]
    ensures !HoldsNewer(s, key) ==> LatestVersion(s, key) == CleanVersion(s, key)
  {
    if v :| v in DirtyAt(s, key) { assert v > CleanVersion(s, key); }
  }

  /** A read in CRAQ and CROWN mode, exactly: a member that is the tail, or holds nothing newer than its clean record, answers
      itself, with the committed version and the value the head assigned it to; any other one asks the tail. */
  lemma RingRead(c: Cluster, x: NodeId, key: Key)
    requires Sound(c) && c.ring.mode != CHAIN && x in c.ring.members
    ensures Shape(c) && TailVersion(c, key) <= |Hist(c, key)|
    ensures var v := TailVersion(c, key);
      BeginGet(c.ring, Seat(c, x), c.servers[x].store, key) ==
      if x != TailNode(c, key) && HoldsNewer(c.servers[x].store, key) then AskTail(TailNode(c, key))
      else Done(if v == 0 then GetError(NotFound) else Found(Hist(c, key)[v - 1].value, v))
  {
    SoundParts(c);
    hide Sound, Base, Inv, LatestVersion, HoldsNewer, Genuine, View, TailVersion, BeginGet, CleanVersion;
    TailIsAhead(c, x, key);
    RecordIsIssued(c, x, key);
    ValidRecords(c, x);
    DirtyIsNewer(c.servers[x].store, key);
    TailSeat(c, x, key);
    BeginRing(c.ring, Seat(c, x), c.servers[x].store, key);
    CleanIsIssued(c, x, key);
  }

  /** What the local part of a read does with the store, in CRAQ and CROWN. */
  lemma BeginRing(r: Ring, i: nat, s: Store, key: Key)
    requires r.mode != CHAIN && r.members != [] && Valid(s) && (key in s.clean ==> s.clean[key].version > 0)
    ensures BeginGet(r, i, s, key) ==
      if i != r.TailIndex(key) && DirtyAt(s, key) != map[] then AskTail(r.members[r.TailIndex(key)])
      else Done(if key in s.clean then Found(s.clean[key].value, s.clean[key].version) else GetError(NotFound))
  {
  }

  lemma CleanIsIssued(c: Cluster, x: NodeId, key: Key)
    requires Genuine(c) && x in c.servers
    ensures var s := c.servers[x].store;
      if key in s.clean then IsWrite(c, key, s.clean[key].value, CleanVersion(s, key)) else CleanVersion(s, key) == 0
  {
    RecordIsIssued(c, x, key);
  }

  lemma ValidRecords(c: Cluster, x: NodeId)
    requires Genuine(c) && x in c.servers
    ensures Valid(c.servers[x].store)
  {
    assert GoodServer(c.hist, c.servers[x]);
  }

  lemma TailSeat(c: Cluster, x: NodeId, key: Key)
    requires Shape(c) && x in c.ring.members
    ensures x == TailNode(c, key) <==> Seat(c, x) == c.ring.TailIndex(key)
  {
    SeatUnique(c.ring, c.ring.TailIndex(key));
  }

  /** So a member depends on the tail exactly if it is not the tail and holds a version newer than its clean one. */
  lemma AsksExactly(c: Cluster, x: NodeId, key: Key)
    requires Sound(c) && x in c.ring.members
    ensures Shape(c)
    ensures AsksTail(c, x, key) <==>
            c.ring.mode != CHAIN && x != TailNode(c, key) && HoldsNewer(c.servers[x].store, key)
  {
    SoundParts(c);
    hide Sound, Base, Inv, TailVersion, HoldsNewer, BeginGet;
    if c.ring.mode == CHAIN { ChainRead(c, x, key); } else { RingRead(c, x, key); }
  }

  /** A version query, exactly: of the members only the tail answers, with its clean version if it has one, and only a query
      of the epoch in force or a later one. */
  lemma QueryExactly(c: Cluster, x: NodeId, key: Key, epoch: nat)
    requires Sound(c) && x in c.ring.members
    ensures Shape(c)
    ensures AnswerQuery(c.ring, Seat(c, x), c.servers[x].store, key, epoch) ==
      if epoch < c.ring.epoch then QueryError(StaleEpoch)
      else if c.ring.mode == CHAIN then QueryError(WrongMode)
      else if x != TailNode(c, key) then QueryError(WrongNode(None))
      else if TailVersion(c, key) == 0 then QueryError(NotFound)
      else Committed(TailVersion(c, key))
  {
    SoundParts(c);
    hide Base, Inv, Genuine;
    TailSeat(c, x, key);
    RecordIsIssued(c, x, key);
  }

  /** The end of a read: whatever the tail reported is still held, and nothing newer than the tail's version
      is returned. */
  lemma FinishedRead(c: Cluster, x: NodeId, key: Key, committed: nat)
    requires Sound(c) && Shape(c) && x in c.servers && HoldsAt(c.servers[x].store, key, committed)
    requires committed <= TailVersion(c, key)
    ensures match FinishGet(c.servers[x].store, key, committed)
      case Found(value, v) => IsWrite(c, key, value, v) && committed <= v <= TailVersion(c, key)
      case GetError(error) => error == NotFound && committed == 0
  {
    SoundParts(c);
    hide ModeInv, Base, Inv;
    RecordIsIssued(c, x, key);
    assert CleanVersion(c.servers[x].store, key) <= TailVersion(c, key);
  }

  /** Every read, in every mode, at any member of any chain, with any steps between its parts: it returns a pair of value
      and version the head really assigned, no older than what was committed when it started and no newer than
      what is committed when it returns; it finds nothing only if nothing was committed when it started; and
      it never fails to find the version the tail reported. The tail's answer may be lost. */
  lemma ReadReturnsCommitted(states: seq<Cluster>, actions: seq<Action>, a: nat, b: nat, e: nat,
                             x: NodeId, key: Key, result: GetResponse)
    requires GoodRun(states, actions) && ReadHappens(states, a, b, e, x, key, result)
    ensures Sound(states[a]) && Sound(states[e]) && Shape(states[a]) && Shape(states[e])
    ensures match result
      case Found(value, v) =>
        IsWrite(states[e], key, value, v) && TailVersion(states[a], key) <= v <= TailVersion(states[e], key)
      case GetError(error) =>
        || (error == NotFound && TailVersion(states[a], key) == 0)
        || (error == WrongNode(None) && states[a].ring.mode == CHAIN && x != TailNode(states[a], key))
        || (error == StaleEpoch && states[a].ring.epoch < states[b].ring.epoch)
        || (error == TailUnavailable && AsksTail(states[a], x, key))
  {
    hide ModeInv, AllBehind, HoldsAt, CleanVersion, DirtyAt, Run, Init, FinishGet, IsWrite, TailVersion, Firm;
    RunIsSound(states, actions, a, b);
    RunIsSound(states, actions, b, e);
    var step := BeginGet(states[a].ring, Seat(states[a], x), states[a].servers[x].store, key);
    if step.Done? {
      LocalRead(states[a], x, key, step.response);
      SeatUnique(states[a].ring, states[a].ring.TailIndex(key));
    } else {
      AskedTail(states[a], x, key);
      if states[a].ring.epoch == states[b].ring.epoch {
        SameEpochRead(states[a], states[b], states[e], x, key);
      }
    }
  }

  lemma AskedTail(c: Cluster, x: NodeId, key: Key)
    requires Shape(c) && x in c.ring.members
    requires BeginGet(c.ring, Seat(c, x), c.servers[x].store, key).AskTail?
    ensures BeginGet(c.ring, Seat(c, x), c.servers[x].store, key).tail == TailNode(c, key) && c.ring.mode != CHAIN
  {
  }

  lemma SameEpochRead(c: Cluster, d: Cluster, f: Cluster, x: NodeId, key: Key)
    requires Sound(c) && Sound(d) && Sound(f) && Shape(c) && Shape(d) && Shape(f) && Progress(c, d) && Progress(d, f)
    requires c.ring.epoch == d.ring.epoch && c.ring.mode != CHAIN && x in c.ring.members
    ensures var t := TailNode(c, key);
      && t in d.servers && x in f.servers
      && match AfterQuery(f.servers[x].store, key, AnswerQuery(d.ring, Seat(d, t), d.servers[t].store, key, c.ring.epoch))
         case Found(value, v) => IsWrite(f, key, value, v) && TailVersion(c, key) <= v <= TailVersion(f, key)
         case GetError(error) => error == NotFound && TailVersion(c, key) == 0
  {
    hide Sound, CleanVersion, DirtyAt, FinishGet, IsWrite, TailVersion, HoldsAt, AnswerQuery, View;
    var w := TailVersion(d, key);
    TailSlot(d, key);
    QueryExactly(d, TailNode(d, key), key, c.ring.epoch);
    MemberHoldsCommitted(d, x, key);
    assert Firm(d, x, key, w);
    assert Firm(f, x, key, w);
    FinishedRead(f, x, key, w);
  }

  // ---------- commit notices ----------

  /** A notice to the client that version v of the key is committed is on its way. */
  ghost predicate Noticed(c: Cluster, key: Key, v: nat) {
    exists m :: m in c.net && m.CommitAck? && m.doneKey == key && m.doneVersion == v
  }

  lemma NoticeInView(c: Cluster, key: Key, v: nat)
    requires Shape(c) && Noticed(c, key, v)
    ensures v in View(c, key).commits
  {
    var m :| m in c.net && m.CommitAck? && m.doneKey == key && m.doneVersion == v;
    InFlight(c.net, m);
  }

  lemma NoticeBounded(l: Lines.Line, v: nat)
    requires ChainLines.WeakInv(l) && v in l.commits
    ensures v <= l.slots[|l.slots| - 1].cv
  {
  }

  lemma NoticeIsKnown(c: Cluster, key: Key, v: nat)
    requires Genuine(c) && Noticed(c, key, v)
    ensures v >= 1
  {
    var m :| m in c.net && m.CommitAck? && m.doneKey == key && m.doneVersion == v;
    assert GoodMessage(c.hist, m);
  }

  /** In every mode, a commit notice is only ever sent for what the tail has committed, while every member has that version
      or a newer one. */
  lemma NoticeIsEarned(c: Cluster, key: Key, v: nat)
    requires Base(c) && Noticed(c, key, v)
    ensures Shape(c) && 1 <= v <= TailVersion(c, key) <= |Hist(c, key)|
    ensures forall x :: x in c.ring.members ==> LatestVersion(c.servers[x].store, key) >= v
  {
    BaseParts(c, key);
    hide Base, ChainLines.WeakInv, View, CleanVersion, LatestVersion, Noticed;
    TailSlot(c, key);
    NoticeInView(c, key, v);
    ChainLines.SomeSlot(View(c, key));
    NoticeBounded(View(c, key), v);
    NoticeIsKnown(c, key, v);
    CommittedIsAccepted(c, key);
    forall x | x in c.ring.members ensures LatestVersion(c.servers[x].store, key) >= v { TailIsAhead(c, x, key); }
  }

  // ---------- versions ----------

  /** The version a message names for a key. */
  predicate Names(m: Message, key: Key, v: nat) {
    match m
    case ForwardPut(_, req) => req.key == key && req.version == v
    case WriteAck(_, _, k, w, _) => k == key && w == v
    case CommitAck(_, k, w) => k == key && w == v
  }

  /** Every record, every pending write and every message of the key names a version below v. */
  ghost predicate AllBelow(c: Cluster, key: Key, v: nat) {
    && (forall y :: y in c.servers ==> LatestVersion(c.servers[y].store, key) < v)
    && (forall y, mode, id :: y in c.servers && id in TableOf(c.servers[y], mode) ==>
          (TableOf(c.servers[y], mode)[id].req.key == key ==> TableOf(c.servers[y], mode)[id].req.version < v))
    && (forall m, w: nat :: m in c.net && Names(m, key, w) ==> w < v)
  }

  lemma AllIsKnown(c: Cluster, key: Key)
    requires Genuine(c)
    ensures AllBelow(c, key, |Hist(c, key)| + 1)
  {
    hide UniqueIds, LatestVersion, CleanVersion, DirtyAt;
    forall y | y in c.servers ensures LatestVersion(c.servers[y].store, key) <= |Hist(c, key)| {
      RecordIsIssued(c, y, key);
      LatestIsKnown(c, y, key);
    }
    forall y, mode, id | y in c.servers && id in TableOf(c.servers[y], mode)
      && TableOf(c.servers[y], mode)[id].req.key == key
      ensures TableOf(c.servers[y], mode)[id].req.version <= |Hist(c, key)|
    {
      assert GoodServer(c.hist, c.servers[y]);
    }
    forall m, w: nat | m in c.net && Names(m, key, w) ensures w <= |Hist(c, key)| {
      assert GoodMessage(c.hist, m);
    }
  }

  lemma LatestIsKnown(c: Cluster, x: NodeId, key: Key)
    requires Genuine(c) && x in c.servers
    ensures LatestVersion(c.servers[x].store, key) <= |Hist(c, key)|
  {
    hide Genuine;
    RecordIsIssued(c, x, key);
  }

  /** The head answers an accepted write with a version above that of every record, every pending write and every message of
      the key; it is one more than the number of writes of the key accepted so far. */
  lemma VersionsAreNew(c: Cluster, x: NodeId, req: PutRequest, v: nat)
    requires Base(c) && Enabled(c, ClientPut(x, req)) && req.epoch >= c.ring.epoch
    requires HandlePut(c.ring, Seat(c, x), LocalOf(c.servers[x], c.ring.mode), req).response == PutOk(v)
    ensures v == |Hist(c, req.key)| + 1 && AllBelow(c, req.key, v)
    ensures Hist(Apply(c, ClientPut(x, req)), req.key) == Hist(c, req.key) + [WriteOf(req)]
  {
    assert x in c.servers;
    hide *;
    BaseParts(c, req.key);
    HeadNumbers(c, x, req, v);
    AllIsKnown(c, req.key);
    AcceptedIsRemembered(c, x, req, v);
  }

  lemma HeadNumbers(c: Cluster, x: NodeId, req: PutRequest, v: nat)
    requires Base(c) && Enabled(c, ClientPut(x, req))
    requires x in c.servers
    requires HandlePut(c.ring, Seat(c, x), LocalOf(c.servers[x], c.ring.mode), req).response == PutOk(v)
    ensures v == |Hist(c, req.key)| + 1
  {
    BaseHeadKnows(c, x, req.key);
    hide Base, View, Fresh, Genuine, LatestVersion, PutNext, MarkClean, Forward;
  }

  lemma AcceptedIsRemembered(c: Cluster, x: NodeId, req: PutRequest, v: nat)
    requires Enabled(c, ClientPut(x, req)) && req.epoch >= c.ring.epoch && x in c.servers
    requires HandlePut(c.ring, Seat(c, x), LocalOf(c.servers[x], c.ring.mode), req).response == PutOk(v)
    ensures Hist(Apply(c, ClientPut(x, req)), req.key) == Hist(c, req.key) + [WriteOf(req)]
  {
    hide HandlePut, Fresh;
  }

  ghost predicate CleanCopy(c: Cluster, x: NodeId, key: Key, v: nat, value: Value) {
    x in c.servers && key in c.servers[x].store.clean && c.servers[x].store.clean[key] == Types.Record(v, value)
  }

  ghost predicate DirtyCopy(c: Cluster, x: NodeId, key: Key, v: nat, value: Value) {
    x in c.servers && v in DirtyAt(c.servers[x].store, key) && DirtyAt(c.servers[x].store, key)[v].value == value
  }

  ghost predicate PendingCopy(c: Cluster, x: NodeId, mode: Mode, id: ReqId, key: Key, v: nat, value: Value) {
    && x in c.servers && id in TableOf(c.servers[x], mode)
    && var req := TableOf(c.servers[x], mode)[id].req; req.key == key && req.version == v && req.value == value
  }

  ghost predicate SentCopy(c: Cluster, m: Message, key: Key, v: nat, value: Value) {
    m in c.net && m.ForwardPut? && m.req.key == key && m.req.version == v && m.req.value == value
  }

  /** Somewhere there is a copy of version v of the key with this value: clean, dirty, pending or in flight. */
  ghost predicate Copy(c: Cluster, key: Key, v: nat, value: Value) {
    || (exists x :: CleanCopy(c, x, key, v, value))
    || (exists x :: DirtyCopy(c, x, key, v, value))
    || (exists x, mode, id :: PendingCopy(c, x, mode, id, key, v, value))
    || (exists m :: SentCopy(c, m, key, v, value))
  }

  /** Every copy of a version, wherever it is, carries the value of the write that was accepted with that version. */
  lemma CopyIsWrite(c: Cluster, key: Key, v: nat, value: Value)
    requires Genuine(c) && Copy(c, key, v, value)
    ensures IsWrite(c, key, value, v)
  {
    hide GoodNet, UniqueIds;
    if x :| CleanCopy(c, x, key, v, value) {
      RecordIsIssued(c, x, key);
    } else if x :| DirtyCopy(c, x, key, v, value) {
      RecordIsIssued(c, x, key);
    } else if x, mode, id :| PendingCopy(c, x, mode, id, key, v, value) {
      assert GoodServer(c.hist, c.servers[x]);
      assert GoodTable(c.hist, TableOf(c.servers[x], mode));
    } else {
      var m :| SentCopy(c, m, key, v, value);
      SentIsGood(c, m);
    }
  }

  lemma SentIsGood(c: Cluster, m: Message)
    requires Genuine(c) && m in c.net && m.ForwardPut?
    ensures GoodRequest(c.hist, m.req)
  {
    assert GoodMessage(c.hist, m);
  }

  /** So any two copies of one version of one key carry one value. */
  lemma CopiesAgree(c: Cluster, key: Key, v: nat, a: Value, b: Value)
    requires Genuine(c) && Copy(c, key, v, a) && Copy(c, key, v, b)
    ensures a == b
  {
    hide Genuine, Copy;
    CopyIsWrite(c, key, v, a);
    CopyIsWrite(c, key, v, b);
  }

  function NewestRecord(c: Cluster, key: Key): Types.Record
    requires Hist(c, key) != []
  {
    Types.Record(|Hist(c, key)|, Hist(c, key)[|Hist(c, key)| - 1].value)
  }

  /** In CRAQ and CROWN: whenever the head of a key has nothing pending for it, all members have the same clean record of the
      key, namely the newest write accepted, and nothing dirty: whatever duplicates are still in flight. */
  lemma HeadSettledAgreement(c: Cluster, key: Key)
    requires Sound(c) && c.ring.mode != CHAIN
    requires Shape(c)
    requires var head := c.ring.members[c.ring.HeadIndex(key)]; PendOf(TableOf(c.servers[head], c.ring.mode), key) == {}
    ensures forall x :: x in c.ring.members ==>
      var s := c.servers[x].store;
      && CleanVersion(s, key) == |Hist(c, key)| && DirtyAt(s, key) == map[]
      && (Hist(c, key) != [] ==> At(s, key).clean == Some(NewestRecord(c, key)))
  {
    StrongLine(c, key);
    HeadSlot(c, key);
    hide Sound, Lines.Inv, View, CleanVersion, DirtyAt, At, NewestRecord;
    Lines.HeadSettled(View(c, key));
    forall x | x in c.ring.members
      ensures CleanVersion(c.servers[x].store, key) == |Hist(c, key)| && DirtyAt(c.servers[x].store, key) == map[]
      ensures Hist(c, key) != [] ==> At(c.servers[x].store, key).clean == Some(NewestRecord(c, key))
    {
      SettledMember(c, x, key);
    }
  }

  /** ... and then every member answers a read of the key itself, without a query: with the newest write accepted, or NOT_FOUND
      if there is none. */
  lemma IdleRead(c: Cluster, x: NodeId, key: Key)
    requires Sound(c) && c.ring.mode != CHAIN && x in c.ring.members
    requires Shape(c)
    requires var head := c.ring.members[c.ring.HeadIndex(key)]; PendOf(TableOf(c.servers[head], c.ring.mode), key) == {}
    ensures var n := |Hist(c, key)|;
      BeginGet(c.ring, Seat(c, x), c.servers[x].store, key) ==
      Done(if n == 0 then GetError(NotFound) else Found(Hist(c, key)[n - 1].value, n))
  {
    HeadSettledAgreement(c, key);
    RingRead(c, x, key);
    hide Sound, BeginGet;
    NothingNewer(c.servers[x].store, key);
    TailSlot(c, key);
  }

  lemma NothingNewer(s: Store, key: Key)
    requires DirtyAt(s, key) == map[]
    ensures !HoldsNewer(s, key)
  {
  }

  lemma HeadSlot(c: Cluster, key: Key)
    requires Shape(c)
    requires var head := c.ring.members[c.ring.HeadIndex(key)]; PendOf(TableOf(c.servers[head], c.ring.mode), key) == {}
    ensures |View(c, key).slots| >= 1 && View(c, key).slots[0].pend == {}
  {
    hide PendOf, FwdOf, AckOf, CommitsOf;
    Positions(c.ring, key, c.ring.HeadIndex(key));
    assert c.ring.NodeAt(key, 0) == c.ring.members[c.ring.HeadIndex(key)];
  }

  lemma SettledMember(c: Cluster, x: NodeId, key: Key)
    requires Shape(c) && Genuine(c) && x in c.ring.members
    requires forall p :: 0 <= p < |View(c, key).slots| ==>
      View(c, key).slots[p].cv == View(c, key).latest && View(c, key).slots[p].dirty == {}
    ensures CleanVersion(c.servers[x].store, key) == |Hist(c, key)| && DirtyAt(c.servers[x].store, key) == map[]
    ensures Hist(c, key) != [] ==> At(c.servers[x].store, key).clean == Some(NewestRecord(c, key))
  {
    hide View;
    var p := MemberSlot(c, x, key);
    RecordIsIssued(c, x, key);
    hide Genuine;
    assert DirtyAt(c.servers[x].store, key).Keys == {};
  }
}
