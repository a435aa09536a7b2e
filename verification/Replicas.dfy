/** A replication object of a server: its ring fields, its pending table and the store it shares.
    Messages are collected in `sent` instead of being put on the network. */
module Replicas {
  import opened Types
  import opened Rings
  import opened Stores
  import opened KVStores
  import opened Handlers

  class Replica {
    const mode: Mode
    const kv: KVStore
    var members: seq<NodeId>
    var index: nat
    var epoch: nat
    var prev: Option<NodeId>
    var next: Option<NodeId>
    var pending: Table
    var sent: seq<Message>

    ghost function RingView(): Ring
      reads this
    {
      Ring(members, mode, epoch)
    }

    ghost function LocalView(): Local
      reads this, kv
    {
      Local(kv.View(), pending)
    }

    /** The neighbour fields agree with the membership, and entries are filed under their request id. */
    ghost predicate Valid()
      reads this
    {
      && (members != [] ==> index < |members|)
      && prev == Prev(RingView(), index)
      && next == Next(RingView(), index)
      && WellKeyed(pending)
    }

    constructor (mode: Mode, kv: KVStore)
      ensures Valid() && this.mode == mode && this.kv == kv
      ensures members == [] && pending == map[] && sent == [] && epoch == 0
    {
      this.mode, this.kv := mode, kv;
      members, index, epoch := [], 0, 0;
      prev, next := None, None;
      pending, sent := map[], [];
    }

    /** Takes the seat of the first member with the given id, or seat 0 when there is none. */
    method UpdateMembership(membership: seq<NodeId>, nodeId: NodeId)
      requires Valid()
      modifies this
      ensures Valid() && members == membership && index == SeatOf(membership, nodeId)
      ensures unchanged(this`pending) && unchanged(this`sent) && unchanged(this`epoch)
    {
      var ringSize := |membership|;
      var nodeIndex := 0;
      var i := 0;
      while i < ringSize
        invariant 0 <= i <= ringSize && nodeIndex == 0
        invariant nodeId !in membership[..i]
      {
        if membership[i] == nodeId {
          nodeIndex := i;
          break;
        }
        i := i + 1;
      }
      SeatIsFirst(membership, nodeId, nodeIndex);
      prev, next := None, None;
      if ringSize > 1 {
        prev := Some(membership[(nodeIndex + ringSize - 1) % ringSize]);
        next := Some(membership[(nodeIndex + 1) % ringSize]);
      }
      members, index := membership, nodeIndex;
    }

    method SetEpoch(e: nat)
      requires Valid()
      modifies this`epoch
      ensures Valid() && epoch == e
    {
      epoch := e;
    }

    method AddToPendingAcks(req: PutRequest)
      requires Valid()
      modifies this`pending
      ensures Valid() && pending == Handlers.Stage(old(pending), req)
    {
      if req.id in pending {
        pending := pending[req.id := pending[req.id].(req := req)];
        return;
      }
      pending := pending[req.id := Pending(req, 0)];
    }

    method SendAck(req: PutRequest, to: Option<NodeId>)
      requires Valid()
      modifies this`sent
      ensures Valid() && sent == old(sent) + AckFor(req, to)
    {
      if to.Some? {
        sent := sent + [WriteAck(to.value, req.id, req.key, req.version, req.epoch)];
        return;
      }
      if req.client.None? {
        return;
      }
      sent := sent + [CommitAck(req.client.value, req.key, req.version)];
    }

    method ForwardPutTo(req: PutRequest, successor: Option<NodeId>)
      requires Valid()
      modifies this`pending, this`sent
      ensures Valid()
      ensures var e := SendOn(epoch, old(LocalView()), req, successor);
        LocalView() == e.local && sent == old(sent) + e.out
    {
      if successor.None? {
        return;
      }
      var stamped := req.(epoch := epoch);
      AddToPendingAcks(stamped);
      sent := sent + [ForwardPut(successor.value, stamped)];
    }

    /** A write from a client or from the predecessor, in CRAQ and CROWN mode. */
    method HandlePutRing(req: PutRequest) returns (response: PutResponse)
      requires Valid() && mode != CHAIN
      modifies this`pending, this`sent, kv
      ensures Valid()
      ensures var e := HandlePut(RingView(), index, old(LocalView()), req);
        LocalView() == e.effect.local && sent == old(sent) + e.effect.out && response == e.response
    {
      if |members| == 0 {
        return PutError(NoMembership);
      }
      var head, tail := HeadAndTail(req.key);
      if req.version == 0 {
        if index != head {
          return PutError(WrongNode(Some(members[head])));
        }
        response := AcceptClientWrite(req, tail);
      } else {
        response := AcceptForwardedWrite(req, tail);
      }
    }

    method AcceptClientWrite(req: PutRequest, tail: nat) returns (response: PutResponse)
      requires Valid() && mode != CHAIN && members != []
      requires index == RingView().HeadIndex(req.key) && tail == RingView().TailIndex(req.key)
      modifies this`pending, this`sent, kv
      ensures Valid()
      ensures var e := ClientWrite(RingView(), index, old(LocalView()), req);
        LocalView() == e.effect.local && sent == old(sent) + e.effect.out && response == e.response
    {
      hide PutNext, MarkClean, LatestVersion;
      var version := kv.Put(req.key, req.value, None);
      var req' := req.(version := version);
      if index == tail || next.None? {
        // A head that is also the tail is alone on the ring, so there is no predecessor to acknowledge to.
        HeadIsTailAlone(RingView(), req.key);
        kv.MarkCleanVersion(req.key, version);
        SendAck(req', None);
        return PutOk(version);
      }
      ForwardPutTo(req', next);
      return PutOk(version);
    }

    method AcceptForwardedWrite(req: PutRequest, tail: nat) returns (response: PutResponse)
      requires Valid() && mode != CHAIN && members != [] && req.version > 0
      requires tail == RingView().TailIndex(req.key)
      modifies this`pending, this`sent, kv
      ensures Valid()
      ensures response == PutOk(req.version)
      ensures var e := ForwardedWrite(RingView(), index, old(LocalView()), req);
        LocalView() == e.local && sent == old(sent) + e.out
    {
      hide PutAt, MarkClean;
      var committed := 0;
      if req.key in kv.clean {
        committed := kv.clean[req.key].version;
      }
      var stale := req.version <= committed;
      if !stale {
        var _ := kv.Put(req.key, req.value, Some(req.version));
      }
      if index == tail || next.None? {
        HeadIsTailAlone(RingView(), req.key);
        if !stale {
          kv.MarkCleanVersion(req.key, req.version);
        }
        if prev.Some? {
          SendAck(req, prev);
        }
        SendAck(req, None);
        return PutOk(req.version);
      }
      ForwardPutTo(req, next);
      return PutOk(req.version);
    }

    method HeadAndTail(key: Key) returns (head: nat, tail: nat)
      requires Valid() && members != []
      ensures head == RingView().HeadIndex(key) && tail == RingView().TailIndex(key)
    {
      if mode == CROWN {
        var hash := Fnv1a64(key);
        head := hash % |members|;
        tail := (hash % |members| + |members| - 1) % |members|;
      } else {
        head, tail := 0, |members| - 1;
      }
    }

    /** The same in CHAIN mode: stale means not newer than anything stored, dirty records included. */
    method HandlePutChain(req: PutRequest) returns (response: PutResponse)
      requires Valid() && mode == CHAIN
      modifies this`pending, this`sent, kv
      ensures Valid()
      ensures var e := HandlePut(RingView(), index, old(LocalView()), req);
        LocalView() == e.effect.local && sent == old(sent) + e.effect.out && response == e.response
    {
      if |members| == 0 {
        return PutError(NoMembership);
      }
      var head, tail := 0, |members| - 1;
      if req.version == 0 {
        if index != head {
          return PutError(WrongNode(Some(members[head])));
        }
        response := AcceptClientWriteChain(req);
      } else {
        response := AcceptForwardedWriteChain(req, tail);
      }
    }

    method AcceptClientWriteChain(req: PutRequest) returns (response: PutResponse)
      requires Valid() && mode == CHAIN && members != [] && index == 0
      modifies this`pending, this`sent, kv
      ensures Valid()
      ensures var e := ClientWrite(RingView(), index, old(LocalView()), req);
        LocalView() == e.effect.local && sent == old(sent) + e.effect.out && response == e.response
    {
      hide PutNext, MarkClean;
      var version := kv.Put(req.key, req.value, None);
      var req' := req.(version := version);
      if |members| == 1 || next.None? {
        kv.MarkCleanVersion(req.key, version);
        SendAck(req', prev);
        return PutOk(version);
      }
      if next.Some? {
        ForwardPutTo(req', next);
      }
      return PutOk(version);
    }

    method AcceptForwardedWriteChain(req: PutRequest, tail: nat) returns (response: PutResponse)
      requires Valid() && mode == CHAIN && members != [] && req.version > 0
      requires tail == RingView().TailIndex(req.key)
      modifies this`pending, this`sent, kv
      ensures Valid()
      ensures response == PutOk(req.version)
      ensures var e := ForwardedWrite(RingView(), index, old(LocalView()), req);
        LocalView() == e.local && sent == old(sent) + e.out
    {
      hide PutAt, MarkClean, LatestVersion;
      var latest := kv.GetLatestVersion(req.key);
      var stale := req.version <= latest;
      if !stale {
        var _ := kv.Put(req.key, req.value, Some(req.version));
      }
      if index == tail {
        if !stale {
          kv.MarkCleanVersion(req.key, req.version);
        }
        SendAck(req, prev);
        SendAck(req, None);
        return PutOk(req.version);
      }
      if next.Some? {
        ForwardPutTo(req, next);
      }
      return PutOk(req.version);
    }

    /** An acknowledgement from the successor. */
    method HandleWriteAck(id: ReqId)
      requires Valid()
      modifies this`pending, this`sent, kv
      ensures Valid()
      ensures var e := HandleAck(RingView(), index, old(LocalView()), id);
        LocalView() == e.local && sent == old(sent) + e.out
    {
      if id !in pending {
        return;
      }
      var req := pending[id].req;
      kv.MarkCleanVersion(req.key, req.version);
      if |members| == 0 {
        return;
      }
      var head, tail := HeadAndTail(req.key);
      if index != head {
        SendAck(req, prev);
      }
      pending := pending - {id};
    }

    /** Raises the count of every expired entry below the cap and lists those entries' ids, in the order in
        which the table is walked. Which entries have expired is up to the clock. */
    method CollectExpired(expired: set<ReqId>) returns (ids: seq<ReqId>)
      requires Valid()
      modifies this`pending
      ensures Valid() && Distinct(ids)
      ensures forall id :: id in ids <==>
                id in old(pending) && id in expired && old(pending)[id].retries < MAX_RETRIES
      ensures pending == Counted(old(pending), ids)
    {
      ids := [];
      ghost var before := pending;
      var todo := pending.Keys;
      while todo != {}
        invariant todo <= before.Keys
        invariant Distinct(ids)
        invariant forall id :: id in ids <==>
          id in before && id !in todo && id in expired && before[id].retries < MAX_RETRIES
        invariant pending == Counted(before, ids)
        decreases todo
      {
        var id :| id in todo;
        todo := todo - {id};
        assert id !in ids;
        if id in expired && pending[id].retries < MAX_RETRIES {
          pending := pending[id := pending[id].(retries := pending[id].retries + 1)];
          ids := ids + [id];
        }
      }
    }

    method ResendOne(ids: seq<ReqId>, k: nat, ghost before: Table, ghost sentBefore: seq<Message>)
      requires Valid() && next.Some? && k < |ids| && Distinct(ids) && WellKeyed(before)
      requires forall id :: id in ids ==> id in before
      requires pending == Stamped(Counted(before, ids), ids[..k], epoch)
      requires sent == sentBefore + Copies(before, ids[..k], next.value, epoch)
      modifies this`pending, this`sent
      ensures Valid()
      ensures pending == Stamped(Counted(before, ids), ids[..k + 1], epoch)
      ensures sent == sentBefore + Copies(before, ids[..k + 1], next.value, epoch)
    {
      var id := ids[k];
      assert id in ids && id !in ids[..k];
      assert ids[..k + 1] == ids[..k] + [id];
      StampedMore(Counted(before, ids), ids[..k], id, epoch);
      ForwardPutTo(pending[id].req, next);
    }

    /** One round of the retry loop: collect what has expired, then send it all again. It amounts to
        retrying the collected entries one after the other. */
    method RetryRound(expired: set<ReqId>) returns (ids: seq<ReqId>)
      requires Valid()
      modifies this`pending, this`sent
      ensures Valid() && Distinct(ids)
      ensures forall id :: id in ids <==>
                id in old(pending) && id in expired && old(pending)[id].retries < MAX_RETRIES
      ensures var e := RetryAll(RingView(), index, old(LocalView()), ids);
        LocalView() == e.local && sent == old(sent) + e.out
    {
      ids := CollectExpired(expired);
      RetryAllCounts(RingView(), index, old(LocalView()), ids);
      if next.Some? {
        ResendAll(ids, old(pending));
      }
    }

    method ResendAll(ids: seq<ReqId>, ghost before: Table)
      requires Valid() && next.Some? && Distinct(ids) && WellKeyed(before)
      requires forall id :: id in ids ==> id in before
      requires pending == Counted(before, ids)
      modifies this`pending, this`sent
      ensures Valid()
      ensures pending == Stamped(Counted(before, ids), ids, epoch)
      ensures sent == old(sent) + Copies(before, ids, next.value, epoch)
    {
      var k := 0;
      while k < |ids|
        invariant 0 <= k <= |ids|
        invariant Valid()
        invariant pending == Stamped(Counted(before, ids), ids[..k], epoch)
        invariant sent == old(sent) + Copies(before, ids[..k], next.value, epoch)
      {
        ResendOne(ids, k, before, old(sent));
        k := k + 1;
      }
      assert ids[..k] == ids;
    }

    /** The ids of all pending writes, in the order in which the table is walked. */
    method SnapshotPending() returns (ids: seq<ReqId>)
      ensures Distinct(ids) && forall id :: id in ids <==> id in pending
    {
      ids := [];
      var todo := pending.Keys;
      while todo != {}
        invariant todo <= pending.Keys && Distinct(ids)
        invariant forall id :: id in ids <==> id in pending && id !in todo
        decreases todo
      {
        var id :| id in todo;
        todo := todo - {id};
        ids := ids + [id];
      }
    }

    /** After a change of membership: every pending write is sent to the new successor, not counted as a retry. */
    method ReforwardPending() returns (ids: seq<ReqId>)
      requires Valid()
      modifies this`pending, this`sent
      ensures Valid() && Distinct(ids) && forall id :: id in ids <==> id in old(pending)
      ensures var e := ForwardAll(RingView(), index, old(LocalView()), ids);
        LocalView() == e.local && sent == old(sent) + e.out
    {
      hide ForwardAll, Forward;
      ids := SnapshotPending();
      ghost var before := LocalView();
      var requests := pending;
      NoneForwarded(RingView(), index, before);
      var k := 0;
      while k < |ids|
        invariant 0 <= k <= |ids|
        invariant Valid()
        invariant LocalView() == ForwardAll(RingView(), index, before, ids[..k]).local
        invariant sent == old(sent) + ForwardAll(RingView(), index, before, ids[..k]).out
      {
        ForwardOne(requests, ids, k, before, old(sent));
        k := k + 1;
      }
      assert ids[..k] == ids;
    }

    method ForwardOne(requests: Table, ids: seq<ReqId>, k: nat, ghost before: Local, ghost sentBefore: seq<Message>)
      requires Valid() && k < |ids| && Distinct(ids) && WellKeyed(before.table) && before.table == requests
      requires forall id :: id in ids ==> id in before.table
      requires LocalView() == ForwardAll(RingView(), index, before, ids[..k]).local
      requires sent == sentBefore + ForwardAll(RingView(), index, before, ids[..k]).out
      modifies this`pending, this`sent
      ensures Valid()
      ensures LocalView() == ForwardAll(RingView(), index, before, ids[..k + 1]).local
      ensures sent == sentBefore + ForwardAll(RingView(), index, before, ids[..k + 1]).out
    {
      hide SendOn;
      assert ids[k] in ids && ids[k] !in ids[..k];
      assert ids[..k + 1][..k] == ids[..k];
      NotYetForwarded(RingView(), index, before, ids[..k], ids[k]);
      ForwardPutTo(requests[ids[k]].req, next);
    }

    /** The local part of a read and, at the tail or without dirty records, all of it. */
    method HandleGetLocally(key: Key) returns (step: GetStep)
      requires Valid()
      ensures step == BeginGet(RingView(), index, kv.View(), key)
    {
      if |members| == 0 {
        return Done(GetError(NoMembership));
      }
      var head, tail := HeadAndTail(key);
      if mode == CHAIN {
        if index != tail {
          return Done(GetError(WrongNode(None)));
        }
        var found := kv.Get(key);
        if found.None? {
          return Done(GetError(NotFound));
        }
        var latest := kv.GetLatestVersion(key);
        return Done(Found(found.value, latest));
      }
      if key !in kv.dirty || kv.dirty[key] == map[] {
        var found := kv.Get(key);
        if found.None? {
          return Done(GetError(NotFound));
        }
        return Done(Found(found.value, kv.clean[key].version));
      }
      if index == tail {
        var response := HandleGetFinish(key, CleanVersion(kv.View(), key));
        return Done(response);
      }
      return AskTail(members[tail]);
    }

    /** The rest of a read, once the committed version is known. */
    method HandleGetFinish(key: Key, committed: nat) returns (response: GetResponse)
      requires Valid()
      ensures response == FinishGet(kv.View(), key, committed)
    {
      if committed == 0 {
        return GetError(NotFound);
      }
      if key in kv.dirty && committed in kv.dirty[key] {
        return Found(kv.dirty[key][committed].value, committed);
      }
      var found := kv.Get(key);
      if found.Some? && kv.clean[key].version >= committed {
        return Found(found.value, kv.clean[key].version);
      }
      return GetError(VersionNotFound);
    }

    method HandleVersionQuery(key: Key) returns (answer: VersionResponse)
      requires Valid() && mode != CHAIN
      ensures answer == AnswerQuery(RingView(), index, kv.View(), key, epoch)
    {
      if |members| == 0 {
        return QueryError(NoMembership);
      }
      var head, tail := HeadAndTail(key);
      if index != tail {
        return QueryError(WrongNode(None));
      }
      if key !in kv.clean {
        return QueryError(NotFound);
      }
      return Committed(kv.clean[key].version);
    }
  }

  lemma NoneForwarded(r: Ring, i: nat, local: Local)
    ensures ForwardAll(r, i, local, []) == Effect(local, [])
  {
  }

  /** A member that is both head and tail of a key is alone, and a lone member is its own tail. */
  lemma HeadIsTailAlone(r: Ring, key: Key)
    requires r.members != []
    ensures r.HeadIndex(key) == r.TailIndex(key) <==> |r.members| == 1
  {
    Positions(r, key, r.HeadIndex(key));
  }

  /** The loop over the membership finds the first seat with the id. */
  lemma {:induction false} SeatIsFirst(members: seq<NodeId>, id: NodeId, i: nat)
    requires (i < |members| && members[i] == id && id !in members[..i]) || (id !in members && i == 0)
    ensures SeatOf(members, id) == i
  {
    if id in members && i > 0 {
      assert members[0] in members[..i];
      assert members[1..][i - 1] == id;
      assert members[1..][..i - 1] == members[..i][1..];
      SeatIsFirst(members[1..], id, i - 1);
    }
  }
}
