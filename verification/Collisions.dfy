/** Why request ids have to be unique: an acknowledgement is matched to a pending write by its id alone. */
module Collisions {
  import opened Types
  import opened Rings
  import opened Stores
  import opened Handlers

  /** An acknowledgement keeps this replica behind its successor exactly if the entry filed under its id is not a
      dirty record newer than everything the successor has committed. With unique ids the entry is the
      acknowledged write, which the successor has committed; with colliding ids it can be another write. */
  lemma OrderKeptExactly(r: Ring, i: nat, local: Local, id: ReqId, successor: nat)
    requires Valid(local.store) && id in local.table
    requires CleanVersion(local.store, local.table[id].req.key) <= successor
    ensures var req := local.table[id].req;
      CleanVersion(HandleAck(r, i, local, id).local.store, req.key) <= successor <==>
      !(req.version in DirtyAt(local.store, req.key) && req.version > successor)
  {
    var req := local.table[id].req;
    assert req.version in DirtyAt(local.store, req.key) ==> req.version > CleanVersion(local.store, req.key);
  }

  lemma HeadFiles(r: Ring, local: Local, req: PutRequest, v: nat)
    requires r.Valid() && |r.members| == 2 && r.mode != CHAIN && req.version == 0
    requires v == LatestVersion(local.store, req.key) + 1
    ensures var sent := req.(version := v, epoch := r.epoch);
      HandlePut(r, r.HeadIndex(req.key), local, req).effect ==
      Effect(Local(AddDirty(local.store, req.key, Types.Record(v, req.value)), Handlers.Stage(local.table, sent)),
             [ForwardPut(r.members[r.TailIndex(req.key)], sent)])
  {
    hide LatestVersion;
    Opposite(r, req.key);
  }

  /** With two members, the tail is the head's neighbour on both sides. */
  lemma Opposite(r: Ring, key: Key)
    requires r.Valid() && |r.members| == 2
    ensures var h, t := r.HeadIndex(key), r.TailIndex(key);
      h < 2 && t < 2 && h != t && r.NextIndex(h) == t && r.PrevIndex(t) == h
  {
    Positions(r, key, r.HeadIndex(key));
    Positions(r, key, r.TailIndex(key));
    Neighbours(r, key, r.HeadIndex(key));
    Neighbours(r, key, r.TailIndex(key));
  }

  lemma TailCommits(r: Ring, req: PutRequest)
    requires r.Valid() && |r.members| == 2 && r.mode != CHAIN && req.version > 0
    ensures var t := HandlePut(r, r.TailIndex(req.key), Local(EMPTY, map[]), req).effect;
      && |t.out| >= 1
      && t.out[0] == WriteAck(r.members[r.HeadIndex(req.key)], req.id, req.key, req.version, req.epoch)
      && At(t.local.store, req.key).clean == Some(Types.Record(req.version, req.value))
      && DirtyAt(t.local.store, req.key) == map[]
  {
    Opposite(r, req.key);
    var record := Types.Record(req.version, req.value);
    var staged := PutAt(EMPTY, req.key, req.value, req.version);
    assert staged.dirty[req.key] == map[req.version := record];
    assert Above(staged.dirty[req.key], req.version) == map[];
  }

  lemma Latest(s: Store, key: Key, v: nat)
    requires CleanVersion(s, key) <= v && forall w :: w in DirtyAt(s, key) ==> w <= v
    requires v == CleanVersion(s, key) || v in DirtyAt(s, key)
    ensures LatestVersion(s, key) == v
  {
  }

  /** Two clients use the same id for writes of the same key on a ring of two, nothing is lost or reordered: when the
      tail has committed only the first write, its acknowledgement makes the head clean at the second. The head is
      ahead of the tail, and a read at the head returns the second value before a read at the tail returns
      the first. */
  lemma CollidingIdsBreakReads(r: Ring, first: PutRequest, second: PutRequest)
    requires r.Valid() && |r.members| == 2 && r.mode != CHAIN
    requires first.key == second.key && first.id == second.id && first.version == second.version == 0
    ensures
      var key, head, tail := first.key, r.HeadIndex(first.key), r.TailIndex(first.key);
      var blank := Local(EMPTY, map[]);
      var h1 := HandlePut(r, head, blank, first).effect;
      var h2 := HandlePut(r, head, h1.local, second).effect;
      && |h1.out| == 1 && h1.out[0].ForwardPut? && h1.out[0].to == r.members[tail]
      && var t := HandlePut(r, tail, blank, h1.out[0].req).effect;
      && |t.out| >= 1 && t.out[0].WriteAck? && t.out[0].to == r.members[head]
      && var h3 := HandleAck(r, head, h2.local, t.out[0].id);
      && CleanVersion(h3.local.store, key) == 2 && CleanVersion(t.local.store, key) == 1
      && BeginGet(r, head, h3.local.store, key) == Done(Found(second.value, 2))
      && BeginGet(r, tail, t.local.store, key) == Done(Found(first.value, 1))
  {
    hide HandlePut, LatestVersion;
    var key := first.key;
    var one, two := Types.Record(1, first.value), Types.Record(2, second.value);
    Latest(EMPTY, key, 0);
    HeadFiles(r, Local(EMPTY, map[]), first, 1);
    var h1 := HandlePut(r, r.HeadIndex(key), Local(EMPTY, map[]), first).effect;
    Latest(h1.local.store, key, 1);
    HeadFiles(r, h1.local, second, 2);
    var h2 := HandlePut(r, r.HeadIndex(key), h1.local, second).effect;
    TailCommits(r, first.(version := 1, epoch := r.epoch));
    assert h2.local.store.dirty[key] == map[1 := one, 2 := two];
    assert Above(h2.local.store.dirty[key], 2) == map[];
  }
}
