/** The versioned store as a value: one clean record per key and any number of dirty ones.
    The functions say what each operation of the store does; the lemmas say what that amounts to. */
module Stores {
  import opened Types

  datatype Store = Store(clean: map<Key, Record>, dirty: map<Key, map<nat, Record>>)

  const EMPTY := Store(map[], map[])

  function CleanVersion(s: Store, key: Key): nat {
    if key in s.clean then s.clean[key].version else 0
  }

  function DirtyAt(s: Store, key: Key): map<nat, Record> {
    if key in s.dirty then s.dirty[key] else map[]
  }

  /** The largest of a floor and a set of versions. */
  ghost function Highest(floor: nat, versions: set<nat>): (h: nat)
    ensures h >= floor
    ensures forall v :: v in versions ==> v <= h
    ensures h == floor || h in versions
    decreases versions
  {
    if versions == {} then floor
    else
      var v :| v in versions;
      var rest := Highest(floor, versions - {v});
      assert versions == versions - {v} + {v};
      if v > rest then v else rest
  }

  ghost function LatestVersion(s: Store, key: Key): nat {
    Highest(CleanVersion(s, key), DirtyAt(s, key).Keys)
  }

  function AddDirty(s: Store, key: Key, r: Record): Store {
    s.(dirty := s.dirty[key := DirtyAt(s, key)[r.version := r]])
  }

  /** A write without a version gets the next one. */
  ghost function PutNext(s: Store, key: Key, value: Value): Store {
    AddDirty(s, key, Record(LatestVersion(s, key) + 1, value))
  }

  /** A write with a version is dropped when it is already covered by the clean record. */
  function PutAt(s: Store, key: Key, value: Value, version: nat): Store {
    if version <= CleanVersion(s, key) then s else AddDirty(s, key, Record(version, value))
  }

  function Above(records: map<nat, Record>, version: nat): map<nat, Record> {
    map v | v in records && v > version :: records[v]
  }

  /** Drops the dirty records up to a version and promotes the one with exactly that version. */
  function MarkClean(s: Store, key: Key, version: nat): Store {
    if key !in s.dirty then s
    else
      var records := s.dirty[key];
      var kept := s.(dirty := s.dirty[key := Above(records, version)]);
      if version in records && (key !in s.clean || records[version].version > s.clean[key].version) then
        kept.(clean := s.clean[key := records[version]])
      else
        kept
  }

  /** Dirty records carry the version they are filed under, and it is newer than the clean one. */
  ghost predicate Valid(s: Store) {
    forall key, v :: key in s.dirty && v in s.dirty[key] ==>
      s.dirty[key][v].version == v && v > CleanVersion(s, key)
  }

  // ---------- snapshots ----------

  function DumpValues(s: Store): map<Key, Value> {
    map key | key in s.clean :: s.clean[key].value
  }

  function DumpVersions(s: Store): map<Key, nat> {
    map key | key in s.clean :: s.clean[key].version
  }

  /** Everything the store has under one key. */
  datatype Cell = Cell(clean: Option<Record>, dirty: Option<map<nat, Record>>)

  function At(s: Store, key: Key): Cell {
    Cell(if key in s.clean then Some(s.clean[key]) else None,
         if key in s.dirty then Some(s.dirty[key]) else None)
  }

  /** The record a snapshot offers for a key; a value without a version counts as version 0. */
  function Offer(values: map<Key, Value>, versions: map<Key, nat>, key: Key): Option<Record> {
    if key in values then Some(Record(if key in versions then versions[key] else 0, values[key])) else None
  }

  function Newer(held: Option<Record>, offer: Record): Record {
    if held.None? || offer.version > held.value.version then offer else held.value
  }

  function Prune(held: Option<map<nat, Record>>, version: nat): Option<map<nat, Record>> {
    if held.None? || Above(held.value, version) == map[] then None else Some(Above(held.value, version))
  }

  /** The newer record wins, covered dirty records go, and an emptied dirty list goes altogether. */
  function Merge(c: Cell, offer: Option<Record>): Cell {
    if offer.None? then c
    else Cell(Some(Newer(c.clean, offer.value)), Prune(c.dirty, offer.value.version))
  }

  /** What a whole snapshot does: every key is merged with what the snapshot offers for it. */
  function ApplySnapshot(s: Store, values: map<Key, Value>, versions: map<Key, nat>): Store {
    Store(
      map key | key in s.clean.Keys + values.Keys :: Merge(At(s, key), Offer(values, versions, key)).clean.value,
      map key | key in s.dirty && Merge(At(s, key), Offer(values, versions, key)).dirty.Some? ::
        Merge(At(s, key), Offer(values, versions, key)).dirty.value)
  }

  lemma SnapshotAt(s: Store, values: map<Key, Value>, versions: map<Key, nat>, key: Key)
    ensures At(ApplySnapshot(s, values, versions), key) == Merge(At(s, key), Offer(values, versions, key))
  {
  }

  lemma SameCells(s: Store, t: Store)
    requires forall key :: At(s, key) == At(t, key)
    ensures s == t
  {
    forall key ensures key in s.clean <==> key in t.clean
               ensures key in s.dirty <==> key in t.dirty
               ensures key in s.clean ==> s.clean[key] == t.clean[key]
               ensures key in s.dirty ==> s.dirty[key] == t.dirty[key]
    {
      assert At(s, key) == At(t, key);
    }
    assert s.clean == t.clean;
    assert s.dirty == t.dirty;
  }

  // ---------- what every operation keeps ----------

  lemma OperationsKeepValid(s: Store, key: Key, value: Value, version: nat)
    requires Valid(s)
    ensures Valid(PutNext(s, key, value))
    ensures Valid(PutAt(s, key, value, version))
    ensures Valid(MarkClean(s, key, version))
  {
  }

  lemma SnapshotKeepsValid(s: Store, values: map<Key, Value>, versions: map<Key, nat>)
    requires Valid(s)
    ensures Valid(ApplySnapshot(s, values, versions))
    ensures forall k :: CleanVersion(ApplySnapshot(s, values, versions), k) >= CleanVersion(s, k)
  {
    var t := ApplySnapshot(s, values, versions);
    forall k ensures CleanVersion(t, k) >= CleanVersion(s, k)
             ensures k in t.dirty ==> forall v :: v in t.dirty[k] ==> t.dirty[k][v].version == v && v > CleanVersion(t, k)
    {
      SnapshotAt(s, values, versions, k);
      assert At(t, k) == Merge(At(s, k), Offer(values, versions, k));
    }
  }

  datatype Call =
    | CallPutNext(key: Key, value: Value)
    | CallPutAt(key: Key, value: Value, version: nat)
    | CallMarkClean(key: Key, version: nat)
    | CallApply(values: map<Key, Value>, versions: map<Key, nat>)

  ghost function Perform(s: Store, call: Call): Store {
    match call
    case CallPutNext(key, value) => PutNext(s, key, value)
    case CallPutAt(key, value, version) => PutAt(s, key, value, version)
    case CallMarkClean(key, version) => MarkClean(s, key, version)
    case CallApply(values, versions) => ApplySnapshot(s, values, versions)
  }

  ghost function PerformAll(s: Store, calls: seq<Call>): Store {
    if calls == [] then s else Perform(PerformAll(s, calls[..|calls| - 1]), calls[|calls| - 1])
  }

  lemma PerformKeeps(s: Store, call: Call)
    requires Valid(s)
    ensures Valid(Perform(s, call))
    ensures forall k :: CleanVersion(s, k) <= CleanVersion(Perform(s, call), k)
  {
    match call {
      case CallPutNext(k, x) =>
      case CallPutAt(k, x, v) =>
      case CallMarkClean(k, v) =>
      case CallApply(values, versions) => SnapshotKeepsValid(s, values, versions);
    }
  }

  /** Whatever is called in whatever order, from the empty store: the store stays valid, and at no point
      in the past was a clean version higher than it is now. */
  lemma {:induction false} EveryCallSequence(calls: seq<Call>, earlier: nat, key: Key)
    requires earlier <= |calls|
    ensures Valid(PerformAll(EMPTY, calls))
    ensures CleanVersion(PerformAll(EMPTY, calls[..earlier]), key) <= CleanVersion(PerformAll(EMPTY, calls), key)
  {
    if earlier == |calls| {
      assert calls[..earlier] == calls;
    }
    if calls != [] {
      var n := |calls| - 1;
      EveryCallSequence(calls[..n], if earlier <= n then earlier else n, key);
      PerformKeeps(PerformAll(EMPTY, calls[..n]), calls[n]);
      if earlier <= n { assert calls[..n][..earlier] == calls[..earlier]; }
    }
  }

  /** An unversioned put is filed one above everything the store holds for the key, and becomes the newest. */
  lemma NextVersionIsNew(s: Store, key: Key, value: Value)
    ensures var v := LatestVersion(s, key) + 1;
      && v > CleanVersion(s, key)
      && (forall w :: w in DirtyAt(s, key) ==> v > w)
      && DirtyAt(PutNext(s, key, value), key) == DirtyAt(s, key)[v := Record(v, value)]
      && LatestVersion(PutNext(s, key, value), key) == v
  {
    assert LatestVersion(s, key) + 1 in DirtyAt(PutNext(s, key, value), key).Keys;
  }

  // ---------- join by snapshot ----------

  function ApplyDump(t: Store, s: Store): Store {
    ApplySnapshot(t, DumpValues(s), DumpVersions(s))
  }

  lemma DumpAt(t: Store, s: Store, key: Key)
    ensures Offer(DumpValues(s), DumpVersions(s), key) == At(s, key).clean
    ensures At(ApplyDump(t, s), key) == Merge(At(t, key), At(s, key).clean)
  {
    SnapshotAt(t, DumpValues(s), DumpVersions(s), key);
  }

  /** A dump applied to an empty store reproduces the clean records and nothing else. */
  lemma SnapshotRoundTrip(s: Store)
    ensures ApplyDump(EMPTY, s) == Store(s.clean, map[])
  {
    forall key ensures At(ApplyDump(EMPTY, s), key) == At(Store(s.clean, map[]), key) { DumpAt(EMPTY, s, key); }
    SameCells(ApplyDump(EMPTY, s), Store(s.clean, map[]));
  }

  /** Every key ends at the newer of the two clean records, the one held if they are equally new, and exactly the dirty records
      the dump covers are gone. */
  lemma SnapshotIsMaximum(t: Store, s: Store, key: Key)
    ensures var u := ApplyDump(t, s);
      && (key in u.clean <==> key in t.clean || key in s.clean)
      && CleanVersion(u, key) >= CleanVersion(t, key) && CleanVersion(u, key) >= CleanVersion(s, key)
      && At(u, key).clean == (if key in s.clean && (key !in t.clean || CleanVersion(s, key) > CleanVersion(t, key))
                              then At(s, key).clean else At(t, key).clean)
      && (forall v :: v in DirtyAt(u, key) <==>
            v in DirtyAt(t, key) && (key in s.clean ==> v > s.clean[key].version))
      && (forall v :: v in DirtyAt(u, key) ==> DirtyAt(u, key)[v] == DirtyAt(t, key)[v])
      && (key in s.clean && key in u.dirty ==> u.dirty[key] != map[])
  {
    DumpAt(t, s, key);
    var u := ApplyDump(t, s);
    assert At(u, key) == Merge(At(t, key), At(s, key).clean);
    if key in s.clean && key in t.dirty {
      var kept := Above(t.dirty[key], s.clean[key].version);
      assert forall v :: v in t.dirty[key] && v > s.clean[key].version ==> v in kept;
      assert DirtyAt(u, key) == kept;
    } else {
      assert DirtyAt(u, key) == DirtyAt(t, key);
    }
  }

  /** A value that comes without a version is the oldest there can be: it is taken only where nothing is clean, as version 0, and
      covers no dirty record. */
  lemma UnversionedIsOldest(t: Store, values: map<Key, Value>, versions: map<Key, nat>, key: Key)
    requires key in values && key !in versions && Valid(t)
    ensures var u := ApplySnapshot(t, values, versions);
      && At(u, key).clean == (if key in t.clean then At(t, key).clean else Some(Record(0, values[key])))
      && DirtyAt(u, key) == DirtyAt(t, key)
  {
    SnapshotAt(t, values, versions, key);
    var u := ApplySnapshot(t, values, versions);
    assert At(u, key) == Merge(At(t, key), Some(Record(0, values[key])));
    if key in t.dirty { assert Above(t.dirty[key], 0) == t.dirty[key]; }
  }

  lemma MergeTwice(c: Cell, offer: Option<Record>)
    ensures Merge(Merge(c, offer), offer) == Merge(c, offer)
  {
    if offer.Some? && c.dirty.Some? {
      var v := offer.value.version;
      assert Above(Above(c.dirty.value, v), v) == Above(c.dirty.value, v);
    }
  }

  /** Applying the same dump again changes nothing. */
  lemma SnapshotIdempotent(t: Store, s: Store)
    ensures ApplyDump(ApplyDump(t, s), s) == ApplyDump(t, s)
  {
    var u := ApplyDump(t, s);
    forall key ensures At(ApplyDump(u, s), key) == At(u, key) {
      DumpAt(t, s, key);
      DumpAt(u, s, key);
      MergeTwice(At(t, key), At(s, key).clean);
    }
    SameCells(ApplyDump(u, s), u);
  }

  /** Two records of the same version are the same record. */
  predicate SameIfEqual(a: Option<Record>, b: Option<Record>) {
    a.Some? && b.Some? && a.value.version == b.value.version ==> a == b
  }

  lemma PruneOrder(held: Option<map<nat, Record>>, a: nat, b: nat)
    ensures Prune(Prune(held, a), b) == Prune(Prune(held, b), a)
  {
    if held.Some? {
      var m := held.value;
      assert Above(Above(m, a), b) == Above(Above(m, b), a);
      assert Above(m, a) == map[] ==> Above(Above(m, a), b) == map[];
      assert Above(m, b) == map[] ==> Above(Above(m, b), a) == map[];
    }
  }

  lemma MergeOrder(c: Cell, a: Option<Record>, b: Option<Record>)
    requires SameIfEqual(a, b) && SameIfEqual(c.clean, a) && SameIfEqual(c.clean, b)
    ensures Merge(Merge(c, a), b) == Merge(Merge(c, b), a)
  {
    if a.Some? && b.Some? { PruneOrder(c.dirty, a.value.version, b.value.version); }
  }

  /** Two dumps can be applied in either order, provided equal versions carry equal values. */
  lemma SnapshotsCommute(t: Store, s1: Store, s2: Store)
    requires forall key :: && SameIfEqual(At(s1, key).clean, At(s2, key).clean)
                           && SameIfEqual(At(t, key).clean, At(s1, key).clean)
                           && SameIfEqual(At(t, key).clean, At(s2, key).clean)
    ensures ApplyDump(ApplyDump(t, s1), s2) == ApplyDump(ApplyDump(t, s2), s1)
  {
    var ab := ApplyDump(ApplyDump(t, s1), s2);
    var ba := ApplyDump(ApplyDump(t, s2), s1);
    forall key ensures At(ab, key) == At(ba, key) {
      DumpAt(t, s1, key);
      DumpAt(t, s2, key);
      DumpAt(ApplyDump(t, s1), s2, key);
      DumpAt(ApplyDump(t, s2), s1, key);
      MergeOrder(At(t, key), At(s1, key).clean, At(s2, key).clean);
    }
    SameCells(ab, ba);
  }

  // ---------- order does not matter at the tail ----------

  /** What a tail does with a forwarded write. */
  function TailStep(s: Store, key: Key, r: Record): Store {
    if r.version <= CleanVersion(s, key) then s else MarkClean(PutAt(s, key, r.value, r.version), key, r.version)
  }

  function TailRun(s: Store, key: Key, writes: seq<Record>): Store {
    if writes == [] then s else TailStep(TailRun(s, key, writes[..|writes| - 1]), key, writes[|writes| - 1])
  }

  lemma TailStepEffect(s: Store, key: Key, r: Record)
    requires DirtyAt(s, key) == map[]
    ensures var t := TailStep(s, key, r);
      && DirtyAt(t, key) == map[]
      && At(t, key).clean == if r.version <= CleanVersion(s, key) then At(s, key).clean else Some(r)
  {
    if r.version > CleanVersion(s, key) {
      var staged := PutAt(s, key, r.value, r.version);
      assert staged.dirty[key] == map[r.version := r];
      assert Above(staged.dirty[key], r.version) == map[];
    }
  }

  /** However a finite set of writes of one key reaches a tail, in whatever order and however often: nothing
      is dirty afterwards, nothing newer was delivered than the clean record, and that record is one of the
      delivered writes unless the tail already had something as new. */
  lemma {:induction false} TailConverges(s: Store, key: Key, writes: seq<Record>)
    requires DirtyAt(s, key) == map[]
    ensures var t := TailRun(s, key, writes);
      && DirtyAt(t, key) == map[]
      && CleanVersion(t, key) >= CleanVersion(s, key)
      && (forall r :: r in writes ==> r.version <= CleanVersion(t, key))
      && (if CleanVersion(t, key) == CleanVersion(s, key) then At(t, key).clean == At(s, key).clean
          else key in t.clean && t.clean[key] in writes)
  {
    if writes != [] {
      var n := |writes| - 1;
      TailConverges(s, key, writes[..n]);
      TailStepEffect(TailRun(s, key, writes[..n]), key, writes[n]);
      assert writes == writes[..n] + [writes[n]];
    }
  }

  /** Two deliveries of the same writes, in different orders and with different repetitions, leave the same
      clean record. */
  lemma TailOrderIrrelevant(s: Store, key: Key, a: seq<Record>, b: seq<Record>)
    requires DirtyAt(s, key) == map[]
    requires forall r :: r in a <==> r in b
    requires forall r, q :: r in a && q in a && r.version == q.version ==> r == q
    ensures At(TailRun(s, key, a), key).clean == At(TailRun(s, key, b), key).clean
  {
    TailConverges(s, key, a);
    TailConverges(s, key, b);
  }

  function MarkAll(s: Store, key: Key, versions: seq<nat>): Store {
    if versions == [] then s else MarkClean(MarkAll(s, key, versions[..|versions| - 1]), key, versions[|versions| - 1])
  }

  /** Marking dirty versions clean, in any order and however often, has the effect of marking the newest. */
  lemma {:induction false} MarkingOrderIrrelevant(s: Store, key: Key, versions: seq<nat>, newest: nat)
    requires Valid(s) && newest in versions
    requires forall v :: v in versions ==> v in DirtyAt(s, key) && v <= newest
    ensures MarkAll(s, key, versions) == MarkClean(s, key, newest)
  {
    var n := |versions| - 1;
    var init, last := versions[..n], versions[n];
    assert versions == init + [last];
    if init == [] {
      assert MarkAll(s, key, init) == s;
    } else {
      var top := HighestOf(init);
      MarkingOrderIrrelevant(s, key, init, top);
      MarkTwice(s, key, top, last);
    }
  }

  function HighestOf(versions: seq<nat>): (h: nat)
    requires versions != []
    ensures h in versions && forall v :: v in versions ==> v <= h
  {
    if |versions| == 1 then versions[0]
    else
      var rest := HighestOf(versions[1..]);
      assert versions == [versions[0]] + versions[1..];
      if versions[0] > rest then versions[0] else rest
  }

  lemma MarkTwice(s: Store, key: Key, a: nat, b: nat)
    requires Valid(s) && a in DirtyAt(s, key) && b in DirtyAt(s, key)
    ensures MarkClean(MarkClean(s, key, a), key, b) == MarkClean(s, key, if b > a then b else a)
  {
    var c := if b > a then b else a;
    var t := MarkClean(MarkClean(s, key, a), key, b);
    var u := MarkClean(s, key, c);
    assert Above(Above(s.dirty[key], a), b) == Above(s.dirty[key], c);
    assert t.dirty == u.dirty;
    assert t.clean == u.clean;
  }
}
