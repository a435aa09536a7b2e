/** How the cluster looks along the chain of one key, and what it means for the data in it to be genuine. */
module Views {
  import opened Types
  import opened Rings
  import opened Stores
  import opened Handlers
  import opened Clusters
  import Lines

  // ---------- the view ----------

  function PendOf(table: Table, key: Key): set<nat> {
    set id | id in table && table[id].req.key == key :: table[id].req.version
  }

  function FwdOf(net: seq<Message>, x: NodeId, key: Key): set<nat> {
    set m | m in net && m.ForwardPut? && m.to == x && m.req.key == key :: m.req.version
  }

  function AckOf(net: seq<Message>, x: NodeId, key: Key): set<nat> {
    set m | m in net && m.WriteAck? && m.to == x && m.ackKey == key :: m.ackVersion
  }

  function CommitsOf(net: seq<Message>, key: Key): set<nat> {
    set m | m in net && m.CommitAck? && m.doneKey == key :: m.doneVersion
  }

  /** What a replica holds for a key. */
  function Core(local: Local, key: Key): Lines.Slot {
    Lines.Slot(CleanVersion(local.store, key), DirtyAt(local.store, key).Keys, PendOf(local.table, key), {}, {})
  }

  function SlotOf(c: Cluster, x: NodeId, key: Key): Lines.Slot
    requires x in c.servers
  {
    Core(LocalOf(c.servers[x], c.ring.mode), key).(fwd := FwdOf(c.net, x, key), ack := AckOf(c.net, x, key))
  }

  ghost predicate Shape(c: Cluster) {
    && c.ring.Valid()
    && forall x :: x in c.ring.members ==> x in c.servers
  }

  /** The chain of a key: slot p is the member at position p. */
  function View(c: Cluster, key: Key): Lines.Line
    requires Shape(c)
  {
    Lines.Line(|Hist(c, key)|,
               seq(|c.ring.members|, p requires 0 <= p < |c.ring.members| => SlotOf(c, c.ring.NodeAt(key, p), key)),
               CommitsOf(c.net, key))
  }

  lemma InFlight(net: seq<Message>, m: Message)
    requires m in net
    ensures m.ForwardPut? ==> m.req.version in FwdOf(net, m.to, m.req.key)
    ensures m.WriteAck? ==> m.ackVersion in AckOf(net, m.to, m.ackKey)
    ensures m.CommitAck? ==> m.doneVersion in CommitsOf(net, m.doneKey)
  {
  }

  lemma IsPending(table: Table, id: ReqId)
    requires id in table
    ensures table[id].req.version in PendOf(table, table[id].req.key)
  {
  }

  // ---------- genuine data ----------

  /** The head of the key accepted this write under this version. */
  predicate Issued(h: map<Key, seq<Write>>, key: Key, version: nat, w: Write) {
    key in h && 1 <= version <= |h[key]| && h[key][version - 1] == w
  }

  ghost predicate UniqueIds(h: map<Key, seq<Write>>) {
    forall k1, v1, k2, v2 ::
      k1 in h && k2 in h && 0 <= v1 < |h[k1]| && 0 <= v2 < |h[k2]| && h[k1][v1].id == h[k2][v2].id ==>
        k1 == k2 && v1 == v2
  }

  predicate GoodRequest(h: map<Key, seq<Write>>, req: PutRequest) {
    Issued(h, req.key, req.version, WriteOf(req))
  }

  ghost predicate GoodTable(h: map<Key, seq<Write>>, table: Table) {
    forall id :: id in table ==> table[id].req.id == id && GoodRequest(h, table[id].req)
  }

  predicate GoodRecord(h: map<Key, seq<Write>>, key: Key, r: Record) {
    key in h && 1 <= r.version <= |h[key]| && h[key][r.version - 1].value == r.value
  }

  ghost predicate GoodStore(h: map<Key, seq<Write>>, s: Store) {
    && Valid(s)
    && (forall key :: key in s.clean ==> GoodRecord(h, key, s.clean[key]))
    && (forall key, v :: key in s.dirty && v in s.dirty[key] ==> GoodRecord(h, key, s.dirty[key][v]))
  }

  predicate GoodMessage(h: map<Key, seq<Write>>, m: Message) {
    match m
    case ForwardPut(_, req) => GoodRequest(h, req)
    case WriteAck(_, id, key, version, _) =>
      key in h && 1 <= version <= |h[key]| && h[key][version - 1].id == id
    case CommitAck(client, key, version) =>
      key in h && 1 <= version <= |h[key]| && h[key][version - 1].client == Some(client)
  }

  ghost predicate GoodNet(h: map<Key, seq<Write>>, net: seq<Message>) {
    forall m :: m in net ==> GoodMessage(h, m)
  }

  ghost predicate GoodServer(h: map<Key, seq<Write>>, s: Server) {
    GoodStore(h, s.store) && forall mode :: GoodTable(h, TableOf(s, mode))
  }

  /** Everything stored, pending or in flight anywhere is a copy of an accepted write. */
  ghost predicate Genuine(c: Cluster) {
    && UniqueIds(c.hist)
    && (forall x :: x in c.servers ==> GoodServer(c.hist, c.servers[x]))
    && GoodNet(c.hist, c.net)
  }

  /** The invariant of CRAQ and CROWN: genuine data, and every key's chain in order. */
  ghost predicate Inv(c: Cluster) {
    && Shape(c)
    && c.ring.mode != CHAIN
    && Genuine(c)
    && forall key :: Lines.Inv(View(c, key))
  }

  // ---------- stores ----------

  lemma AddDirtyCore(s: Store, key: Key, r: Record, k: Key)
    ensures CleanVersion(AddDirty(s, key, r), k) == CleanVersion(s, k)
    ensures DirtyAt(AddDirty(s, key, r), k).Keys == DirtyAt(s, k).Keys + (if k == key then {r.version} else {})
  {
  }

  lemma MarkCleanCore(s: Store, key: Key, v: nat, table: Table, k: Key)
    requires Valid(s)
    ensures Core(Local(MarkClean(s, key, v), table), k) ==
            if k == key then Lines.Clean(Core(Local(s, table), k), v) else Core(Local(s, table), k)
  {
    if k == key && key in s.dirty {
      assert Above(s.dirty[key], v).Keys == set w | w in s.dirty[key].Keys && w > v;
    }
  }

  lemma DirtyStaysGood(h: map<Key, seq<Write>>, s: Store, key: Key, r: Record)
    requires GoodStore(h, s) && GoodRecord(h, key, r) && r.version > CleanVersion(s, key)
    ensures GoodStore(h, AddDirty(s, key, r))
  {
    var t := AddDirty(s, key, r);
    forall k, v | k in t.dirty && v in t.dirty[k]
      ensures GoodRecord(h, k, t.dirty[k][v]) && t.dirty[k][v].version == v && v > CleanVersion(t, k)
    {
      assert k != key || v != r.version ==> k in s.dirty && v in s.dirty[k] && t.dirty[k][v] == s.dirty[k][v];
    }
  }

  lemma CleaningStaysGood(h: map<Key, seq<Write>>, s: Store, key: Key, v: nat)
    requires GoodStore(h, s)
    ensures GoodStore(h, MarkClean(s, key, v))
  {
    OperationsKeepValid(s, key, "", v);
  }

  lemma StoresStayGood(h: map<Key, seq<Write>>, s: Store, key: Key, value: Value, v: nat)
    requires GoodStore(h, s)
    ensures GoodRecord(h, key, Record(v, value)) ==> GoodStore(h, PutAt(s, key, value, v))
    ensures GoodRecord(h, key, Record(LatestVersion(s, key) + 1, value)) ==> GoodStore(h, PutNext(s, key, value))
    ensures GoodStore(h, MarkClean(s, key, v))
  {
    hide GoodStore, GoodRecord, MarkClean, AddDirty;
    if GoodRecord(h, key, Record(v, value)) && v > CleanVersion(s, key) {
      DirtyStaysGood(h, s, key, Record(v, value));
    }
    var next := Record(LatestVersion(s, key) + 1, value);
    if GoodRecord(h, key, next) { DirtyStaysGood(h, s, key, next); }
    CleaningStaysGood(h, s, key, v);
  }
}
