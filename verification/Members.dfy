/** The members of the ring and their places on the chain of a key. */
module Members {
  import opened Types
  import opened Rings
  import opened Stores
  import opened Handlers
  import opened Clusters
  import opened Views
  import opened Simulation
  import opened ChainLines
  import Lines

  function TailNode(c: Cluster, key: Key): NodeId
    requires c.ring.Valid()
  {
    c.ring.members[c.ring.TailIndex(key)]
  }

  /** The committed version of a key: the tail's clean version. */
  function TailVersion(c: Cluster, key: Key): nat
    requires Shape(c)
  {
    CleanVersion(c.servers[TailNode(c, key)].store, key)
  }

  /** A record of an accepted write: value and version belong together. */
  predicate IsWrite(c: Cluster, key: Key, value: Value, v: nat) {
    1 <= v <= |Hist(c, key)| && Hist(c, key)[v - 1].value == value
  }

  lemma TailSlot(c: Cluster, key: Key)
    requires Shape(c)
    ensures |View(c, key).slots| == |c.ring.members| && View(c, key).latest == |Hist(c, key)|
    ensures TailVersion(c, key) == View(c, key).slots[|c.ring.members| - 1].cv
    ensures TailNode(c, key) in c.ring.members
  {
    Positions(c.ring, key, c.ring.TailIndex(key));
  }

  /** A member's own slot. */
  lemma MemberSlot(c: Cluster, x: NodeId, key: Key) returns (p: nat)
    requires Shape(c) && x in c.ring.members
    ensures |View(c, key).slots| == |c.ring.members| && View(c, key).latest == |Hist(c, key)|
    ensures p < |c.ring.members| && x == c.ring.NodeAt(key, p)
    ensures View(c, key).slots[p].cv == CleanVersion(c.servers[x].store, key)
    ensures View(c, key).slots[p].dirty == DirtyAt(c.servers[x].store, key).Keys
    ensures p == c.ring.PosOf(key, Seat(c, x))
  {
    p := SeatPosition(c, x, key);
  }

  lemma TopIsLatest(c: Cluster, x: NodeId, key: Key) returns (p: nat)
    requires Shape(c) && x in c.ring.members
    ensures |View(c, key).slots| == |c.ring.members| && p < |c.ring.members| && p == c.ring.PosOf(key, Seat(c, x))
    ensures x == c.ring.NodeAt(key, p)
    ensures Top(View(c, key).slots[p]) == LatestVersion(c.servers[x].store, key)
    ensures View(c, key).slots[p].cv == CleanVersion(c.servers[x].store, key)
    ensures View(c, key).slots[p].dirty == DirtyAt(c.servers[x].store, key).Keys
  {
    hide Highest;
    p := MemberSlot(c, x, key);
  }

  lemma SlotGrows(l: Lines.Line, m: Lines.Line, p: nat)
    requires Lines.Grows(l, m) && p < |l.slots|
    ensures |l.slots| == |m.slots| && l.slots[p].cv <= m.slots[p].cv
    ensures forall v: nat :: v in l.slots[p].dirty || v <= l.slots[p].cv ==>
              v in m.slots[p].dirty || v <= m.slots[p].cv
  {
    forall v: nat | v in l.slots[p].dirty || v <= l.slots[p].cv
      ensures v in m.slots[p].dirty || v <= m.slots[p].cv
    {
      assert Lines.Holds(l.slots[p], v);
      assert Lines.Holds(m.slots[p], v);
    }
  }

  /** A member keeps what it holds, because its slot does. */
  lemma MemberKeeps(c: Cluster, d: Cluster, x: NodeId, key: Key)
    requires Shape(c) && Shape(d) && d.ring == c.ring && x in c.ring.members
    requires Lines.Grows(View(c, key), View(d, key))
    ensures forall v: nat :: HoldsAt(c.servers[x].store, key, v) ==> HoldsAt(d.servers[x].store, key, v)
  {
    hide Lines.Grows, View, CleanVersion, DirtyAt;
    var p := MemberSlot(c, x, key);
    var q := MemberSlot(d, x, key);
    SlotGrows(View(c, key), View(d, key), p);
  }

  /** Any record held anywhere is a copy of an accepted write. */
  lemma RecordIsIssued(c: Cluster, x: NodeId, key: Key)
    requires Genuine(c) && x in c.servers
    ensures var s := c.servers[x].store;
      && (key in s.clean ==> IsWrite(c, key, s.clean[key].value, s.clean[key].version))
      && (forall v :: v in DirtyAt(s, key) ==> IsWrite(c, key, DirtyAt(s, key)[v].value, v))
  {
    var s := c.servers[x].store;
    assert GoodServer(c.hist, c.servers[x]);
    forall v | v in DirtyAt(s, key) ensures IsWrite(c, key, DirtyAt(s, key)[v].value, v) {
      assert GoodRecord(c.hist, key, s.dirty[key][v]);
    }
  }
}
