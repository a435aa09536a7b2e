/** The ring arithmetic: key hashing, head and tail of a key, neighbours, and positions along a key's chain. */
module Rings {
  import opened Types

  const FNV_OFFSET: bv64 := 14695981039346656037

  /** The product with the 64-bit FNV prime, with wrap-around. */
  function TimesPrime(x: bv64): bv64 {
    x * 1099511628211
  }

  function XorByte(hash: bv64, b: byte): bv64 {
    hash ^ (b as bv64)
  }

  function FnvStep(hash: bv64, b: byte): bv64 {
    TimesPrime(XorByte(hash, b))
  }

  /** The 64-bit FNV-1a hash of a key, as a machine word. */
  function FnvWord(key: Key): bv64 {
    if key == [] then FNV_OFFSET else FnvStep(FnvWord(key[..|key| - 1]), key[|key| - 1])
  }

  /** ... and as a number. */
  function Fnv(key: Key): nat {
    FnvWord(key) as nat
  }

  lemma FnvMore(key: Key, b: byte)
    ensures FnvWord(key + [b]) == FnvStep(FnvWord(key), b)
  {
    hide FnvStep;
    assert (key + [b])[..|key|] == key;
  }

  method Fnv1a64(key: Key) returns (hash: nat)
    ensures hash == Fnv(key)
  {
    hide FnvWord, TimesPrime;
    assert FnvWord(key[..0]) == FNV_OFFSET by { EmptyWord(); }
    var word := FNV_OFFSET;
    var i := 0;
    while i < |key|
      invariant 0 <= i <= |key|
      invariant word == FnvWord(key[..i])
    {
      FnvMore(key[..i], key[i]);
      assert key[..i] + [key[i]] == key[..i + 1];
      word := word ^ (key[i] as bv64);
      word := TimesPrime(word);
      i := i + 1;
    }
    assert key[..i] == key;
    hash := word as nat;
  }

  lemma EmptyWord()
    ensures FnvWord([]) == FNV_OFFSET
  {
  }

  /** How the head of a key is chosen: the first member, or the member the hash selects. */
  datatype Mode = CHAIN | CRAQ | CROWN

  datatype Ring = Ring(members: seq<NodeId>, mode: Mode, epoch: nat) {
    predicate Valid() {
      && |members| >= 1
      && forall i, j :: 0 <= i < j < |members| ==> members[i] != members[j]
    }

    function HeadIndex(key: Key): (h: nat)
      ensures members != [] ==> h < |members|
    {
      if mode == CROWN && members != [] then Fnv(key) % |members| else 0
    }

    function TailIndex(key: Key): (t: nat)
      ensures members != [] ==> t < |members|
    {
      if members == [] then 0
      else if mode == CROWN then (Fnv(key) % |members| + |members| - 1) % |members|
      else |members| - 1
    }

    function NextIndex(i: nat): nat
      requires members != []
    {
      (i + 1) % |members|
    }

    function PrevIndex(i: nat): nat
      requires members != []
    {
      (i + |members| - 1) % |members|
    }

    /** The member at position p of the chain of a key. */
    function IndexAt(key: Key, p: nat): (i: nat)
      requires p < |members|
      ensures i < |members|
    {
      var i := HeadIndex(key) + p;
      if i < |members| then i else i - |members|
    }

    function NodeAt(key: Key, p: nat): NodeId
      requires p < |members|
    {
      members[IndexAt(key, p)]
    }

    /** The position of the i-th member along the chain of a key. */
    function PosOf(key: Key, i: nat): (p: nat)
      requires i < |members|
      ensures p < |members|
    {
      var h := HeadIndex(key);
      if h <= i then i - h else i + |members| - h
    }
  }

  lemma ModOnce(a: nat, n: nat)
    requires n > 0 && a < 2 * n
    ensures a % n == if a < n then a else a - n
  {
  }

  /** The seat a server takes: the first member with its id, seat 0 if there is none. */
  function SeatOf(members: seq<NodeId>, id: NodeId): (i: nat)
    ensures id in members ==> i < |members| && members[i] == id
    ensures id !in members ==> i == 0
  {
    if members == [] then 0
    else if members[0] == id then 0
    else if id in members[1..] then 1 + SeatOf(members[1..], id)
    else 0
  }

  lemma SeatUnique(r: Ring, i: nat)
    requires r.Valid() && i < |r.members|
    ensures SeatOf(r.members, r.members[i]) == i
  {
    assert r.members[SeatOf(r.members, r.members[i])] == r.members[i];
  }

  /** Seats and positions determine each other; the head is at position 0, the tail at the last. */
  lemma Positions(r: Ring, key: Key, i: nat)
    requires i < |r.members|
    ensures r.IndexAt(key, r.PosOf(key, i)) == i
    ensures r.PosOf(key, r.IndexAt(key, i)) == i
    ensures r.PosOf(key, i) == 0 <==> i == r.HeadIndex(key)
    ensures r.PosOf(key, i) == |r.members| - 1 <==> i == r.TailIndex(key)
  {
    ModOnce(r.HeadIndex(key) + |r.members| - 1, |r.members|);
  }

  /** Going to the next seat moves one position down the chain and wraps from tail to head. */
  lemma Neighbours(r: Ring, key: Key, i: nat)
    requires i < |r.members|
    ensures r.NextIndex(i) < |r.members| && r.PrevIndex(i) < |r.members|
    ensures var p := r.PosOf(key, i); r.PosOf(key, r.NextIndex(i)) == if p + 1 < |r.members| then p + 1 else 0
    ensures var p := r.PosOf(key, i); r.PosOf(key, r.PrevIndex(i)) == if p > 0 then p - 1 else |r.members| - 1
  {
    ModOnce(i + 1, |r.members|);
    ModOnce(i + |r.members| - 1, |r.members|);
  }

  lemma NodesDistinct(r: Ring, key: Key, p: nat, q: nat)
    requires r.Valid() && p < |r.members| && q < |r.members|
    ensures r.NodeAt(key, p) == r.NodeAt(key, q) ==> p == q
  {
    Positions(r, key, p);
    Positions(r, key, q);
  }

  // ---------- walking the ring ----------

  /** The seat reached from seat i after `hops` steps to the next member. */
  function Walk(r: Ring, i: nat, hops: nat): (j: nat)
    requires i < |r.members|
    ensures j < |r.members|
  {
    if hops == 0 then i else r.NextIndex(Walk(r, i, hops - 1))
  }

  function WalkBack(r: Ring, i: nat, hops: nat): (j: nat)
    requires i < |r.members|
    ensures j < |r.members|
  {
    if hops == 0 then i else r.PrevIndex(WalkBack(r, i, hops - 1))
  }

  /** From the head of a key, each of the first n-1 hops goes one position down the chain. */
  lemma {:induction false} WalkFollowsChain(r: Ring, key: Key, hops: nat)
    requires hops < |r.members|
    ensures r.PosOf(key, Walk(r, r.HeadIndex(key), hops)) == hops
  {
    Positions(r, key, r.HeadIndex(key));
    if hops > 0 {
      WalkFollowsChain(r, key, hops - 1);
      Neighbours(r, key, Walk(r, r.HeadIndex(key), hops - 1));
    }
  }

  lemma {:induction false} WalkBackFollowsChain(r: Ring, key: Key, hops: nat)
    requires hops < |r.members|
    ensures r.PosOf(key, WalkBack(r, r.TailIndex(key), hops)) == |r.members| - 1 - hops
  {
    Positions(r, key, r.TailIndex(key));
    if hops > 0 {
      WalkBackFollowsChain(r, key, hops - 1);
      Neighbours(r, key, WalkBack(r, r.TailIndex(key), hops - 1));
    }
  }

  /** Seat i is met within the first n-1 hops from seat h. */
  ghost predicate Visits(r: Ring, h: nat, i: nat)
    requires h < |r.members|
  {
    exists hops :: 0 <= hops < |r.members| && Walk(r, h, hops) == i
  }

  /** Following `next` from the head visits every seat exactly once, is at the tail after n-1 hops and not
      before, and following `prev` from the tail leads back to the head over the same seats. */
  lemma RingTraversal(r: Ring, key: Key)
    requires r.members != []
    ensures var n := |r.members|; var h := r.HeadIndex(key);
      && (forall i :: 0 <= i < n ==> Visits(r, h, i))
      && (forall a, b :: 0 <= a < b < n ==> Walk(r, h, a) != Walk(r, h, b))
      && (forall a :: 0 <= a < n ==> (Walk(r, h, a) == r.TailIndex(key) <==> a == n - 1))
      && (forall a :: 0 <= a < n ==> WalkBack(r, r.TailIndex(key), a) == Walk(r, h, n - 1 - a))
  {
    var n := |r.members|;
    var h := r.HeadIndex(key);
    forall i | 0 <= i < n ensures Visits(r, h, i) {
      var hops := r.PosOf(key, i);
      WalkFollowsChain(r, key, hops);
      Positions(r, key, i);
      Positions(r, key, Walk(r, h, hops));
      assert Walk(r, h, hops) == i;
    }
    forall a | 0 <= a < n
      ensures r.PosOf(key, Walk(r, h, a)) == a
      ensures Walk(r, h, a) == r.TailIndex(key) <==> a == n - 1
      ensures WalkBack(r, r.TailIndex(key), a) == Walk(r, h, n - 1 - a)
    {
      WalkFollowsChain(r, key, a);
      WalkFollowsChain(r, key, n - 1 - a);
      WalkBackFollowsChain(r, key, a);
      Positions(r, key, Walk(r, h, a));
      Positions(r, key, Walk(r, h, n - 1 - a));
      Positions(r, key, WalkBack(r, r.TailIndex(key), a));
    }
  }

}
