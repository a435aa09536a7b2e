/** What the hash of a key is, told apart from the loop that computes it. */
module Hashes {
  import opened Types
  import opened Rings

  /** The product with the FNV prime 2^40 + 2^8 + 179, summand by summand. */
  function Spread(x: bv64): bv64 {
    x * 0x100_0000_0000 + x * 0x100 + x * 179
  }

  lemma PrimeSpreads(x: bv64)
    ensures TimesPrime(x) == Spread(x)
  {
  }

  lemma StepSpreads(hash: bv64, b: byte)
    ensures FnvStep(hash, b) == Spread(XorByte(hash, b))
  {
    hide TimesPrime, Spread, XorByte;
    PrimeSpreads(XorByte(hash, b));
  }

  /** The whole hash of a key with one more byte: exclusive or first, then the product. */
  lemma HashOfOneMore(key: Key, b: byte, mixed: bv64)
    requires mixed == FnvWord(key) ^ (b as bv64)
    ensures FnvWord(key + [b]) == Spread(mixed)
  {
    hide FnvStep, Spread, FnvWord;
    assert mixed == XorByte(FnvWord(key), b);
    FnvMore(key, b);
    StepSpreads(FnvWord(key), b);
  }

  function Low(x: bv64): bv64 {
    x & 0xFF
  }

  /** 179 times a number, modulo 256. */
  function Scaled(x: bv64): bv64 {
    (179 * x) & 0xFF
  }

  lemma LowOfXor(x: bv64, b: byte)
    ensures Low(XorByte(x, b)) == Low(x) ^ (b as bv64)
  {
  }

  lemma LowOfProduct(x: bv64)
    ensures Low(TimesPrime(x)) == Scaled(Low(x))
  {
  }

  /** The lowest byte of the hash is 179 times the exclusive or of the byte with the lowest byte before, modulo 256. */
  lemma LowByte(key: Key, b: byte)
    ensures Low(FnvWord(key + [b])) == Scaled(Low(FnvWord(key)) ^ (b as bv64))
  {
    FnvMore(key, b);
    hide Low, FnvWord, TimesPrime, Scaled, XorByte;
    LowOfXor(FnvWord(key), b);
    LowOfProduct(XorByte(FnvWord(key), b));
  }

  // ---------- keys that differ in one byte ----------

  function Undo(x: bv64): bv64 {
    x * 0xce965057aff6957b
  }

  lemma ProductUndone(x: bv64)
    ensures Undo(x * 1099511628211) == x
  {
  }

  /** The product with the prime can be undone. */
  lemma PrimeUndone(x: bv64)
    ensures Undo(TimesPrime(x)) == x
  {
    hide Undo;
    ProductUndone(x);
  }

  lemma SameByteDiffers(h: bv64, g: bv64, b: byte)
    requires h != g
    ensures XorByte(h, b) != XorByte(g, b)
  {
  }

  lemma OtherByteDiffers(h: bv64, b: byte, c: byte)
    requires b != c
    ensures XorByte(h, b) != XorByte(h, c)
  {
  }

  lemma StepsDiffer(h: bv64, g: bv64, b: byte, c: byte)
    requires (h == g) != (b == c)
    ensures FnvStep(h, b) != FnvStep(g, c)
  {
    hide TimesPrime, Undo, XorByte;
    PrimeUndone(XorByte(h, b));
    PrimeUndone(XorByte(g, c));
    if b == c { SameByteDiffers(h, g, b); } else { OtherByteDiffers(h, b, c); }
  }

  /** Two keys of the same length that differ in exactly one byte have different hashes. */
  lemma {:induction false} OneByteMatters(key: Key, other: Key, i: nat)
    requires i < |key| == |other| && key[i] != other[i]
    requires forall j :: 0 <= j < |key| && j != i ==> key[j] == other[j]
    ensures FnvWord(key) != FnvWord(other)
  {
    hide FnvStep;
    var n := |key| - 1;
    if i == n {
      assert key[..n] == other[..n];
    } else {
      OneByteMatters(key[..n], other[..n], i);
    }
    StepsDiffer(FnvWord(key[..n]), FnvWord(other[..n]), key[n], other[n]);
  }

  // ---------- known hashes ----------

  lemma KnownSteps()
    ensures FnvStep(FNV_OFFSET, 0x61) == 0xaf63dc4c8601ec8c
    ensures FnvStep(FNV_OFFSET, 0x66) == 0xaf63db4c8601ead9
    ensures FnvStep(0xaf63db4c8601ead9, 0x6f) == 0x08985907b541d342
    ensures FnvStep(0x08985907b541d342, 0x6f) == 0xdcb27518fed9d577
    ensures FnvStep(0xdcb27518fed9d577, 0x62) == 0xdd120e790c2512af
    ensures FnvStep(0xdd120e790c2512af, 0x61) == 0xcac165afa2fef40a
    ensures FnvStep(0xcac165afa2fef40a, 0x72) == 0x85944171f73967e8
  {
  }

  lemma Grown(key: Key, b: byte, longer: Key)
    requires longer == key + [b]
    ensures FnvWord(longer) == FnvStep(FnvWord(key), b)
  {
    FnvMore(key, b);
  }

  /** The hashes that the definition of FNV-1a lists for the empty key, for "a" and for "foobar". */
  lemma KnownHashes()
    ensures Fnv([]) == 0xcbf29ce484222325
    ensures Fnv([0x61]) == 0xaf63dc4c8601ec8c
    ensures Fnv([0x66, 0x6f, 0x6f, 0x62, 0x61, 0x72]) == 0x85944171f73967e8
  {
    EmptyWord();
    KnownSteps();
    hide FnvWord, FnvStep;
    Grown([], 0x61, [0x61]);
    Grown([], 0x66, [0x66]);
    Grown([0x66], 0x6f, [0x66, 0x6f]);
    Grown([0x66, 0x6f], 0x6f, [0x66, 0x6f, 0x6f]);
    Grown([0x66, 0x6f, 0x6f], 0x62, [0x66, 0x6f, 0x6f, 0x62]);
    Grown([0x66, 0x6f, 0x6f, 0x62], 0x61, [0x66, 0x6f, 0x6f, 0x62, 0x61]);
    Grown([0x66, 0x6f, 0x6f, 0x62, 0x61], 0x72, [0x66, 0x6f, 0x6f, 0x62, 0x61, 0x72]);
  }

  /** So on a ring of three, in CROWN mode, the chain of "a" starts at seat 1 and ends at seat 0. */
  lemma KnownHead(r: Ring)
    requires r.mode == CROWN && |r.members| == 3
    ensures r.HeadIndex([0x61]) == 1 && r.TailIndex([0x61]) == 0
  {
    KnownHashes();
    hide Fnv;
  }
}
