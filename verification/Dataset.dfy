/** The generator of balanced datasets: keys whose hashes take the residues in turn. */
module Dataset {
  import opened Types
  import opened Rings

  const KEY_WIDTH: nat := 10
  const VALUE_WIDTH: nat := 64
  const BALANCE_MODULUS: nat := 315

  datatype Row = Row(key: Key, value: seq<byte>)

  // ---------- division ----------

  lemma MultipleBounds(d: int, m: nat)
    ensures d >= 1 ==> d * m >= m
    ensures d <= -1 ==> d * m + m <= 0
  {
  }

  lemma ModOf(x: nat, q: nat, r: nat, m: nat)
    requires m > 0 && r < m && x == q * m + r
    ensures x % m == r && x / m == q
  {
    var d := q - x / m;
    assert d * m == q * m - (x / m) * m;
    MultipleBounds(d, m);
  }

  lemma MulPositive(k: nat, n: nat)
    requires k > 0 && n > 0
    ensures k * n > 0
  {
  }

  lemma MulAssoc(a: nat, b: nat, c: nat)
    ensures a * (b * c) == (a * b) * c
  {
  }

  lemma Distribute(a: nat, b: nat, c: nat)
    ensures (a + b) * c == a * c + b * c
  {
  }

  lemma DivMod(x: nat, m: nat)
    requires m > 0
    ensures x == (x / m) * m + x % m && x % m < m
  {
  }

  lemma Regroup(q: nat, k: nat, n: nat, a: nat, b: nat)
    ensures q * (k * n) + (a * n + b) == (q * k + a) * n + b
  {
    MulAssoc(q, k, n);
    Distribute(q * k, a, n);
  }

  // ---------- names for numbers ----------

  /** The letters from a to z, one after the other. */
  function Letter(digit: nat): byte
    requires digit < 26
  {
    if digit == 0 then 97 else Letter(digit - 1) + 1
  }

  lemma NextByte(b: byte)
    requires b != 255
    ensures (b + 1) as nat == b as nat + 1
  {
  }

  lemma {:induction false} LetterBack(digit: nat)
    requires digit < 26
    ensures Letter(digit) as nat == 97 + digit
  {
    if digit > 0 {
      LetterBack(digit - 1);
      NextByte(Letter(digit - 1));
    }
  }

  /** The last `width` base-26 digits of a number, as letters. */
  function Base26(value: nat, width: nat): (s: seq<byte>)
    ensures |s| == width
  {
    if width == 0 then [] else Base26(value / 26, width - 1) + [Letter(value % 26)]
  }

  function Pow26(width: nat): (p: nat)
    ensures p >= 1
  {
    if width == 0 then 1 else 26 * Pow26(width - 1)
  }

  function Decode(s: seq<byte>): int {
    if s == [] then 0 else 26 * Decode(s[..|s| - 1]) + (s[|s| - 1] as int - 97)
  }

  /** The last digit and the digits before it, of a number cut down to `width` digits. */
  lemma DigitSplit(value: nat, p: nat)
    requires p > 0
    ensures value % (26 * p) == 26 * ((value / 26) % p) + value % 26
  {
    var top := value / 26;
    DivMod(top, p);
    Regroup26(top / p, p, top % p, value % 26);
    ModOf(value, top / p, 26 * (top % p) + value % 26, 26 * p);
  }

  lemma Regroup26(q: nat, p: nat, a: nat, b: nat)
    ensures 26 * (q * p + a) + b == q * (26 * p) + (26 * a + b)
  {
  }

  /** The letters determine the number up to the digits that were cut off. */
  lemma {:induction false} DecodeBase26(value: nat, width: nat)
    ensures Decode(Base26(value, width)) == value % Pow26(width)
  {
    hide Letter;
    if width > 0 {
      DecodeBase26(value / 26, width - 1);
      LetterBack(value % 26);
      DigitSplit(value, Pow26(width - 1));
      assert Base26(value, width)[..width - 1] == Base26(value / 26, width - 1);
    }
  }

  lemma {:induction false} SameDigits(a: nat, b: nat, width: nat)
    requires a % Pow26(width) == b % Pow26(width)
    ensures Base26(a, width) == Base26(b, width)
  {
    if width > 0 {
      DigitSplit(a, Pow26(width - 1));
      DigitSplit(b, Pow26(width - 1));
      SameDigits(a / 26, b / 26, width - 1);
    }
  }

  /** Two numbers get the same letters exactly if they agree modulo 26 to the number of letters. */
  lemma SameLettersExactly(a: nat, b: nat, width: nat)
    ensures Base26(a, width) == Base26(b, width) <==> a % Pow26(width) == b % Pow26(width)
  {
    DecodeBase26(a, width);
    DecodeBase26(b, width);
    if a % Pow26(width) == b % Pow26(width) { SameDigits(a, b, width); }
  }

  /** Filled in from the last letter to the first. */
  method ToBase26(value: nat, width: nat) returns (s: seq<byte>)
    ensures s == Base26(value, width)
  {
    var chars := new byte[width](_ => 97);
    var position, rest := width, value;
    while position > 0
      invariant 0 <= position <= width
      invariant Base26(value, width) == Base26(rest, position) + chars[position..]
    {
      position := position - 1;
      chars[position] := Letter(rest % 26);
      assert chars[position..] == [Letter(rest % 26)] + chars[position + 1..];
      rest := rest / 26;
    }
    s := chars[..];
  }

  function RowOf(candidate: nat): Row {
    Row(Base26(candidate, KEY_WIDTH), Base26(candidate, VALUE_WIDTH))
  }

  /** Key and value of a row spell its candidate, cut down to 10 and 64 letters. */
  lemma RowSpells(candidate: nat)
    ensures var row := RowOf(candidate);
      && |row.key| == 10 && Decode(row.key) == candidate % Pow26(10)
      && |row.value| == 64 && Decode(row.value) == candidate % Pow26(64)
  {
    hide Base26, Decode, Pow26;
    DecodeBase26(candidate, 10);
    DecodeBase26(candidate, 64);
  }

  /** The first n candidates, in order. */
  function Candidates(n: nat): (rows: seq<Row>)
    ensures |rows| == n && forall i :: 0 <= i < n ==> rows[i] == RowOf(i)
  {
    seq(n, i requires 0 <= i => RowOf(i))
  }

  lemma CandidatesDistinct(n: nat, i: nat, j: nat)
    requires i < j < n <= Pow26(KEY_WIDTH)
    ensures RowOf(i).key != RowOf(j).key
  {
    hide Base26, Pow26, Decode;
    SameLettersExactly(i, j, KEY_WIDTH);
    ModOf(i, 0, i, Pow26(KEY_WIDTH));
    ModOf(j, 0, j, Pow26(KEY_WIDTH));
  }

  // ---------- sorting rows by residue ----------

  function Residue(row: Row, modulus: nat): (r: nat)
    requires modulus > 0
    ensures r < modulus
  {
    Fnv(row.key) % modulus
  }

  /** The rows of one residue, in their order. */
  function Only(rows: seq<Row>, modulus: nat, r: nat): seq<Row>
    requires modulus > 0
  {
    if rows == [] then []
    else
      var last := rows[|rows| - 1];
      var rest := Only(rows[..|rows| - 1], modulus, r);
      if Residue(last, modulus) == r then rest + [last] else rest
  }

  lemma OnlyMore(rows: seq<Row>, row: Row, modulus: nat, r: nat)
    requires modulus > 0
    ensures Only(rows + [row], modulus, r) == Only(rows, modulus, r) + if Residue(row, modulus) == r then [row] else []
  {
    assert (rows + [row])[..|rows|] == rows;
  }

  type Buckets = map<nat, seq<Row>>

  function NoRows(modulus: nat): (buckets: Buckets)
    ensures forall r :: (r in buckets <==> 0 <= r < modulus) && (r in buckets ==> buckets[r] == [])
  {
    if modulus == 0 then map[] else NoRows(modulus - 1)[modulus - 1 := []]
  }

  /** For every residue: the rows emitted with it, followed by those waiting in its bucket, are exactly the
      candidates with that residue so far, in order. */
  ghost predicate Accounted(rows: seq<Row>, buckets: Buckets, candidate: nat, modulus: nat)
    requires modulus > 0
  {
    && (forall r :: r in buckets <==> 0 <= r < modulus)
    && forall r :: 0 <= r < modulus ==>
      Only(rows, modulus, r) + buckets[r] == Only(Candidates(candidate), modulus, r)
  }

  /** The i-th row has residue i. */
  ghost predicate InTurn(rows: seq<Row>, modulus: nat)
    requires modulus > 0
  {
    forall i :: 0 <= i < |rows| ==> Residue(rows[i], modulus) == i % modulus
  }

  lemma {:induction false} OnlyHasResidue(rows: seq<Row>, modulus: nat, r: nat)
    requires modulus > 0
    ensures forall row :: row in Only(rows, modulus, r) ==> Residue(row, modulus) == r
  {
    if rows != [] { OnlyHasResidue(rows[..|rows| - 1], modulus, r); }
  }

  /** Taking the first row of the bucket whose turn it is. */
  lemma EmitKeeps(rows: seq<Row>, buckets: Buckets, candidate: nat, modulus: nat, r: nat)
    requires modulus > 0 && Accounted(rows, buckets, candidate, modulus) && InTurn(rows, modulus)
    requires r == |rows| % modulus && buckets[r] != []
    ensures var row := buckets[r][0];
      && Accounted(rows + [row], buckets[r := buckets[r][1..]], candidate, modulus)
      && InTurn(rows + [row], modulus)
  {
    hide Base26, RowOf, Fnv;
    var row := buckets[r][0];
    var after := buckets[r := buckets[r][1..]];
    OnlyHasResidue(Candidates(candidate), modulus, r);
    assert row in Only(rows, modulus, r) + buckets[r];
    forall q | 0 <= q < modulus
      ensures Only(rows + [row], modulus, q) + after[q] == Only(Candidates(candidate), modulus, q)
    {
      OnlyMore(rows, row, modulus, q);
      if q == r { assert buckets[r] == [row] + after[r]; }
    }
  }

  /** Filing the next candidate in the bucket of its residue. */
  lemma FileKeeps(rows: seq<Row>, buckets: Buckets, candidate: nat, modulus: nat)
    requires modulus > 0 && Accounted(rows, buckets, candidate, modulus)
    ensures var row := RowOf(candidate); var r := Residue(row, modulus);
      r in buckets && Accounted(rows, buckets[r := buckets[r] + [row]], candidate + 1, modulus)
  {
    hide Base26, RowOf, Fnv;
    var row := RowOf(candidate);
    var r := Residue(row, modulus);
    var after := buckets[r := buckets[r] + [row]];
    assert Candidates(candidate + 1) == Candidates(candidate) + [row];
    forall q | 0 <= q < modulus
      ensures Only(rows, modulus, q) + after[q] == Only(Candidates(candidate + 1), modulus, q)
    {
      OnlyMore(Candidates(candidate), row, modulus, q);
    }
  }

  lemma NextTurn(n: nat, modulus: nat)
    requires modulus > 0
    ensures (n + 1) % modulus == (n % modulus + 1) % modulus
  {
    var q, r := n / modulus, n % modulus;
    assert n == q * modulus + r;
    if r + 1 < modulus {
      ModOf(n + 1, q, r + 1, modulus);
    } else {
      assert n + 1 == (q + 1) * modulus + 0;
      ModOf(n + 1, q + 1, 0, modulus);
    }
  }

  lemma StartAccounted(modulus: nat)
    requires modulus > 0
    ensures Accounted([], NoRows(modulus), 0, modulus)
  {
    hide NoRows;
    assert Candidates(0) == [];
  }

  /** Emits rows whose residues go around in turn, filing candidates until the wanted residue has one. Only
      candidates below `limit` are tried. */
  method GenerateBalancedRows(total: nat, modulus: nat, limit: nat)
    returns (rows: seq<Row>, buckets: Buckets, candidate: nat)
    requires modulus > 0
    ensures |rows| <= total && candidate <= limit
    ensures InTurn(rows, modulus) && Accounted(rows, buckets, candidate, modulus)
    ensures |rows| < total ==> candidate == limit && buckets[|rows| % modulus] == []
  {
    hide Base26, NoRows, Only, Fnv;
    StartAccounted(modulus);
    buckets := NoRows(modulus);
    rows, candidate := [], 0;
    var nextResidue: nat := 0;
    while |rows| < total && (buckets[nextResidue] != [] || candidate < limit)
      invariant |rows| <= total && candidate <= limit
      invariant nextResidue == |rows| % modulus
      invariant InTurn(rows, modulus) && Accounted(rows, buckets, candidate, modulus)
      decreases total - |rows|, limit - candidate
    {
      if buckets[nextResidue] != [] {
        EmitKeeps(rows, buckets, candidate, modulus, nextResidue);
        NextTurn(|rows|, modulus);
        rows := rows + [buckets[nextResidue][0]];
        buckets := buckets[nextResidue := buckets[nextResidue][1..]];
        nextResidue := (nextResidue + 1) % modulus;
      } else {
        FileKeeps(rows, buckets, candidate, modulus);
        var key := ToBase26(candidate, KEY_WIDTH);
        var value := ToBase26(candidate, VALUE_WIDTH);
        var row := Row(key, value);
        assert row == RowOf(candidate);
        var hash := Fnv1a64(key);
        var residue: nat := hash % modulus;
        assert residue == Residue(row, modulus);
        buckets := buckets[residue := buckets[residue] + [row]];
        candidate := candidate + 1;
      }
    }
  }

  // ---------- what the rows are good for ----------

  lemma {:induction false} OnlyCounts(rows: seq<Row>, modulus: nat, row: Row)
    requires modulus > 0
    ensures multiset(Only(rows, modulus, Residue(row, modulus)))[row] == multiset(rows)[row]
  {
    if rows != [] {
      var n := |rows| - 1;
      OnlyCounts(rows[..n], modulus, row);
      assert rows == rows[..n] + [rows[n]];
    }
  }

  /** Nothing is lost or made up: every row is emitted and waiting, together, as often as it was a candidate. */
  lemma Conservation(rows: seq<Row>, buckets: Buckets, candidate: nat, modulus: nat, row: Row)
    requires modulus > 0 && Accounted(rows, buckets, candidate, modulus)
    ensures Residue(row, modulus) in buckets
    ensures multiset(rows)[row] + multiset(buckets[Residue(row, modulus)])[row] == multiset(Candidates(candidate))[row]
  {
    var r := Residue(row, modulus);
    OnlyCounts(rows, modulus, row);
    OnlyCounts(Candidates(candidate), modulus, row);
    assert multiset(Only(rows, modulus, r) + buckets[r])[row]
        == multiset(Only(rows, modulus, r))[row] + multiset(buckets[r])[row];
  }

  lemma {:induction false} CandidateOnce(n: nat, row: Row)
    requires n <= Pow26(KEY_WIDTH)
    ensures multiset(Candidates(n))[row] <= 1
  {
    hide Base26, RowOf, Pow26;
    if n > 0 {
      CandidateOnce(n - 1, row);
      assert Candidates(n) == Candidates(n - 1) + [RowOf(n - 1)];
      if row == RowOf(n - 1) && row in Candidates(n - 1) {
        var i :| 0 <= i < n - 1 && row == RowOf(i);
        CandidatesDistinct(n, i, n - 1);
      }
    }
  }

  /** An emitted row is a candidate. */
  lemma RowIsCandidate(rows: seq<Row>, buckets: Buckets, candidate: nat, modulus: nat, i: nat) returns (a: nat)
    requires modulus > 0 && Accounted(rows, buckets, candidate, modulus) && i < |rows|
    ensures a < candidate && rows[i] == RowOf(a)
  {
    hide Base26, RowOf, Accounted;
    Conservation(rows, buckets, candidate, modulus, rows[i]);
    assert rows[i] in multiset(Candidates(candidate));
    a :| 0 <= a < candidate && Candidates(candidate)[a] == rows[i];
  }

  lemma TwiceMeansTwo(rows: seq<Row>, i: nat, j: nat)
    requires i < j < |rows| && rows[i] == rows[j]
    ensures multiset(rows)[rows[i]] >= 2
  {
    assert rows == rows[..j] + [rows[j]] + rows[j + 1..];
    assert rows[..j] == rows[..i] + [rows[i]] + rows[i + 1..j];
  }

  /** As long as the candidates have at most ten letters, no key is emitted twice. */
  lemma KeysDistinct(rows: seq<Row>, buckets: Buckets, candidate: nat, modulus: nat, i: nat, j: nat)
    requires modulus > 0 && Accounted(rows, buckets, candidate, modulus)
    requires i < j < |rows| && candidate <= Pow26(KEY_WIDTH)
    ensures rows[i].key != rows[j].key
  {
    hide Base26, RowOf, Accounted, Pow26;
    var a := RowIsCandidate(rows, buckets, candidate, modulus, i);
    var b := RowIsCandidate(rows, buckets, candidate, modulus, j);
    if a == b {
      Conservation(rows, buckets, candidate, modulus, rows[i]);
      CandidateOnce(candidate, rows[i]);
      TwiceMeansTwo(rows, i, j);
    } else if a < b {
      CandidatesDistinct(candidate, a, b);
    } else {
      CandidatesDistinct(candidate, b, a);
    }
  }

  /** A residue modulo a multiple of n determines the residue modulo n. */
  lemma ModDivisor(x: nat, k: nat, n: nat)
    requires k > 0 && n > 0
    ensures (k * n) > 0 && (x % (k * n)) % n == x % n
  {
    MulPositive(k, n);
    var m := k * n;
    DivMod(x, m);
    DivMod(x % m, n);
    Regroup(x / m, k, n, (x % m) / n, (x % m) % n);
    ModOf(x, (x / m) * k + (x % m) / n, (x % m) % n, n);
  }

  /** On a CROWN ring whose size divides the modulus, the heads of the rows go around the ring. */
  lemma HeadsInTurn(rows: seq<Row>, k: nat, r: Ring, i: nat)
    requires r.mode == CROWN && r.members != [] && k > 0
    requires k * |r.members| > 0 && InTurn(rows, k * |r.members|) && i < |rows|
    ensures r.HeadIndex(rows[i].key) == i % |r.members|
  {
    var n := |r.members|;
    ModDivisor(Fnv(rows[i].key), k, n);
    ModDivisor(i, k, n);
    assert Residue(rows[i], k * n) == i % (k * n);
  }

  /** How many of the first rows have their head at seat h. */
  function Load(rows: seq<Row>, r: Ring, h: nat): nat {
    if rows == [] then 0
    else Load(rows[..|rows| - 1], r, h) + if r.HeadIndex(rows[|rows| - 1].key) == h then 1 else 0
  }

  lemma {:induction false} LoadExact(rows: seq<Row>, k: nat, r: Ring, prefix: nat, h: nat)
    requires r.mode == CROWN && r.members != [] && k > 0
    requires k * |r.members| > 0 && InTurn(rows, k * |r.members|) && prefix <= |rows| && h < |r.members|
    ensures Load(rows[..prefix], r, h) == prefix / |r.members| + if h < prefix % |r.members| then 1 else 0
  {
    var n := |r.members|;
    if prefix == 0 {
      ModOf(0, 0, 0, n);
    } else {
      LoadExact(rows, k, r, prefix - 1, h);
      HeadsInTurn(rows, k, r, prefix - 1);
      assert rows[..prefix][..prefix - 1] == rows[..prefix - 1];
      StepOfDivision(prefix - 1, n);
    }
  }

  lemma StepOfDivision(x: nat, n: nat)
    requires n > 0
    ensures if x % n + 1 < n then (x + 1) / n == x / n && (x + 1) % n == x % n + 1
            else (x + 1) / n == x / n + 1 && (x + 1) % n == 0
  {
    var q, r := x / n, x % n;
    if r + 1 < n {
      ModOf(x + 1, q, r + 1, n);
    } else {
      assert x + 1 == (q + 1) * n;
      ModOf(x + 1, q + 1, 0, n);
    }
  }

  /** Over any prefix of the rows, no two members of the ring are the head of more than one row more than the other. */
  lemma LoadsBalanced(rows: seq<Row>, k: nat, r: Ring, prefix: nat, g: nat, h: nat)
    requires r.mode == CROWN && r.members != [] && k > 0
    requires k * |r.members| > 0 && InTurn(rows, k * |r.members|) && prefix <= |rows|
    requires g < |r.members| && h < |r.members|
    ensures Load(rows[..prefix], r, g) <= Load(rows[..prefix], r, h) + 1
  {
    LoadExact(rows, k, r, prefix, g);
    LoadExact(rows, k, r, prefix, h);
  }

  /** The default modulus serves the four ring sizes the deployment uses. */
  lemma DefaultModulus(rows: seq<Row>, r: Ring, prefix: nat, i: nat, g: nat, h: nat)
    requires r.mode == CROWN && |r.members| in {3, 5, 7, 9}
    requires InTurn(rows, BALANCE_MODULUS) && i < prefix <= |rows| && g < |r.members| && h < |r.members|
    ensures r.HeadIndex(rows[i].key) == i % |r.members|
    ensures Load(rows[..prefix], r, g) <= Load(rows[..prefix], r, h) + 1
  {
    var k := BALANCE_MODULUS / |r.members|;
    assert k * |r.members| == BALANCE_MODULUS;
    HeadsInTurn(rows, k, r, i);
    LoadsBalanced(rows, k, r, prefix, g, h);
  }
}
