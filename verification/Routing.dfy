/** Which node a client sends a request to, and that this node does not turn it away. */
module Routing {
  import opened Types
  import opened Rings
  import opened Stores
  import opened Handlers
  import opened Dataset

  /** The seat a client picks for a write, from the hash of the key only in CROWN mode; -1 without members. */
  function SelectWriteNode(r: Ring, key: Key): int {
    if r.members == [] then -1
    else if r.mode == CHAIN || r.mode == CRAQ then 0
    else Fnv(key) % |r.members|
  }

  /** The seat a client picks for a read: the last one in CHAIN mode, else a seat chosen by the hash. */
  function SelectReadNode(r: Ring, key: Key): int {
    if r.members == [] then -1
    else if r.mode == CHAIN then |r.members| - 1
    else Fnv(key) % |r.members|
  }

  /** A client that knows the ring of the server sends its writes to exactly the member that accepts them, in all
      three modes; every other member names that member in its refusal. */
  lemma WritesReachTheHead(r: Ring, i: nat, local: Local, req: PutRequest)
    requires i < |r.members| && req.version == 0
    ensures var response := HandlePut(r, i, local, req).response;
      var selected := SelectWriteNode(r, req.key);
      && 0 <= selected < |r.members|
      && (i == selected <==> response.PutOk?)
      && (i != selected <==> response == PutError(WrongNode(Some(r.members[selected]))))
  {
    hide LatestVersion, PutNext, MarkClean, Forward;
  }

  /** ... and its reads to a member that serves them: the only one in CHAIN mode, one of all in the others. */
  lemma ReadsAreServed(r: Ring, i: nat, s: Store, key: Key)
    requires i < |r.members|
    ensures 0 <= SelectReadNode(r, key) < |r.members|
    ensures (exists to :: BeginGet(r, i, s, key) == Done(GetError(WrongNode(to)))) <==>
            r.mode == CHAIN && i != SelectReadNode(r, key)
    ensures BeginGet(r, i, s, key) != Done(GetError(NoMembership))
  {
    hide LatestVersion;
  }

  // ---------- the reads of a generated dataset ----------

  /** How many of the first rows a client reads at seat h. */
  function ReadLoad(rows: seq<Row>, r: Ring, h: nat): nat {
    if rows == [] then 0
    else ReadLoad(rows[..|rows| - 1], r, h) + if SelectReadNode(r, rows[|rows| - 1].key) == h then 1 else 0
  }

  /** Reads go where the heads would be in CROWN mode. */
  lemma {:induction false} ReadsFollowHeads(rows: seq<Row>, r: Ring, h: nat)
    requires r.mode != CHAIN && r.members != []
    ensures ReadLoad(rows, r, h) == Load(rows, r.(mode := CROWN), h)
  {
    if rows != [] { ReadsFollowHeads(rows[..|rows| - 1], r, h); }
  }

  /** The reads of generated rows go around the ring, in CRAQ and CROWN mode alike: row i is read at seat i mod n, and over any
      prefix of the rows no seat is read more than once more often than another. */
  lemma ReadsSpread(rows: seq<Row>, k: nat, r: Ring, prefix: nat, i: nat, h: nat)
    requires r.mode != CHAIN && r.members != [] && k > 0
    requires k * |r.members| > 0 && InTurn(rows, k * |r.members|) && i < prefix <= |rows| && h < |r.members|
    ensures SelectReadNode(r, rows[i].key) == i % |r.members|
    ensures ReadLoad(rows[..prefix], r, h) == prefix / |r.members| + if h < prefix % |r.members| then 1 else 0
  {
    var crown := r.(mode := CROWN);
    HeadsInTurn(rows, k, crown, i);
    LoadExact(rows, k, crown, prefix, h);
    ReadsFollowHeads(rows[..prefix], r, h);
  }
}
