/** Linearizability: the operations on a key, reads at any replica included, can be put in one sequence that respects real
    time and in which every read returns the value of the last write before it. */
module Linearizability {
  import opened Types
  import opened Rings
  import opened Stores
  import opened Handlers
  import opened Clusters
  import opened Views
  import opened Steps
  import opened Invariants
  import opened Members
  import opened AllModes
  import opened Runs
  import opened Reads

  // ---------- accepted writes ----------

  /** The action at index i is a client write that the head of its key accepts with version v. */
  ghost predicate WriteAccepted(states: seq<Cluster>, actions: seq<Action>, i: nat, key: Key, v: nat) {
    && i < |actions| && i + 1 < |states|
    && actions[i].ClientPut? && actions[i].req.key == key
    && |Hist(states[i], key)| + 1 == |Hist(states[i + 1], key)| == v
  }

  lemma WriteSize(states: seq<Cluster>, actions: seq<Action>, i: nat, key: Key, v: nat)
    requires WriteAccepted(states, actions, i, key, v)
    ensures i < |actions| && i + 1 < |states| && |Hist(states[i + 1], key)| == v == |Hist(states[i], key)| + 1
    ensures actions[i].ClientPut?
  {
  }

  lemma HistoryGrows(c: Cluster, d: Cluster, key: Key)
    requires Shape(c) && Shape(d) && Progress(c, d)
    ensures Hist(c, key) <= Hist(d, key)
  {
  }

  /** An accepted write is the last entry of the history right after. */
  lemma AcceptedWrite(states: seq<Cluster>, actions: seq<Action>, i: nat, key: Key, v: nat)
    requires GoodRun(states, actions) && WriteAccepted(states, actions, i, key, v)
    ensures Hist(states[i + 1], key) == Hist(states[i], key) + [WriteOf(actions[i].req)]
  {
    hide HandlePut;
    assert Enabled(states[i], actions[i]) && states[i + 1] == Apply(states[i], actions[i]);
  }

  /** What is accepted carried at least the epoch in force: a client that knows only an older membership is turned away. */
  lemma AcceptedInEpoch(states: seq<Cluster>, actions: seq<Action>, i: nat, key: Key, v: nat)
    requires GoodRun(states, actions) && WriteAccepted(states, actions, i, key, v)
    ensures i < |actions| && i < |states| && actions[i].ClientPut? && actions[i].req.epoch >= states[i].ring.epoch
  {
    hide HandlePut;
    assert Enabled(states[i], actions[i]) && states[i + 1] == Apply(states[i], actions[i]);
  }

  /** No two accepted writes of a key get the same version, whether their commit is ever noticed or not. */
  lemma AcceptedOnce(states: seq<Cluster>, actions: seq<Action>, i: nat, j: nat, key: Key, v: nat)
    requires GoodRun(states, actions)
    requires WriteAccepted(states, actions, i, key, v) && WriteAccepted(states, actions, j, key, v)
    ensures i == j
  {
    hide Sound, WriteAccepted, Run, Init;
    WriteSize(states, actions, i, key, v);
    WriteSize(states, actions, j, key, v);
    if i < j {
      RunIsSound(states, actions, i + 1, j);
      HistoryGrows(states[i + 1], states[j], key);
    } else if j < i {
      RunIsSound(states, actions, j + 1, i);
      HistoryGrows(states[j + 1], states[i], key);
    }
  }

  lemma HistoryStep(c: Cluster, a: Action, key: Key)
    requires Enabled(c, a)
    ensures |Hist(Apply(c, a), key)| <= |Hist(c, key)| + 1
    ensures |Hist(Apply(c, a), key)| > |Hist(c, key)| ==> a.ClientPut? && a.req.key == key
  {
    if FixedRing(a) {
      FixedHistoryStep(c, a, key);
    } else {
      hide Settled, MayGo, ReforwardAll, Fresh, EntrantsReady, AllPending;
      if a.Switch? {
        ReforwardAllHistory(Install(c, a.ring, a.dumps), a.resend);
      } else {
        ReforwardAllHistory(Install(c, Shrunk(c.ring, a.seat, a.epoch), map[]), a.resend);
      }
    }
  }

  lemma FixedHistoryStep(c: Cluster, a: Action, key: Key)
    requires Enabled(c, a) && FixedRing(a)
    ensures |Hist(Apply(c, a), key)| <= |Hist(c, key)| + 1
    ensures |Hist(Apply(c, a), key)| > |Hist(c, key)| ==> a.ClientPut? && a.req.key == key
  {
    hide HandlePut, HandleAck, RetryOne, Fresh, Settled, MayGo, ReforwardAll, Install;
  }

  lemma {:induction false} ReforwardAllHistory(c: Cluster, resend: seq<Resend>)
    ensures ReforwardAll(c, resend).hist == c.hist
  {
    if resend != [] { ReforwardAllHistory(c, resend[..|resend| - 1]); }
  }

  /** Every version of the history was accepted by some action of the run. */
  lemma {:induction false} VersionWasAccepted(states: seq<Cluster>, actions: seq<Action>, j: nat, key: Key, v: nat)
    returns (i: nat)
    requires GoodRun(states, actions) && j < |states| && 1 <= v <= |Hist(states[j], key)|
    ensures i < j && WriteAccepted(states, actions, i, key, v)
    decreases j
  {
    hide Apply, Enabled;
    if v <= |Hist(states[j - 1], key)| {
      i := VersionWasAccepted(states, actions, j - 1, key, v);
    } else {
      assert Enabled(states[j - 1], actions[j - 1]) && states[j] == Apply(states[j - 1], actions[j - 1]);
      HistoryStep(states[j - 1], actions[j - 1], key);
      i := j - 1;
    }
  }

  /** Whatever a read returns was written: a client write of exactly this value was accepted with exactly this
      version before the read ended. */
  lemma ReadHasItsWrite(states: seq<Cluster>, actions: seq<Action>, a: nat, b: nat, e: nat,
                        x: NodeId, key: Key, value: Value, v: nat) returns (i: nat)
    requires GoodRun(states, actions) && ReadHappens(states, a, b, e, x, key, Found(value, v))
    ensures i < e && WriteAccepted(states, actions, i, key, v) && actions[i].req.value == value
  {
    hide Sound, ReadHappens, Run, Init, WriteAccepted, Shape;
    ReadReturnsCommitted(states, actions, a, b, e, x, key, Found(value, v));
    ReadInterval(states, a, b, e, x, key, Found(value, v));
    i := VersionWasAccepted(states, actions, e, key, v);
    AcceptedWrite(states, actions, i, key, v);
    WriteSize(states, actions, i, key, v);
    RunIsSound(states, actions, i + 1, e);
    HistoryGrows(states[i + 1], states[e], key);
  }

  lemma ReadInterval(states: seq<Cluster>, a: nat, b: nat, e: nat, x: NodeId, key: Key, result: GetResponse)
    requires ReadHappens(states, a, b, e, x, key, result)
    ensures a <= b <= e < |states|
  {
  }

  // ---------- operations ----------

  /** An operation on one key, with the states in which it starts and ends. A read that found nothing has version 0. */
  datatype Op =
    | WriteOp(start: nat, end: nat, version: nat)
    | ReadOp(start: nat, end: nat, version: nat, value: Option<Value>)

  /** The operation took place in the run. A write starts with its acceptance and ends when its commit notice is
      on its way; one that is not noticed in the run ends after its last state. A read starts with its local check and
      ends with its answer. */
  ghost predicate Happens(states: seq<Cluster>, actions: seq<Action>, key: Key, op: Op) {
    match op
    case WriteOp(start, end, v) =>
      && start < end <= |states| && WriteAccepted(states, actions, start, key, v)
      && (end < |states| ==> Noticed(states[end], key, v))
    case ReadOp(start, end, v, value) =>
      (value.None? ==> v == 0) && exists b: nat, x :: ReadHappens(states, start, b, end, x, key, ReadResult(v, value))
  }

  function ReadResult(v: nat, value: Option<Value>): GetResponse {
    if value.None? then GetError(NotFound) else Found(value.value, v)
  }

  /** The place of an operation in the sequential order: writes by version, each read right after the write it
      returns. */
  predicate Before(p: Op, q: Op) {
    p.version < q.version || (p.version == q.version && p.WriteOp? && q.ReadOp?)
  }

  lemma WriteBounds(states: seq<Cluster>, actions: seq<Action>, key: Key, op: Op)
    requires GoodRun(states, actions) && Happens(states, actions, key, op) && op.WriteOp?
    ensures op.start < op.end <= |states| && Shape(states[op.start])
    ensures op.version == |Hist(states[op.start], key)| + 1
    ensures op.end < |states| ==> Shape(states[op.end]) && op.version <= TailVersion(states[op.end], key)
  {
    hide Sound, CleanVersion, TailVersion, Run, Init, Noticed, Shape;
    WriteSize(states, actions, op.start, key, op.version);
    RunIsSound(states, actions, op.start, op.start);
    if op.end < |states| {
      RunIsSound(states, actions, op.end, op.end);
      SoundParts(states[op.end]);
      NoticeIsEarned(states[op.end], key, op.version);
    }
  }

  lemma ReadBounds(states: seq<Cluster>, actions: seq<Action>, key: Key, op: Op)
    requires GoodRun(states, actions) && Happens(states, actions, key, op) && op.ReadOp?
    ensures op.start <= op.end < |states| && Shape(states[op.start]) && Shape(states[op.end])
    ensures TailVersion(states[op.start], key) <= op.version <= TailVersion(states[op.end], key)
    ensures op.value.Some? ==> IsWrite(states[op.end], key, op.value.value, op.version)
    ensures op.value.None? ==> op.version == 0
  {
    hide Sound, CleanVersion, TailVersion, Run, Init, ReadHappens, Shape;
    var result := ReadResult(op.version, op.value);
    var b: nat, x :| ReadHappens(states, op.start, b, op.end, x, key, result);
    ReadInterval(states, op.start, b, op.end, x, key, result);
    ReadReturnsCommitted(states, actions, op.start, b, op.end, x, key, result);
  }

  lemma CommittedInRun(states: seq<Cluster>, actions: seq<Action>, i: nat, key: Key)
    requires GoodRun(states, actions) && i < |states|
    ensures Shape(states[i]) && TailVersion(states[i], key) <= |Hist(states[i], key)|
  {
    hide Sound;
    RunIsSound(states, actions, i, i);
    SoundParts(states[i]);
    CommittedIsAccepted(states[i], key);
  }

  /** The sequential order respects real time: an operation that ended before another started never comes after
      it. Reads may be served by different replicas, in any mode, before, after or across reconfigurations. */
  lemma RealTimeOrder(states: seq<Cluster>, actions: seq<Action>, key: Key, p: Op, q: Op)
    requires GoodRun(states, actions) && Happens(states, actions, key, p) && Happens(states, actions, key, q)
    requires p.end <= q.start
    ensures !Before(q, p)
    ensures q.WriteOp? ==> Before(p, q)
  {
    hide Sound, TailVersion, Run, Init, Happens, Shape, Hist;
    if p.WriteOp? { WriteBounds(states, actions, key, p); } else { ReadBounds(states, actions, key, p); }
    if q.WriteOp? { WriteBounds(states, actions, key, q); } else { ReadBounds(states, actions, key, q); }
    RunIsSound(states, actions, p.end, q.start);
    CommittedInRun(states, actions, q.start, key);
    assert TailVersion(states[p.end], key) <= TailVersion(states[q.start], key);
  }

  /** The sequential order is legal for a register: a read that has the version of a write returns its value, after the
      write was accepted, and no two writes share a version. */
  lemma OrderIsLegal(states: seq<Cluster>, actions: seq<Action>, key: Key, p: Op, q: Op)
    requires GoodRun(states, actions) && Happens(states, actions, key, p) && Happens(states, actions, key, q)
    requires p.WriteOp? && p.version == q.version
    ensures q.WriteOp? ==> p.start == q.start
    ensures q.ReadOp? ==> p.start < q.end && p.start < |actions| && actions[p.start].ClientPut?
    ensures q.ReadOp? ==> q.value == Some(actions[p.start].req.value)
  {
    hide Sound, ReadHappens, WriteAccepted, Run, Init, TailVersion, Noticed;
    WriteSize(states, actions, p.start, key, p.version);
    if q.WriteOp? {
      AcceptedOnce(states, actions, p.start, q.start, key, p.version);
    } else {
      ReadBounds(states, actions, key, q);
      AcceptedWrite(states, actions, p.start, key, p.version);
      WriteThenRead(states, actions, key, p, q);
    }
  }

  lemma WriteThenRead(states: seq<Cluster>, actions: seq<Action>, key: Key, p: Op, q: Op)
    requires GoodRun(states, actions) && p.start + 1 < |states| && q.ReadOp? && q.end < |states| && p.version == q.version
    requires |Hist(states[p.start + 1], key)| == p.version == |Hist(states[p.start], key)| + 1
    requires q.value.None? ==> q.version == 0
    requires q.value.Some? ==> IsWrite(states[q.end], key, q.value.value, q.version)
    ensures q.value.Some? && p.start < q.end
    ensures IsWrite(states[p.start + 1], key, q.value.value, q.version)
  {
    hide Sound, GoodRun;
    if q.end <= p.start {
      RunIsSound(states, actions, q.end, p.start);
      HistoryGrows(states[q.end], states[p.start], key);
    } else {
      RunIsSound(states, actions, p.start + 1, q.end);
      HistoryGrows(states[p.start + 1], states[q.end], key);
    }
  }

  // ---------- one sequence ----------

  /** The order of the sequence, made total: by version, writes first, then by time. */
  predicate Leq(p: Op, q: Op) {
    if p.version != q.version then p.version < q.version
    else if p.WriteOp? != q.WriteOp? then p.WriteOp?
    else if p.start != q.start then p.start < q.start
    else p.end <= q.end
  }

  ghost predicate Sorted(line: seq<Op>) {
    forall i, j :: 0 <= i < j < |line| ==> Leq(line[i], line[j])
  }

  function Insert(op: Op, line: seq<Op>): seq<Op> {
    if line == [] || Leq(op, line[0]) then [op] + line else [line[0]] + Insert(op, line[1..])
  }

  function Sort(ops: seq<Op>): seq<Op> {
    if ops == [] then [] else Insert(ops[0], Sort(ops[1..]))
  }

  lemma {:induction false} InsertContents(op: Op, line: seq<Op>)
    ensures multiset(Insert(op, line)) == multiset(line) + multiset{op}
    ensures forall p :: p in Insert(op, line) <==> p == op || p in line
  {
    if line == [] || Leq(op, line[0]) {
    } else {
      InsertContents(op, line[1..]);
      assert line == [line[0]] + line[1..];
    }
  }

  lemma {:induction false} InsertKeeps(op: Op, line: seq<Op>)
    requires Sorted(line)
    ensures Sorted(Insert(op, line))
  {
    if line == [] || Leq(op, line[0]) {
      forall j | 0 <= j < |line| ensures Leq(op, line[j]) { assert j == 0 || Leq(line[0], line[j]); }
    } else {
      InsertKeeps(op, line[1..]);
      InsertContents(op, line[1..]);
      var rest := Insert(op, line[1..]);
      forall j | 0 <= j < |rest| ensures Leq(line[0], rest[j]) {
        assert rest[j] == op || rest[j] in line[1..];
      }
    }
  }

  lemma {:induction false} SortSorts(ops: seq<Op>)
    ensures Sorted(Sort(ops)) && multiset(Sort(ops)) == multiset(ops)
    ensures forall p :: p in Sort(ops) <==> p in ops
  {
    if ops != [] {
      SortSorts(ops[1..]);
      InsertKeeps(ops[0], Sort(ops[1..]));
      InsertContents(ops[0], Sort(ops[1..]));
      assert ops == [ops[0]] + ops[1..];
    }
  }

  /** No write occurs twice. */
  ghost predicate WritesOnce(ops: seq<Op>) {
    forall i, j :: 0 <= i < j < |ops| && ops[i].WriteOp? && ops[j].WriteOp? ==> ops[i].version != ops[j].version
  }

  predicate NewWrite(op: Op, ops: seq<Op>) {
    op.WriteOp? ==> forall p :: p in ops && p.WriteOp? ==> p.version != op.version
  }

  lemma {:induction false} InsertKeepsOnce(op: Op, line: seq<Op>)
    requires WritesOnce(line) && NewWrite(op, line)
    ensures WritesOnce(Insert(op, line))
  {
    if line == [] || Leq(op, line[0]) {
    } else {
      InsertKeepsOnce(op, line[1..]);
      InsertContents(op, line[1..]);
      var rest := Insert(op, line[1..]);
      forall j | 0 <= j < |rest| && line[0].WriteOp? && rest[j].WriteOp? ensures rest[j].version != line[0].version {
        assert rest[j] == op || rest[j] in line[1..];
      }
    }
  }

  lemma {:induction false} SortKeepsOnce(ops: seq<Op>)
    requires WritesOnce(ops)
    ensures WritesOnce(Sort(ops))
  {
    if ops != [] {
      SortKeepsOnce(ops[1..]);
      SortSorts(ops[1..]);
      InsertKeepsOnce(ops[0], Sort(ops[1..]));
    }
  }

  /** The first operation was over when the second started, and not the other way round. */
  predicate Earlier(p: Op, q: Op) {
    p.end <= q.start && !(q.end <= p.start)
  }

  /** The value of the register after a sequence of operations. */
  function Register(actions: seq<Action>, line: seq<Op>): Option<Value> {
    if line == [] then None
    else
      var last := line[|line| - 1];
      if last.WriteOp? && last.start < |actions| && actions[last.start].ClientPut? then Some(actions[last.start].req.value)
      else Register(actions, line[..|line| - 1])
  }

  ghost predicate RespectsTime(line: seq<Op>) {
    forall i, j :: 0 <= i < j < |line| ==> !Earlier(line[j], line[i])
  }

  /** Every read returns what the register holds at its place. */
  ghost predicate Legal(actions: seq<Action>, line: seq<Op>) {
    forall j :: 0 <= j < |line| && line[j].ReadOp? ==> line[j].value == Register(actions, line[..j])
  }

  ghost predicate AllHappen(states: seq<Cluster>, actions: seq<Action>, key: Key, ops: seq<Op>) {
    forall op :: op in ops ==> Happens(states, actions, key, op)
  }

  /** Every read that found something comes with the write of its version. */
  ghost predicate Closed(ops: seq<Op>) {
    forall r :: r in ops && r.ReadOp? && r.value.Some? ==> HasWrite(ops, r.version)
  }

  ghost predicate HasWrite(ops: seq<Op>, v: nat) {
    exists w :: w in ops && w.WriteOp? && w.version == v
  }

  lemma SortedRespectsTime(states: seq<Cluster>, actions: seq<Action>, key: Key, line: seq<Op>)
    requires GoodRun(states, actions) && AllHappen(states, actions, key, line) && Sorted(line)
    ensures RespectsTime(line)
  {
    hide GoodRun, Happens;
    forall i, j | 0 <= i < j < |line| ensures !Earlier(line[j], line[i]) {
      var p, q := line[i], line[j];
      if q.end <= p.start {
        RealTimeOrder(states, actions, key, q, p);
        if q.ReadOp? { ReadBounds(states, actions, key, q); }
      }
    }
  }

  /** The last write of a sequence decides the register. */
  lemma {:induction false} LastWrite(states: seq<Cluster>, actions: seq<Action>, key: Key, line: seq<Op>) returns (w: int)
    requires AllHappen(states, actions, key, line)
    ensures -1 <= w < |line| && forall k :: w < k < |line| ==> line[k].ReadOp?
    ensures w == -1 ==> Register(actions, line) == None
    ensures w >= 0 ==> line[w].WriteOp? && line[w].start < |actions| && actions[line[w].start].ClientPut?
    ensures w >= 0 ==> Register(actions, line) == Some(actions[line[w].start].req.value)
  {
    hide ReadHappens, Noticed;
    if line == [] {
      w := -1;
    } else {
      var n := |line| - 1;
      assert Happens(states, actions, key, line[n]);
      if line[n].WriteOp? {
        w := n;
      } else {
        forall op | op in line[..n] ensures Happens(states, actions, key, op) { assert op in line; }
        w := LastWrite(states, actions, key, line[..n]);
      }
    }
  }

  lemma ReadIsLegal(states: seq<Cluster>, actions: seq<Action>, key: Key, line: seq<Op>, j: nat)
    requires GoodRun(states, actions) && AllHappen(states, actions, key, line) && Sorted(line) && Closed(line)
    requires j < |line| && line[j].ReadOp?
    ensures line[j].value == Register(actions, line[..j])
  {
    hide GoodRun, Happens, Register;
    var r := line[j];
    assert r in line;
    forall op | op in line[..j] ensures Happens(states, actions, key, op) { assert op in line; }
    var w := LastWrite(states, actions, key, line[..j]);
    ReadBounds(states, actions, key, r);
    if w >= 0 {
      assert line[w] in line && Leq(line[w], r);
      WriteBounds(states, actions, key, line[w]);
    }
    if r.value.Some? {
      assert HasWrite(line, r.version);
      var op :| op in line && op.WriteOp? && op.version == r.version;
      var k :| 0 <= k < |line| && line[k] == op;
      assert k > j ==> Leq(line[j], line[k]);
      assert k < j && line[..j][k] == op;
      assert w == k || Leq(line[k], line[w]);
      OrderIsLegal(states, actions, key, line[w], r);
    }
  }

  /** The writes that reads depend on and that are missing can be added. */
  lemma {:induction false} AddWrites(states: seq<Cluster>, actions: seq<Action>, key: Key, ops: seq<Op>, todo: seq<Op>)
    returns (extra: seq<Op>)
    requires GoodRun(states, actions) && AllHappen(states, actions, key, ops) && forall op :: op in todo ==> op in ops
    requires WritesOnce(ops)
    ensures AllHappen(states, actions, key, ops + extra) && WritesOnce(ops + extra)
    ensures forall op :: op in extra ==> op.WriteOp? && op.end == |states|
    ensures forall r :: r in todo && r.ReadOp? && r.value.Some? ==> HasWrite(ops + extra, r.version)
  {
    hide GoodRun, ReadHappens, WriteAccepted, Noticed, WritesOnce;
    if todo == [] {
      extra := [];
      assert ops + extra == ops;
    } else {
      var r := todo[0];
      var rest := AddWrites(states, actions, key, ops, todo[1..]);
      extra := rest;
      if r.ReadOp? && r.value.Some? && !HasWrite(ops + rest, r.version) {
        ReadBounds(states, actions, key, r);
        var i := VersionWasAccepted(states, actions, r.end, key, r.version);
        var w := WriteOp(i, |states|, r.version);
        extra := rest + [w];
        assert ops + extra == ops + rest + [w];
        assert Happens(states, actions, key, w);
        AddedOnce(ops + rest, w);
        assert w in ops + extra;
      }
      forall q | q in todo && q.ReadOp? && q.value.Some? ensures HasWrite(ops + extra, q.version) {
        if q != r || extra == rest {
          assert q in todo[1..] || q == r;
          var u :| u in ops + rest && u.WriteOp? && u.version == q.version;
          assert u in ops + extra;
        }
      }
    }
  }

  lemma AddedOnce(ops: seq<Op>, w: Op)
    requires WritesOnce(ops) && w.WriteOp? && !HasWrite(ops, w.version)
    ensures WritesOnce(ops + [w])
  {
    forall i | 0 <= i < |ops| && ops[i].WriteOp? ensures ops[i].version != w.version { assert ops[i] in ops; }
  }

  /** Linearizability, in all three modes and across reconfigurations, for any finite collection of operations of a run in
      which no write is listed twice. Together with some accepted writes that are not noticed within the run, they form one
      sequence that contains every write once, respects real time, and in which every read returns the value of the last
      write before it. */
  lemma RunsAreLinearizable(states: seq<Cluster>, actions: seq<Action>, key: Key, ops: seq<Op>)
    returns (line: seq<Op>, extra: seq<Op>)
    requires GoodRun(states, actions) && AllHappen(states, actions, key, ops) && WritesOnce(ops)
    ensures multiset(line) == multiset(ops) + multiset(extra)
    ensures AllHappen(states, actions, key, line) && WritesOnce(line)
    ensures forall op :: op in extra ==> op.WriteOp? && op.end == |states|
    ensures RespectsTime(line) && Legal(actions, line)
  {
    hide GoodRun, Happens, Register, WritesOnce;
    extra := AddWrites(states, actions, key, ops, ops);
    var all := ops + extra;
    forall r | r in all && r.ReadOp? && r.value.Some? ensures HasWrite(all, r.version) {
      assert r in ops;
    }
    SortSorts(all);
    SortKeepsOnce(all);
    line := Sort(all);
    assert multiset(all) == multiset(ops) + multiset(extra);
    forall r | r in line && r.ReadOp? && r.value.Some? ensures HasWrite(line, r.version) {
      assert HasWrite(all, r.version);
    }
    SortedRespectsTime(states, actions, key, line);
    forall j | 0 <= j < |line| && line[j].ReadOp? ensures line[j].value == Register(actions, line[..j]) {
      ReadIsLegal(states, actions, key, line, j);
    }
  }
}
