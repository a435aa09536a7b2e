/** One key seen along its chain: position 0 is the head, the last position the tail.
    Only version numbers are kept. A slot records what a replica holds and what is on its way to it. */
module Lines {
  import Types

  datatype Slot = Slot(cv: nat, dirty: set<nat>, pend: set<nat>, fwd: set<nat>, ack: set<nat>)

  /** `latest` counts the versions the head has handed out, `commits` the commit notices in flight. */
  datatype Line = Line(latest: nat, slots: seq<Slot>, commits: set<nat>)

  /** The replica has version v, as a dirty record or under an equal or newer clean one. */
  predicate Holds(s: Slot, v: nat) {
    v in s.dirty || v <= s.cv
  }

  /** The effect on one slot of marking version v clean. */
  function Clean(s: Slot, v: nat): Slot {
    var kept := set w | w in s.dirty && w > v;
    s.(dirty := kept, cv := if v in s.dirty && v > s.cv then v else s.cv)
  }

  /** Only versions the head has handed out are ever named. */
  ghost predicate Bounded(l: Line) {
    && (forall p, v :: 0 <= p < |l.slots| && v in l.slots[p].dirty ==> 1 <= v <= l.latest)
    && (forall p, v :: 0 <= p < |l.slots| && v in l.slots[p].pend ==> 1 <= v <= l.latest)
    && (forall p, v :: 0 <= p < |l.slots| && v in l.slots[p].fwd ==> 1 <= v <= l.latest)
    && (forall p, v :: 0 <= p < |l.slots| && v in l.slots[p].ack ==> 1 <= v <= l.latest)
  }

  /** A dirty version is newer than the clean one, and pending. */
  ghost predicate DirtyAbove(l: Line) {
    forall p, v :: 0 <= p < |l.slots| && v in l.slots[p].dirty ==> v > l.slots[p].cv && v in l.slots[p].pend
  }

  /** The head has kept every version it ever handed out. */
  ghost predicate HeadComplete(l: Line)
    requires |l.slots| >= 1
  {
    && (forall v :: 1 <= v <= l.latest ==> Holds(l.slots[0], v))
    && (forall p :: 0 <= p < |l.slots| ==> l.slots[p].cv <= l.latest)
  }

  /** Clean versions never fall along the chain, and a clean version is held by every earlier replica. */
  ghost predicate Ordered(l: Line) {
    && (forall q, p :: 0 <= q < p < |l.slots| ==> l.slots[q].cv <= l.slots[p].cv)
    && (forall q, p {:trigger Holds(l.slots[q], l.slots[p].cv)} :: 0 <= q < p < |l.slots| ==>
          Holds(l.slots[q], l.slots[p].cv))
  }

  /** A version pending at p, or on its way to p, is held by every earlier replica. */
  ghost predicate Supported(l: Line) {
    && (forall q, p, v {:trigger Holds(l.slots[q], v), v in l.slots[p].pend} ::
          0 <= q <= p < |l.slots| && v in l.slots[p].pend ==> Holds(l.slots[q], v))
    && (forall q, p, v {:trigger Holds(l.slots[q], v), v in l.slots[p].fwd} ::
          0 <= q < p < |l.slots| && v in l.slots[p].fwd ==> Holds(l.slots[q], v))
  }

  /** An acknowledgement says that everything further down the chain is clean. */
  ghost predicate AcksEarned(l: Line)
    requires |l.slots| >= 1
  {
    && (forall p, q, v :: 0 <= p < q < |l.slots| && v in l.slots[p].ack ==> v <= l.slots[q].cv)
    && (forall v :: v in l.commits ==> v <= l.slots[|l.slots| - 1].cv)
  }

  ghost predicate Inv(l: Line) {
    && |l.slots| >= 1
    && Bounded(l)
    && DirtyAbove(l)
    && HeadComplete(l)
    && Ordered(l)
    && Supported(l)
    && AcksEarned(l)
  }

  /** Same replicas, and nothing in flight that was not in flight in m: loss of messages. */
  ghost predicate Within(l: Line, m: Line) {
    && l.latest == m.latest
    && |l.slots| == |m.slots|
    && l.commits <= m.commits
    && forall p :: 0 <= p < |l.slots| ==>
      && l.slots[p].cv == m.slots[p].cv
      && l.slots[p].dirty == m.slots[p].dirty
      && l.slots[p].pend == m.slots[p].pend
      && l.slots[p].fwd <= m.slots[p].fwd
      && l.slots[p].ack <= m.slots[p].ack
  }

  // ---------- steps ----------

  function AddFwd(l: Line, p: nat, v: nat): Line
    requires p < |l.slots|
  {
    l.(slots := l.slots[p := l.slots[p].(fwd := l.slots[p].fwd + {v})])
  }

  function AddAck(l: Line, p: nat, v: nat): Line
    requires p < |l.slots|
  {
    l.(slots := l.slots[p := l.slots[p].(ack := l.slots[p].ack + {v})])
  }

  function AddCommit(l: Line, v: nat): Line {
    l.(commits := l.commits + {v})
  }

  /** The store part of a forwarded write: a stale version is not stored. */
  function Stage(s: Slot, v: nat): Slot {
    if v <= s.cv then s else s.(dirty := s.dirty + {v})
  }

  function StageAt(l: Line, p: nat, v: nat): Line
    requires p < |l.slots|
  {
    l.(slots := l.slots[p := Stage(l.slots[p], v).(pend := l.slots[p].pend + {v})])
  }

  function CommitAt(l: Line, p: nat, v: nat): Line
    requires p < |l.slots|
  {
    l.(slots := l.slots[p := if v <= l.slots[p].cv then l.slots[p] else Clean(Stage(l.slots[p], v), v)])
  }

  function CleanAt(l: Line, p: nat, v: nat): Line
    requires p < |l.slots|
  {
    l.(slots := l.slots[p := Clean(l.slots[p], v).(pend := l.slots[p].pend - {v})])
  }

  /** The head hands out the next version; alone on the ring it commits it at once. */
  function Assign(l: Line): Line
    requires |l.slots| >= 1
  {
    var s := l.slots[0];
    var v := l.latest + 1;
    if |l.slots| == 1 then
      l.(latest := v, slots := [Clean(s.(dirty := s.dirty + {v}), v)])
    else
      l.(latest := v, slots := l.slots[0 := s.(dirty := s.dirty + {v}, pend := s.pend + {v})])
  }

  /** A client write at the head. */
  function Put(l: Line): Line
    requires |l.slots| >= 1
  {
    var v := l.latest + 1;
    if |l.slots| == 1 then AddCommit(Assign(l), v) else AddFwd(Assign(l), 1, v)
  }

  /** Arrival of a forwarded write. */
  function RecvFwd(l: Line, p: nat, v: nat): Line
    requires p < |l.slots|
  {
    if p == |l.slots| - 1 then
      var m := AddCommit(CommitAt(l, p, v), v);
      if p == 0 then m else AddAck(m, p - 1, v)
    else
      AddFwd(StageAt(l, p, v), p + 1, v)
  }

  /** Arrival of an acknowledgement; it is ignored when nothing is pending for it. */
  function RecvAck(l: Line, p: nat, v: nat): Line
    requires p < |l.slots|
  {
    if v !in l.slots[p].pend then
      l
    else if p == 0 then
      CleanAt(l, p, v)
    else
      AddAck(CleanAt(l, p, v), p - 1, v)
  }

  /** The position after p among n, back to the head after the tail. */
  function Successor(n: nat, p: nat): (q: nat)
    requires p < n
    ensures q < n
  {
    if p + 1 < n then p + 1 else 0
  }

  /** A pending write is sent again. */
  function Resend(l: Line, p: nat, v: nat): Line
    requires p < |l.slots|
  {
    if |l.slots| == 1 then l else AddFwd(l, Successor(|l.slots|, p), v)
  }

  /** Nothing a replica held is forgotten and no clean version falls. */
  ghost predicate Grows(l: Line, m: Line) {
    && l.latest <= m.latest
    && |l.slots| == |m.slots|
    && (forall p :: 0 <= p < |l.slots| ==> l.slots[p].cv <= m.slots[p].cv)
    && (forall p, v {:trigger Holds(m.slots[p], v)} ::
          0 <= p < |l.slots| && Holds(l.slots[p], v) ==> Holds(m.slots[p], v))
  }

  // ---------- the parts of a step keep the invariant and forget nothing ----------

  lemma HeadKeeps(l: Line, m: Line)
    requires |l.slots| >= 1 && HeadComplete(l) && Grows(l, m) && l.latest == m.latest
    requires forall p :: 0 <= p < |m.slots| ==> m.slots[p].cv <= m.latest
    ensures HeadComplete(m)
  {
    forall v | 1 <= v <= m.latest ensures Holds(m.slots[0], v) { assert Holds(l.slots[0], v); }
  }

  lemma GrowsTransitive(l: Line, m: Line, n: Line)
    requires Grows(l, m) && Grows(m, n)
    ensures Grows(l, n)
  {
  }

  lemma OrderKeeps(l: Line, m: Line)
    requires Ordered(l) && Grows(l, m)
    requires forall p :: 0 <= p < |m.slots| ==> m.slots[p].cv == l.slots[p].cv
    ensures Ordered(m)
  {
    forall q, p | 0 <= q < p < |m.slots|
      ensures m.slots[q].cv <= m.slots[p].cv && Holds(m.slots[q], m.slots[p].cv)
    {
      assert Holds(l.slots[q], l.slots[p].cv);
    }
  }

  lemma SupportKeeps(l: Line, m: Line)
    requires Supported(l) && Grows(l, m)
    requires forall p :: 0 <= p < |m.slots| ==> m.slots[p].pend <= l.slots[p].pend && m.slots[p].fwd <= l.slots[p].fwd
    ensures Supported(m)
  {
  }

  lemma AcksKeep(l: Line, m: Line)
    requires |l.slots| >= 1 && AcksEarned(l) && Grows(l, m)
    requires m.commits <= l.commits && forall p :: 0 <= p < |m.slots| ==> m.slots[p].ack <= l.slots[p].ack
    ensures AcksEarned(m)
  {
  }

  lemma BoundsKeep(l: Line, m: Line)
    requires Bounded(l) && |l.slots| == |m.slots| && l.latest <= m.latest
    requires forall p :: 0 <= p < |m.slots| ==>
      && m.slots[p].dirty <= l.slots[p].dirty && m.slots[p].pend <= l.slots[p].pend
      && m.slots[p].fwd <= l.slots[p].fwd && m.slots[p].ack <= l.slots[p].ack
    ensures Bounded(m)
  {
  }

  // ---------- messages come and go ----------

  /** The replicas themselves hold the same. */
  predicate SameCores(l: Line, m: Line) {
    && l.latest == m.latest
    && |l.slots| == |m.slots|
    && forall p :: 0 <= p < |l.slots| ==>
      l.slots[p].cv == m.slots[p].cv && l.slots[p].dirty == m.slots[p].dirty && l.slots[p].pend == m.slots[p].pend
  }

  /** A forwarded write that may be on its way to p. */
  ghost predicate MaySend(l: Line, p: nat, v: nat)
    requires p < |l.slots|
  {
    1 <= v <= l.latest && forall q :: 0 <= q < p ==> Holds(l.slots[q], v)
  }

  /** An acknowledgement that may be on its way to p. */
  ghost predicate MayAck(l: Line, p: nat, v: nat)
    requires p < |l.slots|
  {
    1 <= v <= l.latest && forall q :: p < q < |l.slots| ==> v <= l.slots[q].cv
  }

  lemma CoresKeep(l: Line, m: Line)
    requires Inv(l) && SameCores(l, m)
    ensures Grows(l, m) && DirtyAbove(m) && HeadComplete(m) && Ordered(m)
  {
    HeadKeeps(l, m);
    OrderKeeps(l, m);
  }

  /** Messages may be lost, and messages that are earned may be added. */
  lemma TrafficKeepsInv(l: Line, m: Line)
    requires Inv(l) && SameCores(l, m)
    requires forall p, v :: 0 <= p < |l.slots| && v in m.slots[p].fwd ==> v in l.slots[p].fwd || MaySend(l, p, v)
    requires forall p, v :: 0 <= p < |l.slots| && v in m.slots[p].ack ==> v in l.slots[p].ack || MayAck(l, p, v)
    requires forall v :: v in m.commits ==> v in l.commits || v <= l.slots[|l.slots| - 1].cv
    ensures Inv(m) && Grows(l, m)
  {
    CoresKeep(l, m);
    TrafficSupported(l, m);
    TrafficBounded(l, m);
    TrafficEarned(l, m);
  }

  lemma TrafficSupported(l: Line, m: Line)
    requires Supported(l) && SameCores(l, m)
    requires forall p, v :: 0 <= p < |l.slots| && v in m.slots[p].fwd ==> v in l.slots[p].fwd || MaySend(l, p, v)
    ensures Supported(m)
  {
    forall q, p, v | 0 <= q <= p < |m.slots| && v in m.slots[p].pend ensures Holds(m.slots[q], v) {
      assert Holds(l.slots[q], v);
    }
    forall q, p, v | 0 <= q < p < |m.slots| && v in m.slots[p].fwd ensures Holds(m.slots[q], v) {
      assert Holds(l.slots[q], v);
    }
  }

  lemma TrafficBounded(l: Line, m: Line)
    requires Bounded(l) && SameCores(l, m)
    requires forall p, v :: 0 <= p < |l.slots| && v in m.slots[p].fwd ==> v in l.slots[p].fwd || MaySend(l, p, v)
    requires forall p, v :: 0 <= p < |l.slots| && v in m.slots[p].ack ==> v in l.slots[p].ack || MayAck(l, p, v)
    ensures Bounded(m)
  {
  }

  lemma TrafficEarned(l: Line, m: Line)
    requires |l.slots| >= 1 && AcksEarned(l) && SameCores(l, m)
    requires forall p, v :: 0 <= p < |l.slots| && v in m.slots[p].ack ==> v in l.slots[p].ack || MayAck(l, p, v)
    requires forall v :: v in m.commits ==> v in l.commits || v <= l.slots[|l.slots| - 1].cv
    ensures AcksEarned(m)
  {
  }

  lemma WithinKeepsInv(l: Line, m: Line)
    requires Inv(m) && Within(l, m)
    ensures Inv(l) && Grows(m, l)
  {
    hide Inv, Grows, MaySend, MayAck;
    TrafficKeepsInv(m, l);
  }

  lemma AddFwdKeepsInv(l: Line, p: nat, v: nat)
    requires Inv(l) && p < |l.slots| && MaySend(l, p, v)
    ensures Inv(AddFwd(l, p, v)) && Grows(l, AddFwd(l, p, v))
  {
    hide Inv, Grows, MaySend, MayAck;
    TrafficKeepsInv(l, AddFwd(l, p, v));
  }

  lemma AddAckKeepsInv(l: Line, p: nat, v: nat)
    requires Inv(l) && p < |l.slots| && MayAck(l, p, v)
    ensures Inv(AddAck(l, p, v)) && Grows(l, AddAck(l, p, v))
  {
    hide Inv, Grows, MaySend, MayAck;
    TrafficKeepsInv(l, AddAck(l, p, v));
  }

  lemma AddCommitKeepsInv(l: Line, v: nat)
    requires Inv(l) && v <= l.slots[|l.slots| - 1].cv
    ensures Inv(AddCommit(l, v)) && Grows(l, AddCommit(l, v))
  {
    TrafficKeepsInv(l, AddCommit(l, v)) by { hide Inv; }
  }

  // ---------- a replica stores, commits, cleans ----------

  lemma StageGrows(l: Line, p: nat, v: nat)
    requires p < |l.slots|
    ensures Grows(l, StageAt(l, p, v)) && Holds(StageAt(l, p, v).slots[p], v)
  {
  }

  lemma StageKeepsInv(l: Line, p: nat, v: nat)
    requires Inv(l) && p + 1 < |l.slots| && MaySend(l, p, v)
    ensures Inv(StageAt(l, p, v)) && Grows(l, StageAt(l, p, v))
  {
    var m := StageAt(l, p, v);
    StageGrows(l, p, v);
    StageHead(l, p, v);
    StageSupported(l, p, v);
    StageDirty(l, p, v);
    assert Bounded(m);
  }

  lemma StageHead(l: Line, p: nat, v: nat)
    requires Inv(l) && p < |l.slots|
    ensures HeadComplete(StageAt(l, p, v)) && Ordered(StageAt(l, p, v))
  {
    var m := StageAt(l, p, v);
    StageGrows(l, p, v);
    HeadKeeps(l, m);
    OrderKeeps(l, m);
  }

  lemma StageDirty(l: Line, p: nat, v: nat)
    requires Inv(l) && p + 1 < |l.slots|
    ensures DirtyAbove(StageAt(l, p, v)) && AcksEarned(StageAt(l, p, v))
  {
  }

  lemma StageSupported(l: Line, p: nat, v: nat)
    requires Inv(l) && p + 1 < |l.slots| && MaySend(l, p, v)
    ensures Supported(StageAt(l, p, v))
  {
    var m := StageAt(l, p, v);
    StageGrows(l, p, v);
    assert Holds(m.slots[p], v);
  }

  /** A version above everything clean at the tail becomes the tail's clean version. */
  lemma CommitOrdered(l: Line, v: nat)
    requires Inv(l) && MaySend(l, |l.slots| - 1, v)
    ensures var m := CommitAt(l, |l.slots| - 1, v);
      Grows(l, m) && Ordered(m) && DirtyAbove(m) && v <= m.slots[|l.slots| - 1].cv <= l.latest
  {
  }

  lemma CommitKeepsInv(l: Line, v: nat)
    requires Inv(l) && MaySend(l, |l.slots| - 1, v)
    ensures var m := CommitAt(l, |l.slots| - 1, v);
      Inv(m) && Grows(l, m) && v <= m.slots[|l.slots| - 1].cv
  {
    hide Ordered, Grows, MaySend, Supported, AcksEarned;
    var m := CommitAt(l, |l.slots| - 1, v);
    CommitOrdered(l, v);
    HeadKeeps(l, m);
    SupportKeeps(l, m);
    AcksKeep(l, m);
    BoundsKeep(l, m);
  }

  lemma CleanOrdered(l: Line, p: nat, v: nat)
    requires Inv(l) && p < |l.slots| && v in l.slots[p].pend && MayAck(l, p, v)
    ensures var m := CleanAt(l, p, v); Grows(l, m) && Ordered(m)
    ensures v <= CleanAt(l, p, v).slots[p].cv
  {
    assert Holds(l.slots[p], v);
  }

  lemma CleanKeepsInv(l: Line, p: nat, v: nat)
    requires Inv(l) && p < |l.slots| && v in l.slots[p].pend && MayAck(l, p, v)
    ensures Inv(CleanAt(l, p, v)) && Grows(l, CleanAt(l, p, v))
    ensures v <= CleanAt(l, p, v).slots[p].cv
  {
    hide Ordered, Grows, MayAck, Supported, AcksEarned;
    var m := CleanAt(l, p, v);
    CleanOrdered(l, p, v);
    HeadKeeps(l, m);
    SupportKeeps(l, m);
    AcksKeep(l, m);
    BoundsKeep(l, m);
  }

  // ---------- every step keeps the invariant and forgets nothing ----------

  lemma AssignGrows(l: Line)
    requires Inv(l)
    ensures Grows(l, Assign(l)) && HeadComplete(Assign(l))
  {
    var v := l.latest + 1;
    var m := Assign(l);
    forall w | 1 <= w <= v ensures Holds(m.slots[0], w) { assert w < v ==> Holds(l.slots[0], w); }
  }

  lemma AssignSupported(l: Line)
    requires Inv(l) && |l.slots| > 1
    ensures Supported(Assign(l)) && AcksEarned(Assign(l))
  {
    AssignGrows(l);
    assert Holds(Assign(l).slots[0], l.latest + 1);
  }

  lemma AssignBounded(l: Line)
    requires Inv(l)
    ensures Bounded(Assign(l)) && DirtyAbove(Assign(l))
  {
  }

  lemma AssignKeepsInv(l: Line)
    requires Inv(l)
    ensures Inv(Assign(l)) && Grows(l, Assign(l)) && Holds(Assign(l).slots[0], l.latest + 1)
  {
    AssignGrows(l);
    AssignBounded(l);
    assert Holds(Assign(l).slots[0], l.latest + 1);
    if |l.slots| > 1 {
      hide Bounded, DirtyAbove, HeadComplete;
      OrderKeeps(l, Assign(l));
      AssignSupported(l);
    } else {
      LoneAssign(l);
    }
  }

  lemma LoneAssign(l: Line)
    requires Inv(l) && |l.slots| == 1
    ensures Ordered(Assign(l)) && Supported(Assign(l)) && AcksEarned(Assign(l))
  {
    AssignGrows(l);
    SupportKeeps(l, Assign(l));
  }

  lemma NotEmpty(l: Line)
    requires Inv(l)
    ensures |l.slots| >= 1
  {
  }

  lemma HeadMaySend(l: Line, v: nat)
    requires Inv(l) && |l.slots| > 1 && Holds(l.slots[0], v) && 1 <= v <= l.latest
    ensures MaySend(l, 1, v)
  {
  }

  lemma PutKeepsInv(l: Line)
    requires Inv(l)
    ensures Inv(Put(l)) && Grows(l, Put(l))
  {
    hide Inv, Grows, MaySend;
    NotEmpty(l);
    AssignKeepsInv(l);
    var v := l.latest + 1;
    var m := Assign(l);
    if |l.slots| == 1 {
      AddCommitKeepsInv(m, v);
      GrowsTransitive(l, m, AddCommit(m, v));
    } else {
      HeadMaySend(m, v);
      AddFwdKeepsInv(m, 1, v);
      GrowsTransitive(l, m, AddFwd(m, 1, v));
    }
  }

  lemma SentMaySend(l: Line, p: nat, v: nat)
    requires Inv(l) && p < |l.slots| && v in l.slots[p].fwd
    ensures MaySend(l, p, v)
  {
  }

  lemma TailMayAck(l: Line, v: nat)
    requires |l.slots| > 1 && 1 <= v <= l.latest && v <= l.slots[|l.slots| - 1].cv
    ensures MayAck(l, |l.slots| - 2, v)
  {
  }

  lemma StagedMaySend(l: Line, p: nat, v: nat)
    requires p + 1 < |l.slots| && MaySend(l, p, v)
    ensures MaySend(StageAt(l, p, v), p + 1, v)
  {
    StageGrows(l, p, v);
  }

  lemma RecvFwdKeepsInv(l: Line, p: nat, v: nat)
    requires Inv(l) && p < |l.slots| && v in l.slots[p].fwd
    ensures Inv(RecvFwd(l, p, v)) && Grows(l, RecvFwd(l, p, v))
  {
    hide Inv, Grows;
    SentMaySend(l, p, v);
    if p == |l.slots| - 1 {
      CommitKeepsInv(l, v);
      var m := CommitAt(l, p, v);
      AddCommitKeepsInv(m, v);
      GrowsTransitive(l, m, AddCommit(m, v));
      if p > 0 {
        TailMayAck(AddCommit(m, v), v);
        AddAckKeepsInv(AddCommit(m, v), p - 1, v);
        GrowsTransitive(l, AddCommit(m, v), AddAck(AddCommit(m, v), p - 1, v));
      }
    } else {
      StageKeepsInv(l, p, v);
      var m := StageAt(l, p, v);
      StagedMaySend(l, p, v);
      AddFwdKeepsInv(m, p + 1, v);
      GrowsTransitive(l, m, AddFwd(m, p + 1, v));
    }
  }

  lemma AckedMayAck(l: Line, p: nat, v: nat)
    requires Inv(l) && p < |l.slots| && v in l.slots[p].ack
    ensures MayAck(l, p, v)
  {
  }

  lemma RecvAckKeepsInv(l: Line, p: nat, v: nat)
    requires Inv(l) && p < |l.slots| && v in l.slots[p].ack
    ensures Inv(RecvAck(l, p, v)) && Grows(l, RecvAck(l, p, v))
  {
    hide Inv;
    AckedMayAck(l, p, v);
    if v in l.slots[p].pend {
      CleanKeepsInv(l, p, v);
      var m := CleanAt(l, p, v);
      if p > 0 {
        assert MayAck(m, p - 1, v);
        AddAckKeepsInv(m, p - 1, v);
        GrowsTransitive(l, m, AddAck(m, p - 1, v));
      }
    }
  }

  lemma PendingMaySend(l: Line, p: nat, v: nat)
    requires Inv(l) && p < |l.slots| && v in l.slots[p].pend
    ensures MaySend(l, Successor(|l.slots|, p), v)
  {
  }

  lemma ResendKeepsInv(l: Line, p: nat, v: nat)
    requires Inv(l) && p < |l.slots| && v in l.slots[p].pend
    ensures Inv(Resend(l, p, v)) && Grows(l, Resend(l, p, v))
  {
    PendingMaySend(l, p, v);
    if |l.slots| > 1 { AddFwdKeepsInv(l, Successor(|l.slots|, p), v); }
  }

  // ---------- steps as a relation ----------

  /** One event on the chain, with any loss of messages: nothing, a client write, a delivery or a resend. */
  ghost predicate Step(l: Line, m: Line)
    requires |l.slots| >= 1
  {
    || Within(m, l)
    || Within(m, Put(l))
    || (exists p: nat, v :: FwdArrives(l, m, p, v))
    || (exists p: nat, v :: AckArrives(l, m, p, v))
    || (exists p: nat, v :: SentAgain(l, m, p, v))
  }

  ghost predicate FwdArrives(l: Line, m: Line, p: nat, v: nat) {
    p < |l.slots| && v in l.slots[p].fwd && Within(m, RecvFwd(l, p, v))
  }

  ghost predicate AckArrives(l: Line, m: Line, p: nat, v: nat) {
    p < |l.slots| && v in l.slots[p].ack && Within(m, RecvAck(l, p, v))
  }

  ghost predicate SentAgain(l: Line, m: Line, p: nat, v: nat) {
    p < |l.slots| && v in l.slots[p].pend && Within(m, Resend(l, p, v))
  }

  lemma ThenWithin(l: Line, n: Line, m: Line)
    requires Inv(n) && Grows(l, n) && Within(m, n)
    ensures Inv(m) && Grows(l, m)
  {
    WithinKeepsInv(m, n);
    GrowsTransitive(l, n, m);
  }

  /** Every step keeps the chain in order and forgets nothing. */
  lemma StepKeepsInv(l: Line, m: Line)
    requires Inv(l) && Step(l, m)
    ensures Inv(m) && Grows(l, m)
  {
    if Within(m, l) {
      ThenWithin(l, l, m);
    } else if Within(m, Put(l)) {
      PutKeepsInv(l);
      ThenWithin(l, Put(l), m);
    } else if p: nat, v :| FwdArrives(l, m, p, v) {
      RecvFwdKeepsInv(l, p, v);
      ThenWithin(l, RecvFwd(l, p, v), m);
    } else if p: nat, v :| AckArrives(l, m, p, v) {
      RecvAckKeepsInv(l, p, v);
      ThenWithin(l, RecvAck(l, p, v), m);
    } else {
      var p: nat, v :| SentAgain(l, m, p, v);
      ResendKeepsInv(l, p, v);
      ThenWithin(l, Resend(l, p, v), m);
    }
  }

  // ---------- what the invariant gives ----------

  /** If nothing is pending at the head, every replica is clean at the newest version. */
  lemma HeadSettled(l: Line)
    requires Inv(l) && l.slots[0].pend == {}
    ensures forall p :: 0 <= p < |l.slots| ==> l.slots[p].cv == l.latest && l.slots[p].dirty == {}
  {
    assert l.slots[0].cv == l.latest by {
      if l.latest >= 1 { assert Holds(l.slots[0], l.latest); }
    }
    forall p | 0 <= p < |l.slots| ensures l.slots[p].cv == l.latest && l.slots[p].dirty == {} {
      assert forall v :: v in l.slots[p].dirty ==> v > l.slots[p].cv;
    }
  }

  /** A line whose replicas are all clean at the newest version satisfies the invariant,
      whatever old traffic and old pending entries are around. */
  lemma SettledLineInv(l: Line)
    requires |l.slots| >= 1 && Bounded(l)
    requires forall p :: 0 <= p < |l.slots| ==> l.slots[p].cv == l.latest && l.slots[p].dirty == {}
    requires forall v :: v in l.commits ==> v <= l.latest
    ensures Inv(l)
  {
    assert forall p :: 0 <= p < |l.slots| ==> l.slots[p].cv == l.latest;
  }

  // ---------- the loss of a replica ----------

  /** The chain without one of its replicas; whatever was on its way to it is gone as well. */
  function Without(l: Line, k: nat): Line
    requires k < |l.slots|
  {
    l.(slots := Types.RemoveAt(l.slots, k))
  }

  /** Where position q of the shorter chain was before. */
  function Before(k: nat, q: nat): nat {
    if q < k then q else q + 1
  }

  /** A replica can go: the head if its successor has every version, the tail if its predecessor has committed as much, any
      other always. */
  ghost predicate MayDrop(l: Line, k: nat)
    requires k < |l.slots| && |l.slots| >= 2
  {
    && (k == 0 ==> forall v :: 1 <= v <= l.latest ==> Holds(l.slots[1], v))
    && (k == |l.slots| - 1 ==> l.slots[k - 1].cv == l.slots[k].cv)
  }

  lemma WithoutBounded(l: Line, k: nat)
    requires |l.slots| >= 2 && k < |l.slots| && MayDrop(l, k) && Bounded(l) && DirtyAbove(l)
    ensures Bounded(Without(l, k)) && DirtyAbove(Without(l, k))
  {
    var m := Without(l, k);
    assert forall q :: 0 <= q < |m.slots| ==> m.slots[q] == l.slots[Before(k, q)];
  }

  lemma WithoutHead(l: Line, k: nat)
    requires |l.slots| >= 2 && k < |l.slots| && MayDrop(l, k) && HeadComplete(l)
    ensures HeadComplete(Without(l, k))
  {
    var m := Without(l, k);
    assert forall q :: 0 <= q < |m.slots| ==> m.slots[q] == l.slots[Before(k, q)];
  }

  lemma WithoutOrdered(l: Line, k: nat)
    requires k < |l.slots| && Ordered(l) && Supported(l)
    ensures Ordered(Without(l, k)) && Supported(Without(l, k))
  {
    var m := Without(l, k);
    forall q, p | 0 <= q < p < |m.slots|
      ensures m.slots[q].cv <= m.slots[p].cv && Holds(m.slots[q], m.slots[p].cv)
    {
      assert Holds(l.slots[Before(k, q)], l.slots[Before(k, p)].cv);
    }
    forall q, p, v | 0 <= q <= p < |m.slots| && v in m.slots[p].pend ensures Holds(m.slots[q], v) {
      assert v in l.slots[Before(k, p)].pend && Holds(l.slots[Before(k, q)], v);
    }
    forall q, p, v | 0 <= q < p < |m.slots| && v in m.slots[p].fwd ensures Holds(m.slots[q], v) {
      assert v in l.slots[Before(k, p)].fwd && Holds(l.slots[Before(k, q)], v);
    }
  }

  lemma WithoutEarned(l: Line, k: nat)
    requires |l.slots| >= 2 && k < |l.slots| && MayDrop(l, k) && Ordered(l) && AcksEarned(l)
    ensures AcksEarned(Without(l, k))
  {
    var m := Without(l, k);
    forall p, q, v | 0 <= p < q < |m.slots| && v in m.slots[p].ack ensures v <= m.slots[q].cv {
      assert v in l.slots[Before(k, p)].ack && v <= l.slots[Before(k, q)].cv;
    }
  }

  /** The chain invariant survives the loss of a replica, with writes in flight and the committed version kept, in exactly
      these cases. */
  lemma RemovalExactly(l: Line, k: nat)
    requires Inv(l) && k < |l.slots| && |l.slots| >= 2
    ensures var m := Without(l, k);
      Inv(m) && m.slots[|m.slots| - 1].cv == l.slots[|l.slots| - 1].cv <==> MayDrop(l, k)
  {
    var m, n := Without(l, k), |l.slots|;
    assert m.slots[n - 2] == l.slots[Before(k, n - 2)];
    if MayDrop(l, k) {
      hide Bounded, DirtyAbove, HeadComplete, Ordered, Supported, AcksEarned;
      WithoutBounded(l, k);
      WithoutHead(l, k);
      WithoutOrdered(l, k);
      WithoutEarned(l, k);
    } else if k == 0 {
      var v :| 1 <= v <= l.latest && !Holds(l.slots[1], v);
      assert !Holds(m.slots[0], v);
    }
  }
}
