/** One key along the chain in CHAIN mode. A replica tells a stale write by the newest version it has, dirty
    records included, so under reordering it may never store some versions. What it keeps is something at
    least as new; the order of clean versions between neighbours is lost. */
module ChainLines {
  import opened Lines
  import Stores

  /** The newest version the replica has. */
  ghost function Top(s: Slot): nat {
    Stores.Highest(s.cv, s.dirty)
  }

  lemma CleanBelowTop(s: Slot)
    ensures s.cv <= Top(s) && (s.dirty == {} ==> Top(s) == s.cv)
  {
  }

  /** What one replica has clean, every replica has, or something newer. */
  ghost predicate Matched(l: Line) {
    forall q, p :: 0 <= q < |l.slots| && 0 <= p < |l.slots| ==> l.slots[q].cv <= Top(l.slots[p])
  }

  /** For a version pending at p, or on its way to p, every earlier replica has something as new. */
  ghost predicate Covered(l: Line) {
    && (forall q, p, v {:trigger l.slots[q], v in l.slots[p].pend} ::
          0 <= q <= p < |l.slots| && v in l.slots[p].pend ==> v <= Top(l.slots[q]))
    && (forall q, p, v {:trigger l.slots[q], v in l.slots[p].fwd} ::
          0 <= q < p < |l.slots| && v in l.slots[p].fwd ==> v <= Top(l.slots[q]))
  }

  /** An acknowledgement says that everything further down the chain has something as new, and the tail has committed
      that. */
  ghost predicate Earned(l: Line)
    requires |l.slots| >= 1
  {
    && (forall p, q, v {:trigger l.slots[q], v in l.slots[p].ack} ::
          0 <= p < q < |l.slots| && v in l.slots[p].ack ==> v <= Top(l.slots[q]))
    && (forall p, v :: 0 <= p < |l.slots| - 1 && v in l.slots[p].ack ==> v <= l.slots[|l.slots| - 1].cv)
    && (forall v :: v in l.commits ==> v <= l.slots[|l.slots| - 1].cv)
  }

  /** No clean version is ahead of the tail's, and what the tail has pending it holds. */
  ghost predicate TailLeads(l: Line)
    requires |l.slots| >= 1
  {
    var n := |l.slots| - 1;
    && (forall p :: 0 <= p < |l.slots| ==> l.slots[p].cv <= l.slots[n].cv)
    && PendHeld(l.slots[n])
  }

  /** Whatever is pending at the replica it holds. */
  ghost predicate PendHeld(s: Slot) {
    forall v :: v in s.pend ==> Holds(s, v)
  }

  ghost predicate WeakInv(l: Line) {
    && |l.slots| >= 1
    && Bounded(l)
    && DirtyAbove(l)
    && HeadComplete(l)
    && Matched(l)
    && TailLeads(l)
    && Covered(l)
    && Earned(l)
  }

  /** The tail has nothing dirty. A chain starts like that and stays like that; a replica that becomes the tail because the
      old one is lost can bring dirty records along. */
  predicate TailClean(l: Line) {
    |l.slots| >= 1 && l.slots[|l.slots| - 1].dirty == {}
  }

  /** Nothing gets older, and the head forgets nothing. */
  ghost predicate Advances(l: Line, m: Line) {
    && l.latest <= m.latest
    && |l.slots| == |m.slots|
    && (forall p :: 0 <= p < |l.slots| ==> l.slots[p].cv <= m.slots[p].cv && Top(l.slots[p]) <= Top(m.slots[p]))
    && (forall v :: |l.slots| >= 1 && Holds(l.slots[0], v) ==> Holds(m.slots[0], v))
  }

  lemma AdvancesTransitive(l: Line, m: Line, n: Line)
    requires Advances(l, m) && Advances(m, n)
    ensures Advances(l, n)
  {
  }

  lemma HeadAdvances(l: Line, m: Line)
    requires |l.slots| >= 1 && HeadComplete(l) && Advances(l, m) && l.latest == m.latest
    requires forall p :: 0 <= p < |m.slots| ==> m.slots[p].cv <= m.latest
    ensures HeadComplete(m)
  {
    forall v | 1 <= v <= m.latest ensures Holds(m.slots[0], v) { assert Holds(l.slots[0], v); }
  }

  lemma CoveredAdvances(l: Line, m: Line)
    requires Covered(l) && Advances(l, m)
    requires forall p :: 0 <= p < |m.slots| ==> m.slots[p].pend <= l.slots[p].pend && m.slots[p].fwd <= l.slots[p].fwd
    ensures Covered(m)
  {
    forall q, p, v | 0 <= q <= p < |m.slots| && v in m.slots[p].pend ensures v <= Top(m.slots[q]) {
      assert v in l.slots[p].pend && v <= Top(l.slots[q]);
    }
    forall q, p, v | 0 <= q < p < |m.slots| && v in m.slots[p].fwd ensures v <= Top(m.slots[q]) {
      assert v in l.slots[p].fwd && v <= Top(l.slots[q]);
    }
  }

  lemma EarnedAdvances(l: Line, m: Line)
    requires |l.slots| >= 1 && Earned(l) && Advances(l, m)
    requires m.commits <= l.commits && forall p :: 0 <= p < |m.slots| ==> m.slots[p].ack <= l.slots[p].ack
    ensures Earned(m)
  {
    forall p, q, v | 0 <= p < q < |m.slots| && v in m.slots[p].ack ensures v <= Top(m.slots[q]) {
      assert v in l.slots[p].ack && v <= Top(l.slots[q]);
    }
    forall p, v | 0 <= p < |m.slots| - 1 && v in m.slots[p].ack ensures v <= m.slots[|m.slots| - 1].cv {
      assert v in l.slots[p].ack && v <= l.slots[|m.slots| - 1].cv;
    }
  }

  // ---------- messages come and go ----------

  ghost predicate MayBeSent(l: Line, p: nat, v: nat)
    requires p < |l.slots|
  {
    1 <= v <= l.latest && forall q :: 0 <= q < p ==> v <= Top(l.slots[q])
  }

  ghost predicate MayBeAcked(l: Line, p: nat, v: nat)
    requires p < |l.slots|
  {
    && 1 <= v <= l.latest
    && (p < |l.slots| - 1 ==> v <= l.slots[|l.slots| - 1].cv)
    && forall q :: p < q < |l.slots| ==> v <= Top(l.slots[q])
  }

  lemma SameTops(l: Line, m: Line)
    requires SameCores(l, m)
    ensures Advances(l, m) && forall p :: 0 <= p < |l.slots| ==> Top(m.slots[p]) == Top(l.slots[p])
  {
  }

  lemma TrafficKeepsWeakInv(l: Line, m: Line)
    requires WeakInv(l) && SameCores(l, m)
    requires forall p, v :: 0 <= p < |l.slots| && v in m.slots[p].fwd ==> v in l.slots[p].fwd || MayBeSent(l, p, v)
    requires forall p, v :: 0 <= p < |l.slots| && v in m.slots[p].ack ==> v in l.slots[p].ack || MayBeAcked(l, p, v)
    requires forall v :: v in m.commits ==> v in l.commits || v <= l.slots[|l.slots| - 1].cv
    ensures WeakInv(m) && Advances(l, m)
  {
    hide Top;
    SameTops(l, m);
    HeadAdvances(l, m);
    forall q, p, v | 0 <= q <= p < |m.slots| && v in m.slots[p].pend ensures v <= Top(m.slots[q]) {
      assert v in l.slots[p].pend && v <= Top(l.slots[q]);
    }
    forall q, p, v | 0 <= q < p < |m.slots| && v in m.slots[p].fwd ensures v <= Top(m.slots[q]) {
      assert v in l.slots[p].fwd || MayBeSent(l, p, v);
      assert v <= Top(l.slots[q]);
    }
    forall p, q, v | 0 <= p < q < |m.slots| && v in m.slots[p].ack ensures v <= Top(m.slots[q]) {
      assert v in l.slots[p].ack || MayBeAcked(l, p, v);
      assert v <= Top(l.slots[q]);
    }
    forall p, v | 0 <= p < |m.slots| - 1 && v in m.slots[p].ack ensures v <= m.slots[|m.slots| - 1].cv {
      assert v in l.slots[p].ack || MayBeAcked(l, p, v);
    }
    assert PendHeld(m.slots[|m.slots| - 1]) by { assert PendHeld(l.slots[|l.slots| - 1]); }
  }

  lemma WithinKeepsWeakInv(l: Line, m: Line)
    requires WeakInv(m) && Within(l, m)
    ensures WeakInv(l) && Advances(m, l)
  {
    hide WeakInv, Advances, MayBeSent, MayBeAcked;
    TrafficKeepsWeakInv(m, l);
  }

  lemma AddFwdKeepsWeakInv(l: Line, p: nat, v: nat)
    requires WeakInv(l) && p < |l.slots| && MayBeSent(l, p, v)
    ensures WeakInv(AddFwd(l, p, v)) && Advances(l, AddFwd(l, p, v))
  {
    hide WeakInv, Advances, MayBeSent, MayBeAcked;
    TrafficKeepsWeakInv(l, AddFwd(l, p, v));
  }

  lemma AddAckKeepsWeakInv(l: Line, p: nat, v: nat)
    requires WeakInv(l) && p < |l.slots| && MayBeAcked(l, p, v)
    ensures WeakInv(AddAck(l, p, v)) && Advances(l, AddAck(l, p, v))
  {
    hide WeakInv, Advances, MayBeSent, MayBeAcked;
    TrafficKeepsWeakInv(l, AddAck(l, p, v));
  }

  lemma AddCommitKeepsWeakInv(l: Line, v: nat)
    requires WeakInv(l) && v <= l.slots[|l.slots| - 1].cv
    ensures WeakInv(AddCommit(l, v)) && Advances(l, AddCommit(l, v))
  {
    TrafficKeepsWeakInv(l, AddCommit(l, v)) by { hide WeakInv; }
  }

  // ---------- a replica stores, skips, commits, cleans ----------

  /** The replica files the write as pending but does not store it. */
  function SkipAt(l: Line, p: nat, v: nat): Line
    requires p < |l.slots|
  {
    l.(slots := l.slots[p := l.slots[p].(pend := l.slots[p].pend + {v})])
  }

  /** Filing a version as pending is fine once the replica has something as new. */
  lemma PendKeepsCovered(l: Line, m: Line, p: nat, v: nat)
    requires Covered(l) && Advances(l, m) && p < |l.slots| && MayBeSent(l, p, v) && v <= Top(m.slots[p])
    requires forall q :: 0 <= q < |m.slots| ==>
      m.slots[q].fwd == l.slots[q].fwd && m.slots[q].pend == l.slots[q].pend + if q == p then {v} else {}
    ensures Covered(m)
  {
    hide Top;
    forall q, s, w | 0 <= q <= s < |m.slots| && w in m.slots[s].pend ensures w <= Top(m.slots[q]) {
      if w in l.slots[s].pend { assert w <= Top(l.slots[q]); } else { assert q < p ==> w <= Top(l.slots[q]); }
    }
    forall q, s, w | 0 <= q < s < |m.slots| && w in m.slots[s].fwd ensures w <= Top(m.slots[q]) {
      assert w in l.slots[s].fwd && w <= Top(l.slots[q]);
    }
  }

  lemma StageTops(l: Line, p: nat, v: nat)
    requires p < |l.slots|
    ensures Advances(l, StageAt(l, p, v)) && v <= Top(StageAt(l, p, v).slots[p])
    ensures v <= Top(l.slots[p]) ==> Advances(l, SkipAt(l, p, v)) && v <= Top(SkipAt(l, p, v).slots[p])
  {
  }

  lemma StageDirtyAbove(l: Line, p: nat, v: nat)
    requires WeakInv(l) && p + 1 < |l.slots| && 1 <= v <= l.latest
    ensures var m := StageAt(l, p, v); DirtyAbove(m) && Bounded(m)
    ensures var m := SkipAt(l, p, v); DirtyAbove(m) && Bounded(m)
  {
    hide Top, Covered, Earned, Matched, HeadComplete;
  }

  lemma StageKeepsWeakInv(l: Line, p: nat, v: nat, skip: bool)
    requires WeakInv(l) && p + 1 < |l.slots| && MayBeSent(l, p, v) && (skip ==> v <= Top(l.slots[p]))
    ensures var m := if skip then SkipAt(l, p, v) else StageAt(l, p, v);
      WeakInv(m) && Advances(l, m) && v <= Top(m.slots[p])
  {
    hide Top, Covered, Earned, Matched, Bounded, DirtyAbove, Holds;
    var m := if skip then SkipAt(l, p, v) else StageAt(l, p, v);
    StageTops(l, p, v);
    StageDirtyAbove(l, p, v);
    HeadAdvances(l, m);
    PendKeepsCovered(l, m, p, v);
    EarnedAdvances(l, m);
    StaysMatched(l, m);
  }

  lemma StaysMatched(l: Line, m: Line)
    requires Matched(l) && Advances(l, m) && forall p :: 0 <= p < |l.slots| ==> m.slots[p].cv == l.slots[p].cv
    ensures Matched(m)
  {
    hide Top;
    forall q, p | 0 <= q < |m.slots| && 0 <= p < |m.slots| ensures m.slots[q].cv <= Top(m.slots[p]) {
      assert l.slots[q].cv <= Top(l.slots[p]);
    }
  }

  /** Cleaning a version the replica has something as new as: its newest version stays. */
  lemma CleanTop(s: Slot, v: nat)
    requires v <= Top(s) && forall w :: w in s.dirty ==> w > s.cv
    ensures Top(s) <= Top(Clean(s, v)) && s.cv <= Clean(s, v).cv
    ensures Clean(s, v).cv == s.cv || Clean(s, v).cv == v
  {
    var t := Clean(s, v);
    assert forall w :: w in t.dirty ==> w <= Top(t);
    if Top(s) in s.dirty && Top(s) > v { assert Top(s) in t.dirty; }
  }

  lemma CleanAdvances(l: Line, p: nat, v: nat)
    requires WeakInv(l) && p < |l.slots| && v in l.slots[p].pend
    ensures Advances(l, CleanAt(l, p, v)) && v <= Top(CleanAt(l, p, v).slots[p])
    ensures var cv := CleanAt(l, p, v).slots[p].cv; cv <= l.latest && (cv == l.slots[p].cv || cv == v)
  {
    assert v <= Top(l.slots[p]);
    CleanTop(l.slots[p], v);
    assert Holds(l.slots[0], v);
  }

  lemma CleanTailLeads(l: Line, p: nat, v: nat)
    requires WeakInv(l) && p < |l.slots| && v in l.slots[p].pend && MayBeAcked(l, p, v)
    ensures TailLeads(CleanAt(l, p, v)) && v <= CleanAt(l, p, v).slots[|l.slots| - 1].cv
  {
    hide Top, Covered, Earned, Bounded, Matched;
    var n := |l.slots| - 1;
    if p == n { assert Holds(l.slots[n], v); }
    var m := CleanAt(l, p, v);
    forall w | w in m.slots[n].pend ensures Holds(m.slots[n], w) { assert Holds(l.slots[n], w); }
  }

  lemma CleanMatched(l: Line, p: nat, v: nat)
    requires WeakInv(l) && p < |l.slots| && v in l.slots[p].pend && MayBeAcked(l, p, v)
    ensures Matched(CleanAt(l, p, v))
  {
    hide Top, Earned, Bounded;
    var m := CleanAt(l, p, v);
    CleanAdvances(l, p, v);
    forall q, s | 0 <= q < |m.slots| && 0 <= s < |m.slots| ensures m.slots[q].cv <= Top(m.slots[s]) {
      assert l.slots[q].cv <= Top(l.slots[s]);
      assert s <= p ==> v <= Top(l.slots[s]);
      assert q != p ==> m.slots[q].cv == l.slots[q].cv;
    }
  }

  lemma CleanKeepsWeakInv(l: Line, p: nat, v: nat)
    requires WeakInv(l) && p < |l.slots| && v in l.slots[p].pend && MayBeAcked(l, p, v)
    ensures var m := CleanAt(l, p, v);
      WeakInv(m) && Advances(l, m) && v <= Top(m.slots[p]) && v <= m.slots[|l.slots| - 1].cv
  {
    hide Top, Covered, Earned, Matched, TailLeads;
    var m := CleanAt(l, p, v);
    CleanAdvances(l, p, v);
    CleanTailLeads(l, p, v);
    CleanMatched(l, p, v);
    HeadAdvances(l, m);
    CoveredAdvances(l, m);
    EarnedAdvances(l, m);
    BoundsKeep(l, m);
  }

  lemma CommitAdvances(l: Line, v: nat)
    requires WeakInv(l) && 1 <= v <= l.latest
    ensures var m := CommitAt(l, |l.slots| - 1, v); var n := |l.slots| - 1;
      && Advances(l, m) && v <= m.slots[n].cv <= l.latest && (m.slots[n].cv == l.slots[n].cv || m.slots[n].cv == v)
      && DirtyAbove(m) && (l.slots[n].dirty == {} ==> m.slots[n].dirty == {})
  {
    var n := |l.slots| - 1;
    var s := Stage(l.slots[n], v);
    if v > l.slots[n].cv {
      assert v in s.dirty;
      assert forall w :: w in s.dirty ==> w <= Top(s);
      assert Top(l.slots[n]) <= Top(s) by { assert Top(l.slots[n]) == l.slots[n].cv || Top(l.slots[n]) in s.dirty; }
      CleanTop(s, v);
    }
    var m := CommitAt(l, n, v);
    forall w | Holds(l.slots[0], w) ensures Holds(m.slots[0], w) { }
  }

  lemma CommitTailLeads(l: Line, v: nat)
    requires WeakInv(l) && 1 <= v <= l.latest
    ensures TailLeads(CommitAt(l, |l.slots| - 1, v))
  {
    hide Top, Covered, Earned, Matched, Bounded;
    var m, n := CommitAt(l, |l.slots| - 1, v), |l.slots| - 1;
    forall w | w in m.slots[n].pend ensures Holds(m.slots[n], w) { assert Holds(l.slots[n], w); }
  }

  lemma CommitKeepsWeakInv(l: Line, v: nat)
    requires WeakInv(l) && MayBeSent(l, |l.slots| - 1, v)
    ensures var m := CommitAt(l, |l.slots| - 1, v);
      WeakInv(m) && Advances(l, m) && v <= m.slots[|l.slots| - 1].cv
  {
    hide Top, Covered, Earned, TailLeads, DirtyAbove;
    var m := CommitAt(l, |l.slots| - 1, v);
    CommitAdvances(l, v);
    CommitTailLeads(l, v);
    HeadAdvances(l, m);
    CoveredAdvances(l, m);
    EarnedAdvances(l, m);
    BoundsKeep(l, m);
    forall q, s | 0 <= q < |m.slots| && 0 <= s < |m.slots| ensures m.slots[q].cv <= Top(m.slots[s]) {
      assert l.slots[q].cv <= Top(l.slots[s]);
      if q == |l.slots| - 1 && s == q { CleanBelowTop(m.slots[s]); }
    }
  }

  lemma AssignKeepsWeakInv(l: Line)
    requires WeakInv(l)
    ensures WeakInv(Assign(l)) && Advances(l, Assign(l)) && l.latest + 1 <= Top(Assign(l).slots[0])
  {
    hide Top, Covered, Earned, Matched, TailLeads, Bounded, DirtyAbove, HeadComplete;
    AssignAdvances(l);
    AssignTailLeads(l);
    AssignTop(l);
    AssignHead(l);
    AssignDirty(l);
    AssignMatched(l);
    AssignCovered(l);
    EarnedAdvances(l, Assign(l));
  }

  lemma AssignTailLeads(l: Line)
    requires WeakInv(l)
    ensures TailLeads(Assign(l))
  {
    hide Top, Covered, Earned, Matched;
    var m, n := Assign(l), |l.slots| - 1;
    forall w | w in m.slots[n].pend ensures Holds(m.slots[n], w) { assert Holds(l.slots[n], w); }
  }

  lemma AssignHead(l: Line)
    requires WeakInv(l)
    ensures HeadComplete(Assign(l))
  {
    hide Top, Covered, Earned, Matched;
    var m := Assign(l);
    forall w | 1 <= w <= m.latest ensures Holds(m.slots[0], w) { assert w < m.latest ==> Holds(l.slots[0], w); }
  }

  lemma AssignDirty(l: Line)
    requires WeakInv(l)
    ensures Bounded(Assign(l)) && DirtyAbove(Assign(l))
  {
    hide Top, Covered, Earned, Matched;
  }

  lemma AssignMatched(l: Line)
    requires WeakInv(l)
    ensures Matched(Assign(l))
  {
    hide Top, Covered, Earned;
    var m := Assign(l);
    AssignAdvances(l);
    forall q, s | 0 <= q < |m.slots| && 0 <= s < |m.slots| ensures m.slots[q].cv <= Top(m.slots[s]) {
      CleanBelowTop(m.slots[s]);
      assert l.slots[q].cv <= Top(l.slots[s]);
    }
  }

  lemma AssignAdvances(l: Line)
    requires WeakInv(l)
    ensures Advances(l, Assign(l))
  {
    var m := Assign(l);
    assert Top(m.slots[0]) >= l.latest + 1;
    assert Top(l.slots[0]) <= l.latest;
  }

  lemma AssignCovered(l: Line)
    requires WeakInv(l)
    ensures Covered(Assign(l))
  {
    hide Top;
    var m := Assign(l);
    AssignAdvances(l);
    AssignTop(l);
    forall q, p, v | 0 <= q <= p < |m.slots| && v in m.slots[p].pend ensures v <= Top(m.slots[q]) {
      if v in l.slots[p].pend { assert v <= Top(l.slots[q]); }
    }
    forall q, p, v | 0 <= q < p < |m.slots| && v in m.slots[p].fwd ensures v <= Top(m.slots[q]) {
      assert v in l.slots[p].fwd && v <= Top(l.slots[q]);
    }
  }

  lemma AssignTop(l: Line)
    requires WeakInv(l)
    ensures l.latest + 1 <= Top(Assign(l).slots[0])
  {
  }

  // ---------- every step keeps the invariant ----------

  lemma WeakParts(l: Line)
    requires WeakInv(l)
    ensures Bounded(l) && HeadComplete(l)
  {
  }

  lemma SomeSlot(l: Line)
    requires WeakInv(l)
    ensures |l.slots| >= 1
  {
  }

  lemma LoneCommits(l: Line)
    requires |l.slots| == 1 && Bounded(l) && HeadComplete(l)
    ensures |Assign(l).slots| == 1 && Assign(l).slots[0].cv == l.latest + 1 && Assign(l).slots[0].dirty == {}
  {
  }

  lemma PutKeepsWeakInv(l: Line)
    requires WeakInv(l)
    ensures WeakInv(Put(l)) && Advances(l, Put(l))
  {
    hide WeakInv, Advances, Top;
    SomeSlot(l);
    AssignKeepsWeakInv(l);
    var v := l.latest + 1;
    var m := Assign(l);
    if |l.slots| == 1 {
      LoneCommits(l) by { WeakParts(l); }
      AddCommitKeepsWeakInv(m, v);
      AdvancesTransitive(l, m, AddCommit(m, v));
    } else {
      AddFwdKeepsWeakInv(m, 1, v);
      AdvancesTransitive(l, m, AddFwd(m, 1, v));
    }
  }

  lemma SentMayBeSent(l: Line, p: nat, v: nat)
    requires WeakInv(l) && p < |l.slots|
    ensures v in l.slots[p].fwd ==> MayBeSent(l, p, v)
    ensures v in l.slots[p].ack ==> MayBeAcked(l, p, v)
    ensures v in l.slots[p].pend ==> MayBeSent(l, Successor(|l.slots|, p), v)
  {
    hide Top;
  }

  /** A forwarded write is stored, or skipped because the replica has something as new. */
  lemma FwdKeepsWeakInv(l: Line, p: nat, v: nat)
    requires WeakInv(l) && p < |l.slots| && v in l.slots[p].fwd
    ensures WeakInv(RecvFwd(l, p, v)) && Advances(l, RecvFwd(l, p, v))
  {
    SentMayBeSent(l, p, v);
    if p == |l.slots| - 1 {
      CommitReplyKeepsWeakInv(l, p, v);
    } else {
      StageSendKeepsWeakInv(l, p, v, false);
    }
  }

  lemma CommitReplyKeepsWeakInv(l: Line, p: nat, v: nat)
    requires WeakInv(l) && p == |l.slots| - 1 && MayBeSent(l, p, v)
    ensures WeakInv(RecvFwd(l, p, v)) && Advances(l, RecvFwd(l, p, v))
  {
    hide WeakInv, Advances;
    CommitKeepsWeakInv(l, v);
    var m := CommitAt(l, p, v);
    AddCommitKeepsWeakInv(m, v);
    var n := AddCommit(m, v);
    AdvancesTransitive(l, m, n);
    if p > 0 {
      CleanBelowTop(n.slots[p]);
      AddAckKeepsWeakInv(n, p - 1, v);
      AdvancesTransitive(l, n, AddAck(n, p - 1, v));
    }
  }

  lemma StageSendKeepsWeakInv(l: Line, p: nat, v: nat, skip: bool)
    requires WeakInv(l) && p + 1 < |l.slots| && MayBeSent(l, p, v) && (skip ==> v <= Top(l.slots[p]))
    ensures var m := AddFwd(if skip then SkipAt(l, p, v) else StageAt(l, p, v), p + 1, v);
      WeakInv(m) && Advances(l, m)
  {
    hide WeakInv;
    StageKeepsWeakInv(l, p, v, skip);
    var m := if skip then SkipAt(l, p, v) else StageAt(l, p, v);
    StagedMayBeSent(l, m, p, v);
    AddFwdKeepsWeakInv(m, p + 1, v);
    AdvancesTransitive(l, m, AddFwd(m, p + 1, v));
  }

  lemma StagedMayBeSent(l: Line, m: Line, p: nat, v: nat)
    requires p + 1 < |l.slots| && MayBeSent(l, p, v) && Advances(l, m) && v <= Top(m.slots[p])
    ensures MayBeSent(m, p + 1, v)
  {
    hide Top;
  }

  lemma AckKeepsWeakInv(l: Line, p: nat, v: nat)
    requires WeakInv(l) && p < |l.slots| && v in l.slots[p].ack
    ensures WeakInv(RecvAck(l, p, v)) && Advances(l, RecvAck(l, p, v))
  {
    hide WeakInv, Top;
    SentMayBeSent(l, p, v);
    if v in l.slots[p].pend {
      CleanKeepsWeakInv(l, p, v);
      var m := CleanAt(l, p, v);
      if p > 0 {
        assert MayBeAcked(m, p - 1, v);
        AddAckKeepsWeakInv(m, p - 1, v);
        AdvancesTransitive(l, m, AddAck(m, p - 1, v));
      }
    }
  }

  lemma ResendKeepsWeakInv(l: Line, p: nat, v: nat)
    requires WeakInv(l) && p < |l.slots| && v in l.slots[p].pend
    ensures WeakInv(Resend(l, p, v)) && Advances(l, Resend(l, p, v))
  {
    SentMayBeSent(l, p, v);
    if |l.slots| > 1 { AddFwdKeepsWeakInv(l, Successor(|l.slots|, p), v); }
  }

  ghost predicate FwdSkipped(l: Line, m: Line, p: nat, v: nat) {
    p + 1 < |l.slots| && v in l.slots[p].fwd && v <= Top(l.slots[p]) && Within(m, AddFwd(SkipAt(l, p, v), p + 1, v))
  }

  /** One event on the chain: as in the other modes, or a forwarded write that is passed on without being stored. */
  ghost predicate ChainStep(l: Line, m: Line)
    requires |l.slots| >= 1
  {
    Step(l, m) || exists p: nat, v :: FwdSkipped(l, m, p, v)
  }

  lemma ThenLess(l: Line, n: Line, m: Line)
    requires WeakInv(n) && Advances(l, n) && Within(m, n)
    ensures WeakInv(m) && Advances(l, m)
  {
    hide WeakInv;
    WithinKeepsWeakInv(m, n);
    AdvancesTransitive(l, n, m);
  }

  lemma SameAdvances(l: Line)
    ensures Advances(l, l)
  {
  }

  /** Every step keeps the weaker invariant and makes nothing older. */
  lemma ChainStepKeepsInv(l: Line, m: Line)
    requires WeakInv(l) && ChainStep(l, m)
    ensures WeakInv(m) && Advances(l, m)
  {
    hide WeakInv, Advances, Within, Put, RecvFwd, RecvAck, Resend, AddFwd, Top;
    SomeSlot(l);
    if Within(m, l) {
      SameAdvances(l);
      ThenLess(l, l, m);
    } else if Within(m, Put(l)) {
      PutKeepsWeakInv(l);
      ThenLess(l, Put(l), m);
    } else if p: nat, v :| FwdArrives(l, m, p, v) {
      FwdKeepsWeakInv(l, p, v);
      ThenLess(l, RecvFwd(l, p, v), m);
    } else if p: nat, v :| AckArrives(l, m, p, v) {
      AckKeepsWeakInv(l, p, v);
      ThenLess(l, RecvAck(l, p, v), m);
    } else if p: nat, v :| SentAgain(l, m, p, v) {
      ResendKeepsWeakInv(l, p, v);
      ThenLess(l, Resend(l, p, v), m);
    } else {
      var p: nat, v :| FwdSkipped(l, m, p, v);
      SentMayBeSent(l, p, v);
      StageSendKeepsWeakInv(l, p, v, true);
      ThenLess(l, AddFwd(SkipAt(l, p, v), p + 1, v), m);
    }
  }

  lemma TailCleanWithin(l: Line, m: Line)
    requires Within(m, l) && TailClean(l)
    ensures TailClean(m)
  {
  }

  lemma FwdKeepsTailClean(l: Line, p: nat, v: nat)
    requires WeakInv(l) && TailClean(l) && p < |l.slots| && 1 <= v <= l.latest
    ensures TailClean(RecvFwd(l, p, v))
    ensures p + 1 < |l.slots| ==> TailClean(AddFwd(SkipAt(l, p, v), p + 1, v))
  {
    hide Covered, Earned, Matched, Top;
    if p == |l.slots| - 1 { CommitAdvances(l, v); }
  }

  lemma PutKeepsTailClean(l: Line)
    requires WeakInv(l) && TailClean(l)
    ensures TailClean(Put(l))
  {
    if |l.slots| == 1 { LoneCommits(l); }
  }

  lemma FwdIsKnown(l: Line, p: nat, v: nat)
    requires WeakInv(l) && p < |l.slots| && v in l.slots[p].fwd
    ensures 1 <= v <= l.latest
  {
  }

  /** A tail that has nothing dirty stays so. */
  lemma ChainStepKeepsTailClean(l: Line, m: Line)
    requires WeakInv(l) && TailClean(l) && ChainStep(l, m)
    ensures TailClean(m)
  {
    hide WeakInv, TailClean, Within, Put, RecvFwd, Resend, AddFwd, Top;
    SomeSlot(l);
    if Within(m, l) {
      TailCleanWithin(l, m);
    } else if Within(m, Put(l)) {
      PutKeepsTailClean(l);
      TailCleanWithin(Put(l), m);
    } else if p: nat, v :| FwdArrives(l, m, p, v) {
      FwdIsKnown(l, p, v);
      FwdKeepsTailClean(l, p, v);
      TailCleanWithin(RecvFwd(l, p, v), m);
    } else if p: nat, v :| AckArrives(l, m, p, v) {
      AckKeepsTailClean(l, p, v);
      TailCleanWithin(RecvAck(l, p, v), m);
    } else if p: nat, v :| SentAgain(l, m, p, v) {
      ResendKeepsTailClean(l, p, v);
      TailCleanWithin(Resend(l, p, v), m);
    } else {
      var p: nat, v :| FwdSkipped(l, m, p, v);
      FwdIsKnown(l, p, v);
      FwdKeepsTailClean(l, p, v);
      TailCleanWithin(AddFwd(SkipAt(l, p, v), p + 1, v), m);
    }
  }

  lemma AckKeepsTailClean(l: Line, p: nat, v: nat)
    requires TailClean(l) && p < |l.slots|
    ensures TailClean(RecvAck(l, p, v))
  {
  }

  lemma ResendKeepsTailClean(l: Line, p: nat, v: nat)
    requires TailClean(l) && p < |l.slots|
    ensures TailClean(Resend(l, p, v))
  {
  }

  // ---------- what the invariant gives ----------

  /** No replica is ahead of the tail, and none lacks something as new. */
  lemma TailLeadsChain(l: Line, p: nat)
    requires WeakInv(l) && p < |l.slots|
    ensures var n := |l.slots| - 1; l.slots[p].cv <= l.slots[n].cv <= l.latest && l.slots[n].cv <= Top(l.slots[p])
    ensures TailClean(l) ==> Top(l.slots[|l.slots| - 1]) == l.slots[|l.slots| - 1].cv
  {
  }

  lemma DirtyIsPending(l: Line, p: nat)
    requires DirtyAbove(l) && p < |l.slots|
    ensures l.slots[p].dirty <= l.slots[p].pend
  {
  }

  lemma NewestHasNothingDirty(l: Line, p: nat)
    requires DirtyAbove(l) && Bounded(l) && p < |l.slots|
    ensures l.slots[p].cv >= l.latest ==> l.slots[p].dirty == {}
  {
  }

  /** With nothing pending anywhere but at the tail, every replica of a chain of two or more is clean at the newest
      version; alone on the ring a replica is, if it has nothing pending. */
  lemma ChainSettled(l: Line)
    requires WeakInv(l)
    requires forall p :: 0 <= p < |l.slots| - 1 || p == 0 ==> l.slots[p].pend == {}
    ensures forall p :: 0 <= p < |l.slots| ==> l.slots[p].cv == l.latest && l.slots[p].dirty == {}
  {
    DirtyIsPending(l, 0);
    assert l.slots[0].cv == l.latest by {
      if l.latest >= 1 { assert Holds(l.slots[0], l.latest); }
    }
    forall p | 0 <= p < |l.slots| ensures l.slots[p].cv == l.latest && l.slots[p].dirty == {} {
      assert l.slots[0].cv <= l.slots[|l.slots| - 1].cv <= l.latest;
      assert l.slots[0].cv <= Top(l.slots[p]);
      if p < |l.slots| - 1 { DirtyIsPending(l, p); CleanBelowTop(l.slots[p]); } else { NewestHasNothingDirty(l, p); }
    }
  }

  lemma FreshLineWeakInv(l: Line)
    requires |l.slots| >= 1 && l.latest == 0 && l.commits == {}
    requires forall p :: 0 <= p < |l.slots| ==> l.slots[p] == Slot(0, {}, {}, {}, {})
    ensures WeakInv(l)
  {
  }

  // ---------- the other modes, and the loss of a replica ----------

  /** The chain invariant of CRAQ and CROWN is stronger. */
  lemma InvIsWeak(l: Line)
    requires Inv(l)
    ensures WeakInv(l)
  {
    hide Bounded, DirtyAbove, HeadComplete;
    forall q, p | 0 <= q < |l.slots| && 0 <= p < |l.slots| ensures l.slots[q].cv <= Top(l.slots[p]) {
      assert p < q ==> Holds(l.slots[p], l.slots[q].cv);
    }
    forall q, p, v | 0 <= q <= p < |l.slots| && v in l.slots[p].pend ensures v <= Top(l.slots[q]) {
      assert Holds(l.slots[q], v);
    }
    forall q, p, v | 0 <= q < p < |l.slots| && v in l.slots[p].fwd ensures v <= Top(l.slots[q]) {
      assert Holds(l.slots[q], v);
    }
  }

  /** In CHAIN mode the new tail must not have anything dirty. */
  ghost predicate MayDropChain(l: Line, k: nat)
    requires k < |l.slots| && |l.slots| >= 2
  {
    && (k == 0 ==> forall v :: 1 <= v <= l.latest ==> Holds(l.slots[1], v))
    && (k == |l.slots| - 1 ==> l.slots[k - 1].dirty == {})
  }

  /** A predecessor of the tail without dirty versions has committed what the tail has. */
  lemma CleanPredecessor(l: Line)
    requires WeakInv(l) && |l.slots| >= 2 && l.slots[|l.slots| - 2].dirty == {}
    ensures l.slots[|l.slots| - 2].cv == l.slots[|l.slots| - 1].cv
  {
    CleanBelowTop(l.slots[|l.slots| - 2]);
  }

  /** The weaker invariant survives wherever the committed version does and the head stays complete. */
  lemma WeakRemoval(l: Line, k: nat)
    requires WeakInv(l) && k < |l.slots| && |l.slots| >= 2 && MayDrop(l, k)
    requires k == |l.slots| - 1 ==> PendHeld(l.slots[k - 1])
    ensures WeakInv(Without(l, k))
  {
    hide Top;
    var m, n := Without(l, k), |l.slots|;
    assert forall q :: 0 <= q < |m.slots| ==> m.slots[q] == l.slots[Before(k, q)];
    WithoutBounded(l, k);
    WithoutHead(l, k);
    WithoutCovered(l, k);
    forall p, q, v | 0 <= p < q < |m.slots| && v in m.slots[p].ack ensures v <= Top(m.slots[q]) {
      assert v in l.slots[Before(k, p)].ack && v <= Top(l.slots[Before(k, q)]);
    }
    forall p, v | 0 <= p < |m.slots| - 1 && v in m.slots[p].ack ensures v <= m.slots[|m.slots| - 1].cv {
      assert v in l.slots[Before(k, p)].ack && v <= l.slots[n - 1].cv;
    }
  }

  lemma CleanHoldsPending(l: Line, p: nat)
    requires WeakInv(l) && p < |l.slots| && l.slots[p].dirty == {}
    ensures PendHeld(l.slots[p])
  {
    CleanBelowTop(l.slots[p]);
  }

  /** The invariant of CHAIN mode, with the tail clean, survives the loss of a replica in exactly these cases; the committed
      version is kept then. */
  lemma ChainRemovalExactly(l: Line, k: nat)
    requires WeakInv(l) && TailClean(l) && k < |l.slots| && |l.slots| >= 2
    ensures var m := Without(l, k);
      && (WeakInv(m) && TailClean(m) <==> MayDropChain(l, k))
      && (MayDropChain(l, k) ==> m.slots[|m.slots| - 1].cv == l.slots[|l.slots| - 1].cv)
  {
    hide WeakInv, Inv;
    var m, n := Without(l, k), |l.slots|;
    assert m.slots[n - 2] == l.slots[Before(k, n - 2)];
    if MayDropChain(l, k) {
      if k == n - 1 {
        CleanPredecessor(l);
        CleanHoldsPending(l, n - 2);
      }
      WeakRemoval(l, k);
    } else if k == 0 && WeakInv(m) {
      NewHeadComplete(l);
    }
  }

  lemma NewHeadComplete(l: Line)
    requires |l.slots| >= 2 && WeakInv(Without(l, 0))
    ensures forall v :: 1 <= v <= l.latest ==> Holds(l.slots[1], v)
  {
    hide Matched, Bounded, DirtyAbove, TailLeads, Covered, Earned, Holds;
    var m := Without(l, 0);
    assert m.slots[0] == l.slots[1];
  }

  lemma WithoutCovered(l: Line, k: nat)
    requires Matched(l) && Covered(l) && k < |l.slots|
    ensures Matched(Without(l, k)) && Covered(Without(l, k))
  {
    hide Top;
    var m := Without(l, k);
    forall q, p | 0 <= q < |m.slots| && 0 <= p < |m.slots| ensures m.slots[q].cv <= Top(m.slots[p]) {
      assert l.slots[Before(k, q)].cv <= Top(l.slots[Before(k, p)]);
    }
    forall q, p, v | 0 <= q <= p < |m.slots| && v in m.slots[p].pend ensures v <= Top(m.slots[q]) {
      assert v in l.slots[Before(k, p)].pend && v <= Top(l.slots[Before(k, q)]);
    }
    forall q, p, v | 0 <= q < p < |m.slots| && v in m.slots[p].fwd ensures v <= Top(m.slots[q]) {
      assert v in l.slots[Before(k, p)].fwd && v <= Top(l.slots[Before(k, q)]);
    }
  }
}
