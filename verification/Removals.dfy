/** A member is taken out while writes are in flight: the way in which the system recovers from a failed server. In
    CRAQ and CHAIN mode the chain of every key loses one replica; in CROWN mode all heads would move. */
module Removals {
  import opened Types
  import opened Rings
  import opened Stores
  import opened Handlers
  import opened Clusters
  import opened Views
  import opened Simulation
  import opened Steps
  import opened Invariants
  import opened Members
  import opened AllModes
  import opened Switching
  import ChainLines
  import Lines

  /** The state after the remaining members have heard of the smaller ring. */
  function Shrink(c: Cluster, seat: nat, epoch: nat): Cluster
    requires seat < |c.ring.members|
  {
    Install(c, Shrunk(c.ring, seat, epoch), map[])
  }

  lemma ShrinkOnlyRing(c: Cluster, seat: nat, epoch: nat)
    requires seat < |c.ring.members|
    ensures Shrink(c, seat, epoch) == c.(ring := Shrunk(c.ring, seat, epoch))
  {
    assert Shrink(c, seat, epoch).servers == c.servers;
  }

  lemma ShrunkSeats(r: Ring, seat: nat, epoch: nat)
    requires r.Valid() && seat < |r.members| && |r.members| >= 2
    ensures Shrunk(r, seat, epoch).Valid()
    ensures forall q :: 0 <= q < |r.members| - 1 ==>
      Shrunk(r, seat, epoch).members[q] == r.members[Lines.Before(seat, q)]
  {
    var s := Shrunk(r, seat, epoch).members;
    forall q | 0 <= q < |r.members| - 1 ensures s[q] == r.members[Lines.Before(seat, q)] { }
    forall i, j | 0 <= i < j < |s| ensures s[i] != s[j] {
      assert Lines.Before(seat, i) < Lines.Before(seat, j);
    }
  }

  lemma ShrunkMembers(r: Ring, seat: nat, epoch: nat)
    requires r.Valid() && seat < |r.members| && |r.members| >= 2
    ensures Shrunk(r, seat, epoch).Valid()
    ensures forall q :: 0 <= q < |r.members| - 1 ==>
      Shrunk(r, seat, epoch).members[q] == r.members[Lines.Before(seat, q)]
    ensures forall x :: x in Shrunk(r, seat, epoch).members <==> x in r.members && x != r.members[seat]
  {
    ShrunkSeats(r, seat, epoch);
    var s := Shrunk(r, seat, epoch).members;
    assert |s| == |r.members| - 1;
    hide Shrunk;
    forall x ensures x in s <==> x in r.members && x != r.members[seat] {
      if x in s {
        var q :| 0 <= q < |s| && s[q] == x;
        assert r.members[Lines.Before(seat, q)] == x;
      }
      if x in r.members && x != r.members[seat] {
        var i :| 0 <= i < |r.members| && r.members[i] == x;
        var q := if i < seat then i else i - 1;
        assert Lines.Before(seat, q) == i && s[q] == x;
      }
    }
  }

  lemma ShrinkShape(c: Cluster, seat: nat, epoch: nat)
    requires Shape(c) && seat < |c.ring.members| && |c.ring.members| >= 2
    ensures Shape(Shrink(c, seat, epoch))
  {
    ShrunkMembers(c.ring, seat, epoch);
    ShrinkOnlyRing(c, seat, epoch);
  }

  /** With one head for all keys, the chain of every key just loses the removed replica. */
  lemma ShrinkView(c: Cluster, seat: nat, epoch: nat, key: Key)
    requires Shape(c) && c.ring.mode != CROWN && seat < |c.ring.members| && |c.ring.members| >= 2
    ensures Shape(Shrink(c, seat, epoch)) && |View(c, key).slots| == |c.ring.members|
    ensures View(Shrink(c, seat, epoch), key) == Lines.Without(View(c, key), seat)
  {
    hide SlotOf, CommitsOf, View, Install;
    ShrinkShape(c, seat, epoch);
    ShrunkMembers(c.ring, seat, epoch);
    ShrinkOnlyRing(c, seat, epoch);
    var d := Shrink(c, seat, epoch);
    ViewParts(c, key);
    ViewParts(d, key);
    var l, m := View(c, key), View(d, key);
    forall q | 0 <= q < |m.slots| ensures m.slots[q] == Lines.Without(l, seat).slots[q] {
      var y := d.ring.NodeAt(key, q);
      assert y == c.ring.NodeAt(key, Lines.Before(seat, q));
      SlotServer(c, y);
      SameSlot(c, d, y, key);
    }
    assert m.slots == Lines.Without(l, seat).slots;
  }

  lemma SlotServer(c: Cluster, x: NodeId)
    requires Shape(c) && x in c.ring.members
    ensures x in c.servers
  {
  }

  lemma SameSlot(c: Cluster, d: Cluster, x: NodeId, key: Key)
    requires x in c.servers && d.servers == c.servers && d.net == c.net && d.ring.mode == c.ring.mode
    ensures SlotOf(d, x, key) == SlotOf(c, x, key)
  {
  }

  lemma MayDropAt(c: Cluster, seat: nat, key: Key)
    requires Shape(c) && c.ring.mode != CROWN && seat < |c.ring.members| && |c.ring.members| >= 2
    ensures |View(c, key).slots| == |c.ring.members|
    ensures MayGo(c, seat, key) <==>
      if c.ring.mode == CHAIN then ChainLines.MayDropChain(View(c, key), seat) else Lines.MayDrop(View(c, key), seat)
  {
    hide PendOf, FwdOf, AckOf, CommitsOf;
    var n := |c.ring.members|;
    var l := View(c, key);
    assert c.ring.NodeAt(key, 1) == c.ring.members[1] && c.ring.NodeAt(key, n - 2) == c.ring.members[n - 2];
    assert c.ring.NodeAt(key, n - 1) == c.ring.members[n - 1];
    forall v: nat ensures Lines.Holds(l.slots[1], v) <==> HoldsAt(c.servers[c.ring.members[1]].store, key, v) { }
    var dirty := DirtyAt(c.servers[c.ring.members[n - 2]].store, key);
    assert l.slots[n - 2].dirty == dirty.Keys;
    assert dirty == map[] <==> dirty.Keys == {};
  }

  lemma ShrinkKeepsGenuine(c: Cluster, seat: nat, epoch: nat)
    requires Genuine(c) && seat < |c.ring.members|
    ensures Genuine(Shrink(c, seat, epoch))
  {
    InstallKeepsGenuine(c, Shrunk(c.ring, seat, epoch), map[]);
  }

  /** Where the committed versions of the smaller ring come from. */
  lemma ShrinkTail(c: Cluster, seat: nat, epoch: nat, key: Key)
    requires Shape(c) && c.ring.mode != CROWN && seat < |c.ring.members| && |c.ring.members| >= 2
    ensures Shape(Shrink(c, seat, epoch)) && |View(c, key).slots| == |c.ring.members|
    ensures var m := Lines.Without(View(c, key), seat);
      && TailVersion(Shrink(c, seat, epoch), key) == m.slots[|m.slots| - 1].cv
      && TailVersion(c, key) == View(c, key).slots[|c.ring.members| - 1].cv
  {
    hide View;
    ShrinkView(c, seat, epoch, key);
    ShrinkOnlyRing(c, seat, epoch);
    TailSlot(c, key);
    TailSlot(Shrink(c, seat, epoch), key);
  }

  /** What a client sees: the committed version of a key outlives a member exactly if that member is not the tail, or its
      predecessor has committed as much. */
  lemma CommittedSurvives(c: Cluster, seat: nat, epoch: nat, key: Key)
    requires Shape(c) && c.ring.mode != CROWN && seat < |c.ring.members| && |c.ring.members| >= 2
    ensures Shape(Shrink(c, seat, epoch))
    ensures TailVersion(Shrink(c, seat, epoch), key) == TailVersion(c, key) <==>
            (seat == |c.ring.members| - 1 ==> SameCommitted(c, c.ring.members[seat - 1], c.ring.members[seat], key))
  {
    hide SlotOf, TailVersion, Install;
    ShrinkTail(c, seat, epoch, key);
    var n := |c.ring.members|;
    ViewParts(c, key);
    assert c.ring.NodeAt(key, n - 1) == c.ring.members[n - 1] && c.ring.NodeAt(key, n - 2) == c.ring.members[n - 2];
    SlotClean(c, c.ring.members[n - 1], key);
    SlotClean(c, c.ring.members[n - 2], key);
  }

  lemma SlotClean(c: Cluster, x: NodeId, key: Key)
    requires x in c.servers
    ensures SlotOf(c, x, key).cv == CleanVersion(c.servers[x].store, key)
  {
  }

  lemma ModeParts(c: Cluster, key: Key)
    requires ModeInv(c)
    ensures Shape(c) && ChainLines.WeakInv(View(c, key))
    ensures if c.ring.mode == CHAIN then ChainLines.TailClean(View(c, key)) else Lines.Inv(View(c, key))
  {
    BaseParts(c, key);
  }

  lemma ChainRemovalAt(c: Cluster, seat: nat, epoch: nat, key: Key)
    requires Shape(c) && ChainLines.WeakInv(View(c, key)) && ChainLines.TailClean(View(c, key))
    requires c.ring.mode == CHAIN && seat < |c.ring.members| && |c.ring.members| >= 2
    ensures Shape(Shrink(c, seat, epoch))
    ensures MayGo(c, seat, key) <==>
      var m := View(Shrink(c, seat, epoch), key); ChainLines.WeakInv(m) && ChainLines.TailClean(m)
    ensures MayGo(c, seat, key) ==> TailVersion(Shrink(c, seat, epoch), key) == TailVersion(c, key)
  {
    hide *;
    ShrinkView(c, seat, epoch, key);
    ShrinkTail(c, seat, epoch, key);
    MayDropAt(c, seat, key);
    ChainLines.ChainRemovalExactly(View(c, key), seat);
  }

  lemma StrongRemovalAt(c: Cluster, seat: nat, epoch: nat, key: Key)
    requires Shape(c) && Lines.Inv(View(c, key))
    requires c.ring.mode == CRAQ && seat < |c.ring.members| && |c.ring.members| >= 2
    ensures Shape(Shrink(c, seat, epoch))
    ensures MayGo(c, seat, key) <==>
      Lines.Inv(View(Shrink(c, seat, epoch), key)) && TailVersion(Shrink(c, seat, epoch), key) == TailVersion(c, key)
    ensures MayGo(c, seat, key) ==> ChainLines.WeakInv(View(Shrink(c, seat, epoch), key))
  {
    hide *;
    ShrinkView(c, seat, epoch, key);
    ShrinkTail(c, seat, epoch, key);
    MayDropAt(c, seat, key);
    StrongRemoval(View(c, key), seat);
  }

  lemma StrongRemoval(l: Lines.Line, k: nat)
    requires Lines.Inv(l) && k < |l.slots| && |l.slots| >= 2
    ensures var m := Lines.Without(l, k);
      && (Lines.Inv(m) && m.slots[|m.slots| - 1].cv == l.slots[|l.slots| - 1].cv <==> Lines.MayDrop(l, k))
      && (Lines.MayDrop(l, k) ==> ChainLines.WeakInv(m))
  {
    hide Lines.Inv, Lines.MayDrop, ChainLines.WeakInv;
    Lines.RemovalExactly(l, k);
    if Lines.MayDrop(l, k) { ChainLines.InvIsWeak(Lines.Without(l, k)); }
  }

  lemma ModeFromParts(d: Cluster)
    requires Shape(d) && Genuine(d) && forall key :: ChainLines.WeakInv(View(d, key))
    requires d.ring.mode == CHAIN ==> forall key :: ChainLines.TailClean(View(d, key))
    requires d.ring.mode != CHAIN ==> forall key :: Lines.Inv(View(d, key))
    ensures ModeInv(d)
  {
    hide Genuine, View, ChainLines.WeakInv, ChainLines.TailClean, Lines.Inv;
  }

  lemma ShrinkMode(c: Cluster, seat: nat, epoch: nat)
    requires seat < |c.ring.members|
    ensures Shrink(c, seat, epoch).ring.mode == c.ring.mode
  {
    hide Install;
    ShrinkOnlyRing(c, seat, epoch);
  }

  lemma ModeIsGenuine(c: Cluster)
    requires ModeInv(c)
    ensures Shape(c) && Genuine(c)
  {
    BaseParts(c, []);
  }

  /** Whoever may go can be lost. */
  lemma GoneKeepsMode(c: Cluster, seat: nat, epoch: nat)
    requires ModeInv(c) && c.ring.mode != CROWN && seat < |c.ring.members| && |c.ring.members| >= 2
    requires forall key :: MayGo(c, seat, key)
    ensures Shape(c) && Shape(Shrink(c, seat, epoch)) && ModeInv(Shrink(c, seat, epoch))
    ensures forall key :: TailVersion(Shrink(c, seat, epoch), key) == TailVersion(c, key)
  {
    hide *;
    ModeIsGenuine(c);
    ShrinkShape(c, seat, epoch);
    ShrinkKeepsGenuine(c, seat, epoch);
    ShrinkMode(c, seat, epoch);
    var d := Shrink(c, seat, epoch);
    forall key
      ensures ChainLines.WeakInv(View(d, key)) && TailVersion(d, key) == TailVersion(c, key)
      ensures if d.ring.mode == CHAIN then ChainLines.TailClean(View(d, key)) else Lines.Inv(View(d, key))
    {
      ModeParts(c, key);
      if c.ring.mode == CHAIN { ChainRemovalAt(c, seat, epoch, key); } else { StrongRemovalAt(c, seat, epoch, key); }
    }
    ModeFromParts(d);
  }

  /** Whoever can be lost may go. */
  lemma KeptModeGoes(c: Cluster, seat: nat, epoch: nat, key: Key)
    requires ModeInv(c) && c.ring.mode != CROWN && seat < |c.ring.members| && |c.ring.members| >= 2
    requires ModeInv(Shrink(c, seat, epoch)) && Shape(c) && Shape(Shrink(c, seat, epoch))
    requires TailVersion(Shrink(c, seat, epoch), key) == TailVersion(c, key)
    ensures MayGo(c, seat, key)
  {
    hide *;
    ShrinkMode(c, seat, epoch);
    ModeParts(c, key);
    ModeParts(Shrink(c, seat, epoch), key);
    if c.ring.mode == CHAIN { ChainRemovalAt(c, seat, epoch, key); } else { StrongRemovalAt(c, seat, epoch, key); }
  }

  /** When a member can be lost: with any writes in flight, the smaller ring satisfies the invariant of its mode and the
      committed version of every key survives exactly if the member is neither head nor tail, or it is the head and its
      successor has every version, or it is the tail and its predecessor has committed as much and, in CHAIN mode, has
      nothing dirty. */
  lemma RemovalExactly(c: Cluster, seat: nat, epoch: nat)
    requires ModeInv(c) && c.ring.mode != CROWN && seat < |c.ring.members| && |c.ring.members| >= 2
    ensures Shape(c) && Shape(Shrink(c, seat, epoch))
    ensures var d := Shrink(c, seat, epoch);
      ModeInv(d) && (forall key :: TailVersion(d, key) == TailVersion(c, key)) <==> forall key :: MayGo(c, seat, key)
  {
    hide *;
    ModeIsGenuine(c);
    ShrinkShape(c, seat, epoch);
    var d := Shrink(c, seat, epoch);
    if forall key :: MayGo(c, seat, key) {
      GoneKeepsMode(c, seat, epoch);
    }
    if ModeInv(d) && (forall key :: TailVersion(d, key) == TailVersion(c, key)) {
      forall key ensures MayGo(c, seat, key) { KeptModeGoes(c, seat, epoch, key); }
    }
  }

  lemma RemoveParts(c: Cluster, seat: nat, epoch: nat, resend: seq<Resend>)
    requires Enabled(c, Remove(seat, epoch, resend))
    ensures c.ring.mode != CROWN && |c.ring.members| >= 2 && seat < |c.ring.members|
    ensures forall key :: MayGo(c, seat, key)
    ensures epoch > c.ring.epoch
    ensures forall k :: 0 <= k < |resend| ==> resend[k].node in Shrunk(c.ring, seat, epoch).members
    ensures Apply(c, Remove(seat, epoch, resend)) == ReforwardAll(Shrink(c, seat, epoch), resend)
  {
  }

  /** The removal of a member, with writes in flight and everything pending sent on again, keeps the invariant and touches no
      store. */
  lemma RemovalKeepsMode(c: Cluster, seat: nat, epoch: nat, resend: seq<Resend>)
    requires ModeInv(c) && Enabled(c, Remove(seat, epoch, resend))
    ensures var d := Apply(c, Remove(seat, epoch, resend));
      && seat < |c.ring.members| && |c.ring.members| >= 2
      && ModeInv(d) && d.ring == Shrunk(c.ring, seat, epoch) && d.hist == c.hist && d.servers.Keys == c.servers.Keys
      && (forall x :: x in c.servers ==> d.servers[x].store == c.servers[x].store)
  {
    hide ModeInv, Apply, Enabled, ReforwardAll, Install;
    RemoveParts(c, seat, epoch, resend);
    RemovalExactly(c, seat, epoch);
    ShrinkOnlyRing(c, seat, epoch);
    ReforwardAllKeepsMode(Shrink(c, seat, epoch), resend);
  }

  lemma SameStoresSameTail(c: Cluster, d: Cluster, key: Key)
    requires Shape(c) && Shape(d) && d.ring == c.ring && forall x :: x in c.servers && x in d.servers ==>
      d.servers[x].store == c.servers[x].store
    ensures TailVersion(d, key) == TailVersion(c, key)
  {
  }

  /** The committed version of every key stays. */
  lemma RemovalKeepsTail(c: Cluster, seat: nat, epoch: nat, resend: seq<Resend>, key: Key)
    requires ModeInv(c) && Enabled(c, Remove(seat, epoch, resend))
    ensures var d := Apply(c, Remove(seat, epoch, resend));
      Shape(c) && Shape(d) && TailVersion(c, key) == TailVersion(d, key)
  {
    hide ModeInv, Apply, Enabled, View, TailVersion, MayGo, ReforwardAll, Install;
    var d := Apply(c, Remove(seat, epoch, resend));
    RemovalKeepsMode(c, seat, epoch, resend);
    ModeShape(d);
    RemoveParts(c, seat, epoch, resend);
    RemovalExactly(c, seat, epoch);
    ShrinkOnlyRing(c, seat, epoch);
    SameStoresSameTail(Shrink(c, seat, epoch), d, key);
  }

  lemma ModeShape(c: Cluster)
    requires ModeInv(c)
    ensures Shape(c)
  {
  }
}
