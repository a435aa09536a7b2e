/** Settled reconfiguration: a switch of membership, order or mode while nothing is dirty. */
module Switching {
  import opened Types
  import opened Rings
  import opened Stores
  import opened Handlers
  import opened Clusters
  import opened Views
  import opened Simulation
  import opened Steps
  import opened Invariants
  import opened Members
  import opened AllModes
  import ChainLines
  import Lines

  lemma SettledHead(l: Lines.Line)
    requires ChainLines.WeakInv(l) && l.slots[0].dirty == {}
    ensures l.slots[0].cv == l.latest
  {
    if l.latest >= 1 { assert Lines.Holds(l.slots[0], l.latest); }
  }

  /** In a settled state, the members' clean version of every key is the newest there is. */
  lemma SettledIsNewest(c: Cluster, x: NodeId, key: Key)
    requires Base(c) && Settled(c) && x in c.ring.members
    ensures x in c.servers && CleanVersion(c.servers[x].store, key) == |Hist(c, key)|
    ensures DirtyAt(c.servers[x].store, key) == map[]
  {
    hide Base, ChainLines.WeakInv, View;
    BaseParts(c, key);
    var y := c.ring.NodeAt(key, 0);
    Positions(c.ring, key, 0);
    ChainLines.SomeSlot(View(c, key));
    var p := MemberSlot(c, y, key);
    NodesDistinct(c.ring, key, p, 0);
    assert DirtyAt(c.servers[y].store, key).Keys == {};
    SettledHead(View(c, key));
    assert At(c.servers[x].store, key).clean == At(c.servers[y].store, key).clean;
  }

  lemma DumpedIsGood(h: map<Key, seq<Write>>, t: Store, s: Store)
    requires GoodStore(h, t) && GoodStore(h, s)
    ensures GoodStore(h, ApplyDump(t, s))
  {
    var u := ApplyDump(t, s);
    SnapshotKeepsValid(t, DumpValues(s), DumpVersions(s));
    forall k ensures At(u, k) == Merge(At(t, k), At(s, k).clean) { DumpAt(t, s, k); }
    DumpIsGood(h, t, s);
  }

  /** A dump from a store that has the newest version of a key clean leaves just that. */
  lemma DumpedIsNewest(h: map<Key, seq<Write>>, t: Store, s: Store, key: Key)
    requires GoodStore(h, t) && GoodStore(h, s)
    requires CleanVersion(s, key) == if key in h then |h[key]| else 0
    ensures var u := ApplyDump(t, s); CleanVersion(u, key) == CleanVersion(s, key) && DirtyAt(u, key) == map[]
  {
    hide GoodRecord;
    SnapshotIsMaximum(t, s, key);
    DirtyIsKnown(h, t, key);
    DirtyIsKnown(h, s, key);
    hide GoodStore;
    var u := ApplyDump(t, s);
    forall v ensures v !in DirtyAt(u, key) {
      assert v in DirtyAt(u, key) <==> v in DirtyAt(t, key) && (key in s.clean ==> v > s.clean[key].version);
    }
  }

  lemma DirtyIsKnown(h: map<Key, seq<Write>>, s: Store, key: Key)
    requires GoodStore(h, s)
    ensures forall v :: v in DirtyAt(s, key) ==> key in h && 1 <= v <= |h[key]|
    ensures key in s.clean ==> key in h && 1 <= CleanVersion(s, key) <= |h[key]|
  {
    forall v | v in DirtyAt(s, key) ensures key in h && 1 <= v <= |h[key]| {
      assert GoodRecord(h, key, s.dirty[key][v]);
    }
  }

  lemma MergedRecords(h: map<Key, seq<Write>>, t: Store, s: Store, u: Store, k: Key)
    requires GoodStore(h, t) && GoodStore(h, s) && At(u, k) == Merge(At(t, k), At(s, k).clean)
    ensures k in u.clean ==> GoodRecord(h, k, u.clean[k])
    ensures forall v :: k in u.dirty && v in u.dirty[k] ==> GoodRecord(h, k, u.dirty[k][v])
  {
    hide GoodRecord;
    forall v | k in u.dirty && v in u.dirty[k] ensures GoodRecord(h, k, u.dirty[k][v]) {
      assert k in t.dirty && v in t.dirty[k] && u.dirty[k][v] == t.dirty[k][v];
    }
  }

  lemma DumpIsGood(h: map<Key, seq<Write>>, t: Store, s: Store)
    requires GoodStore(h, t) && GoodStore(h, s) && Valid(ApplyDump(t, s))
    requires forall k :: At(ApplyDump(t, s), k) == Merge(At(t, k), At(s, k).clean)
    ensures GoodStore(h, ApplyDump(t, s))
  {
    hide GoodRecord, ApplyDump, Merge, At, Valid;
    var u := ApplyDump(t, s);
    forall k
      ensures k in u.clean ==> GoodRecord(h, k, u.clean[k])
      ensures forall v :: k in u.dirty && v in u.dirty[k] ==> GoodRecord(h, k, u.dirty[k][v])
    {
      MergedRecords(h, t, s, u, k);
    }
  }

  // ---------- installing a ring ----------

  /** Every dump was given by a member. */
  predicate DumpsFromMembers(c: Cluster, dumps: map<NodeId, NodeId>) {
    forall x :: x in dumps ==> dumps[x] in c.ring.members && dumps[x] in c.servers
  }

  lemma EntryIsGood(c: Cluster, x: NodeId, dumps: map<NodeId, NodeId>)
    requires Genuine(c) && x in c.servers && DumpsUp(c, dumps)
    ensures GoodStore(c.hist, EntryStore(c, x, dumps))
  {
    hide GoodStore, ApplyDump, GoodTable, GoodNet, UniqueIds;
    assert GoodServer(c.hist, c.servers[x]);
    if x in dumps {
      assert GoodServer(c.hist, c.servers[dumps[x]]);
      DumpedIsGood(c.hist, c.servers[x].store, c.servers[dumps[x]].store);
    }
  }

  /** Whatever is installed, the data stays genuine. */
  lemma InstallKeepsGenuine(c: Cluster, ring: Ring, dumps: map<NodeId, NodeId>)
    requires Genuine(c) && DumpsUp(c, dumps)
    ensures Genuine(Install(c, ring, dumps))
  {
    hide GoodStore, GoodTable, GoodNet, UniqueIds;
    var d := Install(c, ring, dumps);
    forall x | x in d.servers ensures GoodServer(d.hist, d.servers[x]) {
      assert GoodServer(c.hist, c.servers[x]);
      EntryIsGood(c, x, dumps);
      forall mode ensures GoodTable(d.hist, TableOf(d.servers[x], mode)) {
        assert TableOf(d.servers[x], mode) == TableOf(c.servers[x], mode);
      }
    }
  }

  lemma NewestHasNoDirty(h: map<Key, seq<Write>>, s: Store, key: Key)
    requires GoodStore(h, s) && CleanVersion(s, key) == if key in h then |h[key]| else 0
    ensures DirtyAt(s, key) == map[]
  {
    DirtyIsKnown(h, s, key);
    forall v ensures v !in DirtyAt(s, key) {
      assert v in DirtyAt(s, key) ==> v > CleanVersion(s, key);
    }
  }

  /** A member of the new ring holds exactly the committed records: it is an old member, or it took over a dump of one,
      or it was up to date already. */
  lemma EntryIsNewest(c: Cluster, ring: Ring, dumps: map<NodeId, NodeId>, x: NodeId, key: Key)
    requires Base(c) && Settled(c) && DumpsFromMembers(c, dumps) && EntrantsReady(c, ring, dumps)
    requires x in ring.members && x in c.servers
    ensures var s := EntryStore(c, x, dumps);
      && GoodStore(c.hist, s)
      && CleanVersion(s, key) == |Hist(c, key)|
      && DirtyAt(s, key) == map[]
  {
    BaseParts(c, key);
    hide Base, GoodStore, CleanVersion, DirtyAt, ApplyDump, GoodNet, UniqueIds, GoodTable, Settled;
    EntryIsGood(c, x, dumps);
    assert GoodServer(c.hist, c.servers[x]);
    if x in c.ring.members {
      SettledIsNewest(c, x, key);
    } else if x in dumps {
      assert GoodServer(c.hist, c.servers[dumps[x]]);
      SettledIsNewest(c, dumps[x], key);
      DumpedIsNewest(c.hist, c.servers[x].store, c.servers[dumps[x]].store, key);
    } else {
      NewestHasNoDirty(c.hist, c.servers[x].store, key);
    }
  }

  lemma PendingIsKnown(h: map<Key, seq<Write>>, table: Table, net: seq<Message>, x: NodeId, key: Key)
    requires GoodTable(h, table) && GoodNet(h, net)
    ensures var latest := if key in h then |h[key]| else 0;
      && Known(latest, PendOf(table, key)) && Known(latest, FwdOf(net, x, key))
      && Known(latest, AckOf(net, x, key)) && Known(latest, CommitsOf(net, key))
  {
  }

  predicate Known(latest: nat, versions: set<nat>) {
    forall v :: v in versions ==> 1 <= v <= latest
  }

  ghost predicate SettledSlot(c: Cluster, key: Key, p: nat)
    requires Shape(c) && p < |c.ring.members|
  {
    var slot := SlotOf(c, c.ring.NodeAt(key, p), key);
    && slot.cv == |Hist(c, key)| && slot.dirty == {}
    && Known(|Hist(c, key)|, slot.pend) && Known(|Hist(c, key)|, slot.fwd) && Known(|Hist(c, key)|, slot.ack)
  }

  lemma ViewParts(c: Cluster, key: Key)
    requires Shape(c)
    ensures var l := View(c, key);
      && l.latest == |Hist(c, key)| && l.commits == CommitsOf(c.net, key) && |l.slots| == |c.ring.members| >= 1
      && forall p :: 0 <= p < |l.slots| ==> l.slots[p] == SlotOf(c, c.ring.NodeAt(key, p), key)
  {
  }

  lemma SettledSlotsInv(c: Cluster, key: Key)
    requires Shape(c) && forall p :: 0 <= p < |c.ring.members| ==> SettledSlot(c, key, p)
    requires Known(|Hist(c, key)|, CommitsOf(c.net, key))
    ensures Lines.Inv(View(c, key)) && ChainLines.TailClean(View(c, key))
  {
    hide SlotOf, CommitsOf, View;
    var l := View(c, key);
    ViewParts(c, key);
    forall p | 0 <= p < |l.slots|
      ensures l.slots[p].cv == l.latest && l.slots[p].dirty == {}
      ensures Known(l.latest, l.slots[p].pend) && Known(l.latest, l.slots[p].fwd) && Known(l.latest, l.slots[p].ack)
    {
      assert SettledSlot(c, key, p);
    }
    Lines.SettledLineInv(l);
  }

  lemma CommitsAreKnown(c: Cluster, key: Key)
    requires Genuine(c)
    ensures Known(|Hist(c, key)|, CommitsOf(c.net, key))
  {
    PendingIsKnown(c.hist, map[], c.net, "", key);
  }

  lemma InstallShape(c: Cluster, ring: Ring, dumps: map<NodeId, NodeId>)
    requires DumpsUp(c, dumps) && ring.Valid() && forall x :: x in ring.members ==> x in c.servers
    ensures Shape(Install(c, ring, dumps)) && Install(c, ring, dumps).ring == ring
  {
  }

  /** A member of the installed ring: clean at the newest version, and whatever old traffic and old pending writes
      concern it are of known versions. */
  lemma InstalledSlot(c: Cluster, ring: Ring, dumps: map<NodeId, NodeId>, key: Key, p: nat)
    requires Base(c) && Settled(c) && DumpsFromMembers(c, dumps) && EntrantsReady(c, ring, dumps) && p < |ring.members|
    requires Shape(Install(c, ring, dumps)) && Genuine(Install(c, ring, dumps))
    ensures SettledSlot(Install(c, ring, dumps), key, p)
  {
    hide FwdOf, AckOf, CommitsOf, PendOf, Base, View, GoodTable, GoodStore, GoodNet, UniqueIds, Settled, EntrantsReady;
    var d := Install(c, ring, dumps);
    var x := ring.NodeAt(key, p);
    assert x in ring.members;
    assert x in d.servers && x in c.servers;
    EntryIsNewest(c, ring, dumps, x, key);
    assert GoodServer(d.hist, d.servers[x]);
    PendingIsKnown(d.hist, TableOf(d.servers[x], ring.mode), d.net, x, key);
    assert DirtyAt(d.servers[x].store, key).Keys == {};
    var slot := SlotOf(d, x, key);
    assert slot.cv == |Hist(c, key)| && slot.dirty == {};
    assert slot.pend == PendOf(TableOf(d.servers[x], ring.mode), key);
    assert slot.fwd == FwdOf(d.net, x, key) && slot.ack == AckOf(d.net, x, key);
  }

  /** On the chain of every key the installed ring satisfies the strong invariant, with all old traffic still around. */
  lemma InstallChainInv(c: Cluster, ring: Ring, dumps: map<NodeId, NodeId>, key: Key)
    requires Base(c) && Settled(c) && DumpsFromMembers(c, dumps) && EntrantsReady(c, ring, dumps)
    requires ring.Valid() && forall x :: x in ring.members ==> x in c.servers
    ensures Shape(Install(c, ring, dumps)) && Lines.Inv(View(Install(c, ring, dumps), key))
    ensures ChainLines.TailClean(View(Install(c, ring, dumps), key))
  {
    BaseParts(c, key);
    hide Base, Genuine, Settled, SlotOf, Lines.Inv, View, Install, EntrantsReady;
    InstallShape(c, ring, dumps);
    InstallKeepsGenuine(c, ring, dumps);
    var d := Install(c, ring, dumps);
    forall p | 0 <= p < |ring.members| ensures SettledSlot(d, key, p) { InstalledSlot(c, ring, dumps, key, p); }
    CommitsAreKnown(d, key);
    SettledSlotsInv(d, key);
  }

  lemma SameVersionSameRecord(h: map<Key, seq<Write>>, s: Store, t: Store, key: Key)
    requires GoodStore(h, s) && GoodStore(h, t) && CleanVersion(s, key) == CleanVersion(t, key)
    ensures At(s, key).clean == At(t, key).clean
  {
    DirtyIsKnown(h, s, key);
    DirtyIsKnown(h, t, key);
  }

  /** Same records everywhere: the new members' stores agree and nothing is dirty. */
  lemma InstallSettled(c: Cluster, ring: Ring, dumps: map<NodeId, NodeId>)
    requires Base(c) && Settled(c) && DumpsFromMembers(c, dumps) && EntrantsReady(c, ring, dumps)
    requires forall x :: x in ring.members ==> x in c.servers
    ensures Settled(Install(c, ring, dumps))
  {
    hide Base, GoodStore, EntrantsReady, EntryStore;
    var d := Install(c, ring, dumps);
    forall x, y, key | x in ring.members && y in ring.members
      ensures At(d.servers[x].store, key).clean == At(d.servers[y].store, key).clean
    {
      EntryIsNewest(c, ring, dumps, x, key);
      EntryIsNewest(c, ring, dumps, y, key);
      SameVersionSameRecord(c.hist, d.servers[x].store, d.servers[y].store, key);
    }
    forall x, key | x in ring.members ensures DirtyAt(d.servers[x].store, key) == map[] {
      EntryIsNewest(c, ring, dumps, x, key);
    }
  }

  lemma InstallKeepsMode(c: Cluster, ring: Ring, dumps: map<NodeId, NodeId>)
    requires Base(c) && Settled(c) && DumpsFromMembers(c, dumps) && EntrantsReady(c, ring, dumps)
    requires ring.Valid() && forall x :: x in ring.members ==> x in c.servers
    ensures ModeInv(Install(c, ring, dumps))
  {
    BaseParts(c, []);
    hide Lines.Inv, ChainLines.WeakInv, ChainLines.TailClean, View, Settled, EntrantsReady, Install, Genuine;
    var d := Install(c, ring, dumps);
    InstallShape(c, ring, dumps);
    InstallKeepsGenuine(c, ring, dumps);
    forall key ensures Lines.Inv(View(d, key)) && ChainLines.WeakInv(View(d, key)) && ChainLines.TailClean(View(d, key)) {
      InstallChainInv(c, ring, dumps, key);
      ChainLines.InvIsWeak(View(d, key));
    }
  }

  /** When a settled switch works: in a settled state, any ring of servers that are up can be installed, and the result
      satisfies the invariant of its mode and is settled again exactly if every server that enters without a dump has the
      newest version of every key already. */
  lemma SwitchExactly(c: Cluster, ring: Ring, dumps: map<NodeId, NodeId>)
    requires Base(c) && Settled(c) && DumpsFromMembers(c, dumps)
    requires ring.Valid() && forall x :: x in ring.members ==> x in c.servers
    ensures var d := Install(c, ring, dumps);
      ModeInv(d) && Settled(d) <==> EntrantsReady(c, ring, dumps)
  {
    var d := Install(c, ring, dumps);
    if EntrantsReady(c, ring, dumps) {
      hide Base, Settled;
      InstallKeepsMode(c, ring, dumps);
      InstallSettled(c, ring, dumps);
    } else if ModeInv(d) && Settled(d) {
      hide Base, Settled;
      forall x, key | x in ring.members && x !in c.ring.members && x !in dumps && x in c.servers
        ensures CleanVersion(c.servers[x].store, key) == |Hist(c, key)|
      {
        SettledIsNewest(d, x, key);
      }
      assert false;
    }
  }

  // ---------- re-forwarding the pending writes ----------

  lemma ReforwardKeepsMode(c: Cluster, r: Resend)
    requires ModeInv(c) && r.node in c.ring.members
    ensures ModeInv(Reforward(c, r)) && Reforward(c, r).ring == c.ring && Reforward(c, r).hist == c.hist
    ensures Reforward(c, r).servers.Keys == c.servers.Keys
    ensures forall x :: x in c.servers ==> Reforward(c, r).servers[x].store == c.servers[x].store
  {
    hide Lines.Inv, ChainLines.WeakInv, ChainLines.TailClean, Lines.Step, GoodStore, GoodMessage, UniqueIds, PendOf, View;
    var x := r.node;
    if r.id in TableOf(c.servers[x], c.ring.mode) {
      var local := LocalOf(c.servers[x], c.ring.mode);
      assert GoodServer(c.hist, c.servers[x]);
      SendAgainKeepsGenuine(c, x, local, r.id);
      SendsAgain(c, x, local, r.id, []);
      var d := Reforward(c, r);
      forall key
        ensures ChainLines.WeakInv(View(d, key))
        ensures if c.ring.mode == CHAIN then ChainLines.TailClean(View(d, key)) else Lines.Inv(View(d, key))
      {
        SendsAgain(c, x, local, r.id, key);
        BaseParts(c, key);
        ChainLines.SomeSlot(View(c, key));
        ChainLines.ChainStepKeepsInv(View(c, key), View(d, key));
        if c.ring.mode == CHAIN {
          ChainLines.ChainStepKeepsTailClean(View(c, key), View(d, key));
        } else {
          assert Lines.Inv(View(c, key));
          Lines.StepKeepsInv(View(c, key), View(d, key));
        }
      }
    }
  }

  lemma {:induction false} ReforwardAllKeepsMode(c: Cluster, resend: seq<Resend>)
    requires ModeInv(c) && forall k :: 0 <= k < |resend| ==> resend[k].node in c.ring.members
    ensures var d := ReforwardAll(c, resend);
      && ModeInv(d) && d.ring == c.ring && d.hist == c.hist && d.servers.Keys == c.servers.Keys
      && forall x :: x in c.servers ==> d.servers[x].store == c.servers[x].store
  {
    hide ModeInv, Reforward;
    if resend != [] {
      var n := |resend| - 1;
      ReforwardAllKeepsMode(c, resend[..n]);
      ReforwardKeepsMode(ReforwardAll(c, resend[..n]), resend[n]);
    }
  }

  // ---------- the theorem ----------

  lemma SwitchParts(c: Cluster, ring: Ring, dumps: map<NodeId, NodeId>, resend: seq<Resend>)
    requires Enabled(c, Switch(ring, dumps, resend))
    ensures Settled(c) && DumpsFromMembers(c, dumps) && EntrantsReady(c, ring, dumps) && ring.Valid()
    ensures forall x :: x in ring.members ==> x in c.servers
    ensures forall k :: 0 <= k < |resend| ==> resend[k].node in ring.members
    ensures ring.epoch > c.ring.epoch
    ensures Apply(c, Switch(ring, dumps, resend)) == ReforwardAll(Install(c, ring, dumps), resend)
  {
  }

  /** A settled switch to any membership, any order and any of the three modes re-establishes the invariant of the new mode
      for the new head and tail of every key, and leaves all new members with the same, complete data. */
  lemma SettledSwitch(c: Cluster, ring: Ring, dumps: map<NodeId, NodeId>, resend: seq<Resend>)
    requires ModeInv(c) && Enabled(c, Switch(ring, dumps, resend))
    ensures var d := Apply(c, Switch(ring, dumps, resend));
      && ModeInv(d) && Settled(d) && d.ring == ring && d.hist == c.hist && d.servers.Keys == c.servers.Keys
      && (forall x, key :: x in ring.members ==> CleanVersion(d.servers[x].store, key) == |Hist(c, key)|)
      && (forall x :: x in c.servers && x !in ring.members ==> d.servers[x].store == c.servers[x].store)
  {
    hide Base, Enabled, Apply, EntrantsReady, CleanVersion, DirtyAt, EntryStore, ReforwardAll;
    SwitchParts(c, ring, dumps, resend);
    var i := Install(c, ring, dumps);
    InstallKeepsMode(c, ring, dumps);
    InstallSettled(c, ring, dumps);
    ReforwardAllKeepsMode(i, resend);
    var d := ReforwardAll(i, resend);
    forall x, key | x in ring.members ensures CleanVersion(d.servers[x].store, key) == |Hist(c, key)| {
      EntryIsNewest(c, ring, dumps, x, key);
    }
    forall x, y, key | x in ring.members && y in ring.members
      ensures At(d.servers[x].store, key).clean == At(d.servers[y].store, key).clean
    {
      assert d.servers[x].store == i.servers[x].store && d.servers[y].store == i.servers[y].store;
    }
    forall x, key | x in ring.members ensures DirtyAt(d.servers[x].store, key) == map[] {
      assert d.servers[x].store == i.servers[x].store;
    }
  }

  /** Whatever ring is installed: the version a new head gives to the next write of a key is unused exactly if that head
      holds the newest version of the key. */
  lemma NewHeadNumbers(c: Cluster, ring: Ring, x: NodeId, mode: Mode, req: PutRequest)
    requires Genuine(c) && x in c.servers && ring.members != [] && req.version == 0
    ensures var response := HandlePut(ring, ring.HeadIndex(req.key), LocalOf(c.servers[x], mode), req).response;
      && response.PutOk?
      && (response.version > |Hist(c, req.key)| <==> HoldsAt(c.servers[x].store, req.key, |Hist(c, req.key)|))
  {
    hide PutNext, MarkClean, Forward, UniqueIds, GoodNet;
    assert GoodServer(c.hist, c.servers[x]);
    DirtyIsKnown(c.hist, c.servers[x].store, req.key);
  }
}
