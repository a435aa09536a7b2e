/** What holds over whole runs, in all three modes, with settled reconfigurations and with members lost while writes are
    in flight. */
module Runs {
  import opened Types
  import opened Rings
  import opened Stores
  import opened Handlers
  import opened Clusters
  import opened Views
  import opened Simulation
  import opened Steps
  import opened Invariants
  import opened Members
  import opened AllModes
  import opened Switching
  import opened Removals
  import ChainLines
  import Lines

  /** Not even a server outside the membership is ahead of the tail. */
  ghost predicate AllBehind(c: Cluster)
    requires Shape(c)
  {
    forall x, key :: x in c.servers ==> CleanVersion(c.servers[x].store, key) <= TailVersion(c, key)
  }

  ghost predicate Sound(c: Cluster) {
    ModeInv(c) && AllBehind(c)
  }

  /** The server holds the version for good: a member in CHAIN mode can lose a dirty one, so there it has to be clean. */
  predicate Firm(c: Cluster, x: NodeId, key: Key, v: nat)
    requires x in c.servers
  {
    && HoldsAt(c.servers[x].store, key, v)
    && (c.ring.mode == CHAIN && x in c.ring.members ==> v <= CleanVersion(c.servers[x].store, key))
  }

  predicate CleanKept(c: Cluster, d: Cluster, x: NodeId, key: Key)
    requires x in c.servers && x in d.servers
  {
    CleanVersion(c.servers[x].store, key) <= CleanVersion(d.servers[x].store, key)
  }

  /** What never goes backwards: accepted writes, the committed version of every key, and what any server holds. */
  ghost predicate Progress(c: Cluster, d: Cluster)
    requires Shape(c) && Shape(d)
  {
    && c.servers.Keys == d.servers.Keys
    && c.ring.epoch <= d.ring.epoch
    && (c.ring.epoch == d.ring.epoch ==> c.ring == d.ring)
    && (forall key :: Hist(c, key) <= Hist(d, key))
    && (forall key :: TailVersion(c, key) <= TailVersion(d, key))
    && (forall x, key, v: nat {:trigger Firm(d, x, key, v)} ::
          x in c.servers && v <= |Hist(c, key)| && Firm(c, x, key, v) ==> Firm(d, x, key, v))
    && (forall x, key :: x in c.servers ==> CleanKept(c, d, x, key))
  }

  lemma SoundParts(c: Cluster)
    requires Sound(c)
    ensures Shape(c) && Genuine(c) && Base(c) && ModeInv(c) && (c.ring.mode != CHAIN ==> Inv(c))
  {
  }

  lemma ReactTouchesOne(c: Cluster, x: NodeId, e: Effect, rest: seq<Message>)
    requires x in c.servers
    ensures var d := React(c, x, e, rest);
      && d.ring == c.ring && d.servers.Keys == c.servers.Keys && d.hist == c.hist
      && (forall y :: y in c.servers && y != x ==> d.servers[y] == c.servers[y])
  {
  }

  ghost predicate OnlyMembersTouched(c: Cluster, d: Cluster) {
    && d.ring == c.ring && d.servers.Keys == c.servers.Keys
    && (forall x :: x in c.servers && x !in c.ring.members ==> d.servers[x] == c.servers[x])
    && (forall key :: Hist(c, key) <= Hist(d, key))
  }

  /** Actions on a fixed ring touch only members, and never take back an accepted write. */
  lemma OnlyMembersAct(c: Cluster, a: Action)
    requires Enabled(c, a) && FixedRing(a)
    ensures OnlyMembersTouched(c, Apply(c, a))
  {
    hide HandlePut, HandleAck, RetryOne, Fresh;
    match a {
      case ClientPut(x, req) =>
        var e := HandlePut(c.ring, Seat(c, x), LocalOf(c.servers[x], c.ring.mode), req);
        ReactTouchesOne(c, x, e.effect, c.net);
      case Deliver(i) =>
        var m := c.net[i];
        if m.ForwardPut? {
          var e := HandlePut(c.ring, Seat(c, m.to), LocalOf(c.servers[m.to], c.ring.mode), m.req);
          ReactTouchesOne(c, m.to, e.effect, RemoveAt(c.net, i));
        } else if m.WriteAck? {
          var e := HandleAck(c.ring, Seat(c, m.to), LocalOf(c.servers[m.to], c.ring.mode), m.id);
          ReactTouchesOne(c, m.to, e, RemoveAt(c.net, i));
        }
      case Retry(x, id) =>
        ReactTouchesOne(c, x, RetryOne(c.ring, Seat(c, x), LocalOf(c.servers[x], c.ring.mode), id), c.net);
      case Lose(_) =>
      case Duplicate(_) =>
    }
  }

  lemma FirmStays(c: Cluster, d: Cluster, x: NodeId, key: Key, v: nat)
    requires Shape(c) && Shape(d) && OnlyMembersTouched(c, d) && x in c.servers && Firm(c, x, key, v)
    requires CleanKept(c, d, x, key)
    requires c.ring.mode != CHAIN ==> Lines.Grows(View(c, key), View(d, key))
    ensures Firm(d, x, key, v)
  {
    hide Lines.Grows, View, CleanVersion;
    if x in c.ring.members && c.ring.mode != CHAIN { MemberKeeps(c, d, x, key); }
  }

  lemma FixedRingProgress(c: Cluster, a: Action)
    requires Sound(c) && Enabled(c, a) && FixedRing(a)
    ensures Sound(Apply(c, a)) && Shape(c) && Progress(c, Apply(c, a))
  {
    hide Inv, Base, Lines.Grows, ChainLines.Advances, Apply, Enabled, View, TailVersion, CleanVersion, Firm;
    var d := Apply(c, a);
    ActionKeepsMode(c, a);
    OnlyMembersAct(c, a);
    forall key ensures TailVersion(c, key) <= TailVersion(d, key) { TailAdvances(c, d, "", key); }
    forall x, key | x in c.servers
      ensures CleanKept(c, d, x, key)
      ensures CleanVersion(d.servers[x].store, key) <= TailVersion(d, key)
    {
      TailAdvances(c, d, x, key);
      if x in c.ring.members { TailIsAhead(d, x, key); }
    }
    forall x, key, v: nat | x in c.servers && Firm(c, x, key, v) ensures Firm(d, x, key, v) {
      FirmStays(c, d, x, key, v);
    }
  }

  lemma SettledTail(c: Cluster, key: Key)
    requires Base(c) && Settled(c)
    ensures Shape(c) && TailVersion(c, key) == |Hist(c, key)|
  {
    BaseParts(c, key);
    hide Base, Settled;
    TailSlot(c, key);
    SettledIsNewest(c, TailNode(c, key), key);
  }

  lemma SwitchProgress(c: Cluster, ring: Ring, dumps: map<NodeId, NodeId>, resend: seq<Resend>)
    requires Sound(c) && Enabled(c, Switch(ring, dumps, resend))
    ensures var d := Apply(c, Switch(ring, dumps, resend)); Sound(d) && Shape(c) && Progress(c, d)
  {
    hide Inv, Base, Apply, TailVersion, CleanVersion, DirtyAt, Enabled, ReforwardAll, Settled, EntrantsReady;
    SwitchParts(c, ring, dumps, resend);
    SettledSwitch(c, ring, dumps, resend);
    var d := Apply(c, Switch(ring, dumps, resend));
    SoundParts(c);
    ModeShape(d);
    forall key ensures TailVersion(c, key) == TailVersion(d, key) == |Hist(c, key)| {
      SettledTail(c, key);
      SettledTail(d, key);
    }
    forall x, key | x in c.servers
      ensures CleanKept(c, d, x, key)
      ensures CleanVersion(d.servers[x].store, key) <= TailVersion(d, key)
    {
      assert CleanVersion(c.servers[x].store, key) <= TailVersion(c, key);
      assert x !in ring.members ==> d.servers[x].store == c.servers[x].store;
    }
    assert forall key :: Hist(c, key) <= Hist(d, key);
    forall x, key, v: nat | x in c.servers && v <= |Hist(c, key)| && Firm(c, x, key, v) ensures Firm(d, x, key, v) {
      if x !in ring.members {
        assert d.servers[x].store == c.servers[x].store;
      } else {
        assert CleanVersion(d.servers[x].store, key) == |Hist(c, key)|;
      }
    }
  }

  lemma RemovalProgress(c: Cluster, seat: nat, epoch: nat, resend: seq<Resend>)
    requires Sound(c) && Enabled(c, Remove(seat, epoch, resend))
    ensures var d := Apply(c, Remove(seat, epoch, resend)); Sound(d) && Shape(c) && Progress(c, d)
  {
    hide ModeInv, Base, Apply, TailVersion, CleanVersion, DirtyAt, Enabled, MayGo;
    RemoveParts(c, seat, epoch, resend);
    RemovalKeepsMode(c, seat, epoch, resend);
    var d := Apply(c, Remove(seat, epoch, resend));
    ModeShape(c);
    ModeShape(d);
    ShrunkMembers(c.ring, seat, epoch);
    forall key ensures TailVersion(c, key) <= TailVersion(d, key) { RemovalKeepsTail(c, seat, epoch, resend, key); }
    assert forall key :: Hist(c, key) == Hist(d, key);
    forall x, key | x in c.servers
      ensures CleanKept(c, d, x, key)
      ensures CleanVersion(d.servers[x].store, key) <= TailVersion(d, key)
    {
      assert CleanVersion(c.servers[x].store, key) <= TailVersion(c, key);
    }
    forall x, key, v: nat | x in c.servers && Firm(c, x, key, v) ensures Firm(d, x, key, v) {
      assert d.servers[x].store == c.servers[x].store;
    }
  }

  /** Every action keeps the system sound and loses no ground. */
  lemma ActionProgress(c: Cluster, a: Action)
    requires Sound(c) && Enabled(c, a)
    ensures Sound(Apply(c, a)) && Shape(c) && Progress(c, Apply(c, a))
  {
    if a.Switch? {
      SwitchProgress(c, a.ring, a.dumps, a.resend);
    } else if a.Remove? {
      RemovalProgress(c, a.seat, a.epoch, a.resend);
    } else {
      FixedRingProgress(c, a);
    }
  }

  lemma ProgressTransitive(c: Cluster, d: Cluster, e: Cluster)
    requires Shape(c) && Shape(d) && Shape(e) && Progress(c, d) && Progress(d, e)
    ensures Progress(c, e)
  {
    hide Firm, TailVersion;
    forall x, key, v: nat | x in c.servers && v <= |Hist(c, key)| && Firm(c, x, key, v) ensures Firm(e, x, key, v) {
      assert Firm(d, x, key, v);
      assert Hist(c, key) <= Hist(d, key);
    }
    forall x, key | x in c.servers ensures CleanKept(c, e, x, key) {
      assert CleanKept(c, d, x, key) && CleanKept(d, e, x, key);
    }
  }

  /** A run of any mode from a fresh cluster. */
  ghost predicate GoodRun(states: seq<Cluster>, actions: seq<Action>) {
    Run(states, actions) && Init(states[0])
  }

  /** In every run from a fresh cluster, every state is sound and every later state is ahead of every earlier one. */
  lemma {:induction false} RunIsSound(states: seq<Cluster>, actions: seq<Action>, i: nat, j: nat)
    requires GoodRun(states, actions) && i <= j < |states|
    ensures Sound(states[i]) && Sound(states[j]) && Shape(states[i]) && Shape(states[j])
    ensures Progress(states[i], states[j])
    decreases j
  {
    hide ModeInv, AllBehind, Progress, Enabled, Apply, Shape;
    if j == 0 {
      FreshIsSound(states[0]);
    } else if i == j {
      RunIsSound(states, actions, i - 1, j - 1);
      ActionProgress(states[j - 1], actions[j - 1]);
      SoundIsReflexive(states[j]);
    } else {
      RunIsSound(states, actions, i, j - 1);
      ActionProgress(states[j - 1], actions[j - 1]);
      SoundParts(states[j]);
      ProgressTransitive(states[i], states[j - 1], states[j]);
    }
  }

  lemma SoundIsReflexive(c: Cluster)
    requires Sound(c)
    ensures Shape(c) && Progress(c, c)
  {
  }

  lemma FreshIsSound(c: Cluster)
    requires Init(c)
    ensures Sound(c) && Shape(c) && Progress(c, c)
  {
    FreshIsBase(c);
  }

  // ---------- the order along a chain, in CRAQ and CROWN ----------

  lemma SlotBehind(l: Lines.Line, q: nat, p: nat, v: nat)
    requires Lines.Inv(l) && q < p < |l.slots|
    ensures l.slots[q].cv <= l.slots[p].cv
    ensures v in l.slots[p].dirty || v == l.slots[p].cv || v in l.slots[p].pend || v in l.slots[p].fwd ==>
      Lines.Holds(l.slots[q], v)
  {
    assert Lines.Holds(l.slots[q], l.slots[p].cv);
    assert v in l.slots[p].dirty ==> v in l.slots[p].pend;
  }

  lemma StrongLine(c: Cluster, key: Key)
    requires Sound(c) && c.ring.mode != CHAIN
    ensures Shape(c) && Genuine(c) && Lines.Inv(View(c, key))
  {
  }

  /** Along the chain of a key, clean versions never fall from one member to a later one; and every version that a
      member has stored, has pending, or is about to receive, is held by every earlier member: dirty, or covered by
      an equal or newer clean record. */
  lemma ChainOrder(c: Cluster, key: Key, q: nat, p: nat, v: nat)
    requires Sound(c) && c.ring.mode != CHAIN && q < p < |c.ring.members|
    ensures var x, y := c.ring.NodeAt(key, q), c.ring.NodeAt(key, p);
      && x in c.servers && y in c.servers
      && CleanVersion(c.servers[x].store, key) <= CleanVersion(c.servers[y].store, key)
      && (v in DirtyAt(c.servers[y].store, key) || v == CleanVersion(c.servers[y].store, key)
          || v in PendOf(TableOf(c.servers[y], c.ring.mode), key) || v in FwdOf(c.net, y, key)
          ==> HoldsAt(c.servers[x].store, key, v))
  {
    StrongLine(c, key);
    hide Sound, Lines.Inv, PendOf, FwdOf, AckOf, CommitsOf, CleanVersion, DirtyAt;
    SlotBehind(View(c, key), q, p, v);
  }

  /** Whatever is pending at a member is held there. So an acknowledgement, which marks a pending version clean, always
      finds it dirty or already covered, and leaves a clean version at least as new. */
  lemma PendingIsHeld(c: Cluster, x: NodeId, id: ReqId)
    requires Sound(c) && c.ring.mode != CHAIN && x in c.ring.members && id in TableOf(c.servers[x], c.ring.mode)
    ensures var req := TableOf(c.servers[x], c.ring.mode)[id].req;
      && HoldsAt(c.servers[x].store, req.key, req.version)
      && CleanVersion(MarkClean(c.servers[x].store, req.key, req.version), req.key) >= req.version
  {
    var req := TableOf(c.servers[x], c.ring.mode)[id].req;
    StrongLine(c, req.key);
    hide Sound, Lines.Inv, FwdOf, AckOf, CommitsOf;
    var p := MemberSlot(c, x, req.key);
    IsPending(TableOf(c.servers[x], c.ring.mode), id);
    PendingSlot(View(c, req.key), p, req.version);
    assert GoodServer(c.hist, c.servers[x]);
  }

  lemma PendingSlot(l: Lines.Line, p: nat, v: nat)
    requires Lines.Inv(l) && p < |l.slots| && v in l.slots[p].pend
    ensures v in l.slots[p].dirty || v <= l.slots[p].cv
  {
    assert Lines.Holds(l.slots[p], v);
  }
}
