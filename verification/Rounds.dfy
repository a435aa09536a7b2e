/** The background loops of a server, in terms of the actions of the system: one round of retries, or one pass
    that sends everything pending on, is a sequence of single steps. */
module Rounds {
  import opened Types
  import opened Rings
  import opened Stores
  import opened Handlers
  import opened Clusters

  /** Two reactions of one server in a row are one reaction that sends the messages of both. */
  lemma ReactTwice(c: Cluster, x: NodeId, e: Effect, f: Effect, rest: seq<Message>)
    requires x in c.servers
    ensures var d := React(c, x, e, rest);
      React(d, x, f, d.net) == React(c, x, Effect(f.local, e.out + f.out), rest)
  {
    assert (rest + e.out) + f.out == rest + (e.out + f.out);
    var s := c.servers[x];
    assert s.tables[c.ring.mode := e.local.table][c.ring.mode := f.local.table] == s.tables[c.ring.mode := f.local.table];
    assert c.servers[x := WithLocal(s, c.ring.mode, e.local)][x := WithLocal(s, c.ring.mode, f.local)]
        == c.servers[x := WithLocal(s, c.ring.mode, f.local)];
  }

  lemma LocalAfterReact(c: Cluster, x: NodeId, e: Effect, rest: seq<Message>)
    requires x in c.servers
    ensures LocalOf(React(c, x, e, rest).servers[x], c.ring.mode) == e.local
  {
  }

  lemma ReactNothing(c: Cluster, x: NodeId)
    requires x in c.servers && c.ring.mode in c.servers[x].tables
    ensures React(c, x, Effect(LocalOf(c.servers[x], c.ring.mode), []), c.net) == c
  {
    var s := c.servers[x];
    assert s.tables[c.ring.mode := s.tables[c.ring.mode]] == s.tables;
    assert c.servers[x := s] == c.servers;
    assert c.net + [] == c.net;
  }

  /** Sending the pending writes of one member again, one by one, amounts to one pass over its table. */
  lemma {:induction false} ForwardingPass(c: Cluster, x: NodeId, ids: seq<ReqId>)
    requires x in c.servers && c.ring.mode in c.servers[x].tables
    requires forall id :: id in ids ==> id in TableOf(c.servers[x], c.ring.mode)
    ensures ReforwardAll(c, seq(|ids|, k requires 0 <= k < |ids| => Resend(x, ids[k]))) ==
            React(c, x, ForwardAll(c.ring, Seat(c, x), LocalOf(c.servers[x], c.ring.mode), ids), c.net)
  {
    hide Forward;
    var resends := seq(|ids|, k requires 0 <= k < |ids| => Resend(x, ids[k]));
    var local := LocalOf(c.servers[x], c.ring.mode);
    if ids == [] {
      ReactNothing(c, x);
    } else {
      var n := |ids| - 1;
      ForwardingPass(c, x, ids[..n]);
      assert resends[..n] == seq(n, k requires 0 <= k < n => Resend(x, ids[..n][k]));
      var e := ForwardAll(c.ring, Seat(c, x), local, ids[..n]);
      assert ids[n] in ids;
      LocalAfterReact(c, x, e, c.net);
      ReactTwice(c, x, e, Forward(c.ring, Seat(c, x), e.local, e.local.table[ids[n]].req), c.net);
    }
  }

  ghost predicate Retryable(table: Table, ids: seq<ReqId>) {
    Distinct(ids) && forall id :: id in ids ==> id in table && table[id].retries < MAX_RETRIES
  }

  /** A write that has not been retried in this round may still be retried. */
  lemma StillRetryable(r: Ring, i: nat, local: Local, ids: seq<ReqId>)
    requires WellKeyed(local.table) && ids != [] && Retryable(local.table, ids)
    ensures var n := |ids| - 1;
      var table := RetryAll(r, i, local, ids[..n]).local.table;
      ids[n] in table && table[ids[n]] == local.table[ids[n]]
  {
    var n := |ids| - 1;
    assert ids[n] in ids && ids[n] !in ids[..n];
    RetryAllCounts(r, i, local, ids[..n]);
  }

  lemma ExtendRun(states: seq<Cluster>, actions: seq<Action>, a: Action)
    requires Run(states, actions) && Enabled(states[|actions|], a)
    ensures Run(states + [Apply(states[|actions|], a)], actions + [a])
  {
    hide Apply, Enabled;
  }

  lemma RetryIsReaction(c: Cluster, x: NodeId, id: ReqId)
    requires Enabled(c, Retry(x, id))
    ensures Apply(c, Retry(x, id)) == React(c, x, RetryOne(c.ring, Seat(c, x), LocalOf(c.servers[x], c.ring.mode), id), c.net)
  {
  }

  lemma MayRetry(c: Cluster, x: NodeId, id: ReqId, e: Effect)
    requires x in c.ring.members && x in c.servers
    requires id in e.local.table && e.local.table[id].retries < MAX_RETRIES
    ensures Enabled(React(c, x, e, c.net), Retry(x, id))
  {
  }

  /** A round of retries is a run of single retries: it ends in the state that retrying the collected writes one
      after the other leads to. */
  lemma {:induction false} RetryRoundIsRun(c: Cluster, x: NodeId, ids: seq<ReqId>)
    returns (states: seq<Cluster>, actions: seq<Action>)
    requires x in c.ring.members && x in c.servers && c.ring.mode in c.servers[x].tables
    requires WellKeyed(TableOf(c.servers[x], c.ring.mode)) && Retryable(TableOf(c.servers[x], c.ring.mode), ids)
    ensures Run(states, actions) && states[0] == c
    ensures |actions| == |ids| && forall k :: 0 <= k < |ids| ==> actions[k] == Retry(x, ids[k])
    ensures states[|ids|] == React(c, x, RetryAll(c.ring, Seat(c, x), LocalOf(c.servers[x], c.ring.mode), ids), c.net)
  {
    hide RetryOne, Run, Apply, Enabled, React;
    var local := LocalOf(c.servers[x], c.ring.mode);
    if ids == [] {
      states, actions := [c], [];
      ReactNothing(c, x);
      assert Run(states, actions) by { NoActions(c); }
    } else {
      var n := |ids| - 1;
      states, actions := RetryRoundIsRun(c, x, ids[..n]);
      RunLength(states, actions);
      StillRetryable(c.ring, Seat(c, x), local, ids);
      var e := RetryAll(c.ring, Seat(c, x), local, ids[..n]);
      var d := states[n];
      assert ids[n] in ids;
      LocalAfterReact(c, x, e, c.net);
      MayRetry(c, x, ids[n], e);
      RetryIsReaction(d, x, ids[n]);
      ReactTwice(c, x, e, RetryOne(c.ring, Seat(c, x), e.local, ids[n]), c.net);
      ReactKeepsRing(c, x, e);
      ExtendRun(states, actions, Retry(x, ids[n]));
      states, actions := states + [Apply(d, Retry(x, ids[n]))], actions + [Retry(x, ids[n])];
    }
  }

  lemma NoActions(c: Cluster)
    ensures Run([c], [])
  {
  }

  lemma RunLength(states: seq<Cluster>, actions: seq<Action>)
    requires Run(states, actions)
    ensures |states| == |actions| + 1
  {
  }

  lemma ReactKeepsRing(c: Cluster, x: NodeId, e: Effect)
    requires x in c.servers
    ensures React(c, x, e, c.net).ring == c.ring && x in React(c, x, e, c.net).servers
  {
  }
}
