/** Feeding a batch of watchers in reverse, which `feed_reverse_done` does so that the
    last-in-first-out invocation visits them in their original order. */
module ReverseFeed {
  import opened Watchers
  import opened Queues

  /** All of `ws` are known and have a valid priority. */
  ghost predicate Known(s: Queues, ws: seq<Watcher>) {
    s.prio.Keys == s.slot.Keys && forall i :: 0 <= i < |ws| ==> ws[i] in s.slot && 0 <= s.prio[ws[i]] < NUMPRI
  }

  /** `feed_reverse_done`: the last of `ws` first. */
  ghost function FeedBack(s: Queues, dummy: Watcher, ws: seq<Watcher>, events: bv32): (r: Queues)
    requires Ok(s, dummy) && Known(s, ws)
    ensures Ok(r, dummy) && r.slot.Keys == s.slot.Keys && r.prio == s.prio
    decreases |ws|
  {
    if ws == [] then s
    else
      var last := ws[|ws| - 1];
      FeedKeeps(s, dummy, last, events);
      FeedBack(Feed(s, last, events), dummy, ws[..|ws| - 1], events)
  }

  /** Queues only grow, a watcher already queued keeps its slot, and the others are queued
      above everything that was there. */
  lemma {:induction false} FeedBackSlots(s: Queues, dummy: Watcher, ws: seq<Watcher>, events: bv32, w: Watcher)
    requires Ok(s, dummy) && Known(s, ws) && w in s.slot && 0 <= s.prio[w] < NUMPRI
    ensures var r := FeedBack(s, dummy, ws, events); var p := s.prio[w];
      && |r.q| == |s.q| == NUMPRI && |s.q[p]| <= |r.q[p]|
      && (s.slot[w] > 0 || w !in ws ==> r.slot[w] == s.slot[w])
      && (s.slot[w] == 0 && w in ws ==> r.slot[w] > |s.q[p]|)
    decreases |ws|
  {
    assert |s.q| == NUMPRI;
    hide Ok;
    if ws != [] {
      var n := |ws| - 1;
      FeedKeeps(s, dummy, ws[n], events);
      FeedBackSlots(Feed(s, ws[n], events), dummy, ws[..n], events, w);
      assert w in ws ==> w == ws[n] || w in ws[..n];
    }
  }

  /** The history grows by the feeds of the batch. */
  lemma {:induction false} FeedBackExtends(s: Queues, dummy: Watcher, ws: seq<Watcher>, events: bv32)
    requires Ok(s, dummy) && Known(s, ws)
    ensures s.hist <= FeedBack(s, dummy, ws, events).hist
    decreases |ws|
  {
    if ws != [] {
      var n := |ws| - 1;
      FeedKeeps(s, dummy, ws[n], events);
      hide Ok, Feed;
      FeedBackExtends(Feed(s, ws[n], events), dummy, ws[..n], events);
    }
  }

  /** A watcher of the batch is owed the fed events on top of what it was owed, once; the others
      are owed what they were. */
  lemma {:induction false} FeedBackOwed(s: Queues, dummy: Watcher, ws: seq<Watcher>, events: bv32, w: Watcher)
    requires Ok(s, dummy) && Known(s, ws)
    requires forall a, b :: 0 <= a < b < |ws| ==> ws[a] != ws[b]
    ensures Owed(FeedBack(s, dummy, ws, events).hist, w) ==
      if w in ws then After(Owed(s.hist, w), Fed(w, s.prio[w], events), w) else Owed(s.hist, w)
    decreases |ws|
  {
    if ws != [] {
      var n := |ws| - 1;
      var op := Fed(ws[n], s.prio[ws[n]], events);
      FeedKeeps(s, dummy, ws[n], events);
      OwedAppend(s.hist, op, w);
      assert w != ws[n] ==> After(Owed(s.hist, w), op, w) == Owed(s.hist, w);
      hide Ok, Feed, Owed, After;
      assert w in ws <==> w == ws[n] || w in ws[..n];
      assert ws[n] !in ws[..n];
      FeedBackOwed(Feed(s, ws[n], events), dummy, ws[..n], events, w);
    }
  }

  /** Only watchers that were owed nothing get a new debt, which is newer than all old ones. */
  lemma {:induction false} FeedBackSince(s: Queues, dummy: Watcher, ws: seq<Watcher>, events: bv32, w: Watcher)
    requires Ok(s, dummy) && Known(s, ws)
    requires forall a, b :: 0 <= a < b < |ws| ==> ws[a] != ws[b]
    ensures var since := Since(FeedBack(s, dummy, ws, events).hist, w);
      if w in ws && Owed(s.hist, w).Nothing? then since >= |s.hist|
      else since == Since(s.hist, w)
    decreases |ws|
  {
    if ws != [] {
      var n := |ws| - 1;
      var op := Fed(ws[n], s.prio[ws[n]], events);
      FeedKeeps(s, dummy, ws[n], events);
      OwedAppend(s.hist, op, w);
      SinceAppend(s.hist, op, w);
      assert w != ws[n] ==> After(Owed(s.hist, w), op, w) == Owed(s.hist, w);
      hide Ok, Feed, Owed, Since, After;
      assert w in ws <==> w == ws[n] || w in ws[..n];
      assert ws[n] !in ws[..n];
      FeedBackSince(Feed(s, ws[n], events), dummy, ws[..n], events, w);
    }
  }

  /** Of two such watchers, the earlier one in the batch gets the newer debt. */
  lemma {:induction false} FeedBackNewer(s: Queues, dummy: Watcher, ws: seq<Watcher>, events: bv32, i: nat, j: nat)
    requires Ok(s, dummy) && Known(s, ws) && i < j < |ws|
    requires forall a, b :: 0 <= a < b < |ws| ==> ws[a] != ws[b]
    requires Owed(s.hist, ws[i]).Nothing? && Owed(s.hist, ws[j]).Nothing?
    ensures var r := FeedBack(s, dummy, ws, events); Since(r.hist, ws[i]) > Since(r.hist, ws[j])
    decreases |ws|
  {
    hide Ok, Feed, Owed, Since, After;
    var n := |ws| - 1;
    FeedKeeps(s, dummy, ws[n], events);
    FedBesides(s, dummy, ws[n], events, ws[i]);
    FedBesides(s, dummy, ws[n], events, ws[j]);
    var s' := Feed(s, ws[n], events);
    if j == n {
      assert ws[i] == ws[..n][i] && ws[j] !in ws[..n];
      FeedBackSince(s', dummy, ws[..n], events, ws[i]);
      FeedBackSince(s', dummy, ws[..n], events, ws[j]);
    } else {
      FeedBackNewer(s', dummy, ws[..n], events, i, j);
    }
  }

  /** What feeding `w` means for the debt of `x`, if there was none. */
  lemma FedBesides(s: Queues, dummy: Watcher, w: Watcher, events: bv32, x: Watcher)
    requires Ok(s, dummy) && w in s.slot && w in s.prio && 0 <= s.prio[w] < NUMPRI && Owed(s.hist, x).Nothing?
    ensures 0 <= s.prio[w] < |s.q| && s.slot[w] <= |s.q[s.prio[w]]|
    ensures var hist := Feed(s, w, events).hist;
      if x == w then Since(hist, x) < |hist| else Owed(hist, x).Nothing?
  {
    FeedKeeps(s, dummy, w, events);
    OwedAppend(s.hist, Fed(w, s.prio[w], events), x);
    SinceAppend(s.hist, Fed(w, s.prio[w], events), x);
    hide Ok, Owed, Since;
  }

  /** Of two newly queued watchers of one priority, the earlier one lies nearer the top. */
  lemma FeedBackOrder(s: Queues, dummy: Watcher, ws: seq<Watcher>, events: bv32, i: nat, j: nat)
    requires Ok(s, dummy) && Known(s, ws) && i < j < |ws|
    requires forall a, b :: 0 <= a < b < |ws| ==> ws[a] != ws[b]
    requires s.slot[ws[i]] == s.slot[ws[j]] == 0 && s.prio[ws[i]] == s.prio[ws[j]]
    ensures var r := FeedBack(s, dummy, ws, events);
      r.slot[ws[i]] > r.slot[ws[j]] > |s.q[s.prio[ws[j]]]|
  {
    assert DebtOk(s, ws[i]) && DebtOk(s, ws[j]);
    assert ws[i] in ws && ws[j] in ws;
    hide Ok, Owed, Since;
    FeedBackSlots(s, dummy, ws, events, ws[i]);
    FeedBackSlots(s, dummy, ws, events, ws[j]);
    FeedBackNewer(s, dummy, ws, events, i, j);
    NewerIsHigher(FeedBack(s, dummy, ws, events), dummy, ws[i], ws[j]);
  }

  // ---------- and the order in which a drain then invokes them ----------

  ghost predicate Before(ops: seq<Op>, a: Op, b: Op) {
    exists x, y :: 0 <= x < y < |ops| && ops[x] == a && ops[y] == b
  }

  lemma BeforeInMiddle(pre: seq<Op>, ops: seq<Op>, post: seq<Op>, a: Op, b: Op)
    requires Before(ops, a, b)
    ensures Before(pre + ops + post, a, b)
  {
    var x, y :| 0 <= x < y < |ops| && ops[x] == a && ops[y] == b;
    var all := pre + ops + post;
    assert all[|pre| + x] == a && all[|pre| + y] == b;
  }

  lemma {:induction false} DrainOneHas(q: seq<Pending>, p: nat, dummy: Watcher, i: nat)
    requires i < |q| && q[i].w != dummy
    ensures Invoked(q[i].w, p, q[i].events) in DrainOne(q, p, dummy)
  {
    if i < |q| - 1 {
      DrainOneHas(q[..|q| - 1], p, dummy, i);
    }
  }

  lemma {:induction false} DrainOneOrder(q: seq<Pending>, p: nat, dummy: Watcher, i: nat, j: nat)
    requires j < i < |q| && q[i].w != dummy && q[j].w != dummy
    ensures Before(DrainOne(q, p, dummy), Invoked(q[i].w, p, q[i].events), Invoked(q[j].w, p, q[j].events))
  {
    var n := |q| - 1;
    var d, rest := DrainOne(q, p, dummy), DrainOne(q[..n], p, dummy);
    if i == n {
      DrainOneHas(q[..n], p, dummy, j);
      var y :| 0 <= y < |rest| && rest[y] == Invoked(q[j].w, p, q[j].events);
      assert d[0] == Invoked(q[i].w, p, q[i].events) && d[y + 1] == rest[y];
    } else {
      DrainOneOrder(q[..n], p, dummy, i, j);
      var top: seq<Op> := if q[n].w == dummy then [] else [Invoked(q[n].w, p, q[n].events)];
      BeforeInMiddle(top, rest, [], Invoked(q[i].w, p, q[i].events), Invoked(q[j].w, p, q[j].events));
      assert top + rest + [] == d;
    }
  }

  lemma {:induction false} DrainOrder(q: seq<seq<Pending>>, n: nat, dummy: Watcher, p: nat, i: nat, j: nat)
    requires p < n <= |q| && j < i < |q[p]| && q[p][i].w != dummy && q[p][j].w != dummy
    ensures Before(Drain(q, n, dummy), Invoked(q[p][i].w, p, q[p][i].events), Invoked(q[p][j].w, p, q[p][j].events))
  {
    var a, b := Invoked(q[p][i].w, p, q[p][i].events), Invoked(q[p][j].w, p, q[p][j].events);
    var one, lower := DrainOne(q[n - 1], n - 1, dummy), Drain(q, n - 1, dummy);
    if p == n - 1 {
      DrainOneOrder(q[p], p, dummy, i, j);
      BeforeInMiddle([], one, lower, a, b);
      assert [] + one + lower == one + lower;
    } else {
      DrainOrder(q, n - 1, dummy, p, i, j);
      BeforeInMiddle(one, lower, [], a, b);
      assert one + lower + [] == one + lower;
    }
  }

  /** Of two pending watchers of one priority, a drain invokes the higher one first. */
  lemma DrainedAbove(r: Queues, dummy: Watcher, u: Watcher, v: Watcher)
    requires Ok(r, dummy) && u in r.slot && v in r.slot && r.prio[u] == r.prio[v] && u != v
    requires r.slot[u] > 0 && r.slot[v] > 0 && r.slot[u] >= r.slot[v]
    ensures |r.q| == NUMPRI && Owed(r.hist, u).Debt? && Owed(r.hist, v).Debt?
    ensures var p := r.prio[u];
      Before(Drain(r.q, NUMPRI, dummy), Invoked(u, p, Owed(r.hist, u).events), Invoked(v, p, Owed(r.hist, v).events))
  {
    assert DebtOk(r, u) && DebtOk(r, v);
    var p := r.prio[u];
    hide Ok, Owed, Drain, Before;
    DrainOrder(r.q, NUMPRI, dummy, p, r.slot[u] - 1, r.slot[v] - 1);
  }

  /** Reverse feeding and last-in-first-out invocation cancel: of two watchers of the same
      priority that were not pending, the one that comes first in `ws` is invoked first. */
  lemma ReverseFeedThenDrain(s: Queues, dummy: Watcher, ws: seq<Watcher>, events: bv32, i: nat, j: nat)
    requires Ok(s, dummy) && Known(s, ws) && i < j < |ws|
    requires forall a, b :: 0 <= a < b < |ws| ==> ws[a] != ws[b]
    requires s.slot[ws[i]] == s.slot[ws[j]] == 0 && s.prio[ws[i]] == s.prio[ws[j]]
    ensures var r := FeedBack(s, dummy, ws, events); var p := s.prio[ws[i]];
      |r.q| == NUMPRI && Before(Drain(r.q, NUMPRI, dummy), Invoked(ws[i], p, events), Invoked(ws[j], p, events))
  {
    assert DebtOk(s, ws[i]) && DebtOk(s, ws[j]);
    assert ws[i] in ws && ws[j] in ws;
    FeedBackOwed(s, dummy, ws, events, ws[i]);
    FeedBackOwed(s, dummy, ws, events, ws[j]);
    hide Ok, Owed, Drain, Before;
    FeedBackOrder(s, dummy, ws, events, i, j);
    DrainedAbove(FeedBack(s, dummy, ws, events), dummy, ws[i], ws[j]);
  }

  /** The exception: a watcher that was pending keeps its place, so it is invoked after
      every watcher of its priority that the batch queues anew. */
  lemma PendingIsInvokedLater(s: Queues, dummy: Watcher, ws: seq<Watcher>, events: bv32, u: Watcher, v: Watcher)
    requires Ok(s, dummy) && Known(s, ws) && u in s.slot && v in ws
    requires forall a, b :: 0 <= a < b < |ws| ==> ws[a] != ws[b]
    requires s.slot[u] > 0 && s.slot[v] == 0 && s.prio[u] == s.prio[v]
    ensures var r := FeedBack(s, dummy, ws, events); var p := s.prio[u];
      |r.q| == NUMPRI && exists e :: Before(Drain(r.q, NUMPRI, dummy), Invoked(v, p, events), Invoked(u, p, e))
  {
    var r, p := FeedBack(s, dummy, ws, events), s.prio[u];
    assert DebtOk(s, u) && DebtOk(s, v);
    FeedBackSlots(s, dummy, ws, events, u);
    FeedBackSlots(s, dummy, ws, events, v);
    FeedBackOwed(s, dummy, ws, events, v);
    assert DebtOk(r, u) && DebtOk(r, v);
    DrainOrder(r.q, NUMPRI, dummy, p, r.slot[v] - 1, r.slot[u] - 1);
  }
}
