/** What a fair history says about the calls of a watcher: who is called, how often, and in which
    order, whatever else happens in between. */
module Histories {
  import opened Watchers
  import opened Queues

  /** Every call in a fair history delivers exactly the bits of the feeds since the watcher was last
      called or cleared, and there is such a feed. */
  lemma InvokedExactly(hist: seq<Op>, k: nat, bit: bv32)
    requires AllFair(hist) && k < |hist| && hist[k].Invoked?
    ensures exists i :: Unpaid(hist[..k], i, hist[k].w)
    ensures Has(hist[k].events, bit) <==> UnpaidHas(hist[..k], hist[k].w, bit)
  {
    assert Fair(hist[..k], hist[k]);
    OwedExactly(hist[..k], hist[k].w, bit);
  }

  /** The first operation on `w` from `lo` on. */
  function FirstOn(hist: seq<Op>, lo: nat, w: Watcher): (k: nat)
    requires lo <= |hist|
    ensures lo <= k <= |hist| && (k < |hist| ==> hist[k].w == w)
    ensures forall i {:trigger hist[i]} :: lo <= i < k ==> hist[i].w != w
    decreases |hist| - lo
  {
    if lo < |hist| && hist[lo].w != w then FirstOn(hist, lo + 1, w) else lo
  }

  /** From `lo` on nothing but calls happens to `w`. */
  ghost predicate Untouched(hist: seq<Op>, lo: nat, w: Watcher) {
    forall i {:trigger hist[i]} :: lo <= i < |hist| && hist[i].w == w ==> hist[i].Invoked?
  }

  lemma {:induction false} OwedStays(hist: seq<Op>, lo: nat, k: nat, w: Watcher)
    requires lo <= k <= |hist| && forall i {:trigger hist[i]} :: lo <= i < k ==> hist[i].w != w
    ensures Owed(hist[..k], w) == Owed(hist[..lo], w)
    ensures Since(hist[..k], w) == Since(hist[..lo], w)
    decreases k - lo
  {
    if k > lo {
      OwedStays(hist, lo, k - 1, w);
      assert hist[..k] == hist[..k - 1] + [hist[k - 1]];
      OwedAppend(hist[..k - 1], hist[k - 1], w);
      SinceAppend(hist[..k - 1], hist[k - 1], w);
    }
  }

  /** A watcher that is owed nothing and is not fed stays that way. */
  lemma {:induction false} UnfedStaysUnowed(hist: seq<Op>, lo: nat, w: Watcher)
    requires lo <= |hist| && Owed(hist[..lo], w) == Nothing
    requires forall i {:trigger hist[i]} :: lo <= i < |hist| && hist[i].w == w ==> !hist[i].Fed?
    ensures Owed(hist, w) == Nothing
    decreases |hist| - lo
  {
    if lo < |hist| {
      assert hist[..lo + 1] == hist[..lo] + [hist[lo]];
      OwedAppend(hist[..lo], hist[lo], w);
      UnfedStaysUnowed(hist, lo + 1, w);
    } else {
      assert hist[..lo] == hist;
    }
  }

  /** From `k` on, `w` is not called any more. */
  ghost predicate Silent(hist: seq<Op>, k: nat, w: Watcher) {
    forall i {:trigger hist[i]} :: k <= i < |hist| ==> hist[i].w == w ==> !hist[i].Invoked?
  }

  /** A watcher that is owed nothing and is not fed any more is not called any more. */
  lemma {:induction false} NotCalledAgain(hist: seq<Op>, lo: nat, w: Watcher)
    requires AllFair(hist) && lo <= |hist| && Owed(hist[..lo], w) == Nothing
    requires forall i {:trigger hist[i]} :: lo <= i < |hist| && hist[i].w == w ==> !hist[i].Fed?
    ensures Silent(hist, lo, w)
    decreases |hist| - lo
  {
    if lo < |hist| {
      assert Fair(hist[..lo], hist[lo]);
      assert hist[..lo + 1] == hist[..lo] + [hist[lo]];
      OwedAppend(hist[..lo], hist[lo], w);
      NotCalledAgain(hist, lo + 1, w);
    }
  }

  /** From `lo` on, `w` is called exactly once, with exactly what it was owed at `lo`. */
  ghost predicate CalledOnce(hist: seq<Op>, lo: nat, w: Watcher)
    requires lo <= |hist|
  {
    var k, d := FirstOn(hist, lo, w), Owed(hist[..lo], w);
    && d.Debt? && k < |hist| && hist[k] == Invoked(w, d.pri, d.events)
    && forall i {:trigger hist[i]} :: lo <= i < |hist| && i != k ==> hist[i].w != w
  }

  /** Whoever is owed something, is owed nothing in the end, and is neither fed nor cleared in
      between, has been called exactly once. */
  lemma DebtsAreCalled(hist: seq<Op>, lo: nat, w: Watcher)
    requires AllFair(hist) && lo <= |hist| && Untouched(hist, lo, w)
    requires Owed(hist[..lo], w).Debt? && Owed(hist, w) == Nothing
    ensures CalledOnce(hist, lo, w)
  {
    var k := FirstOn(hist, lo, w);
    OwedStays(hist, lo, k, w);
    assert hist[..|hist|] == hist;
    if k < |hist| {
      assert Fair(hist[..k], hist[k]);
      assert hist[..k + 1] == hist[..k] + [hist[k]];
      OwedAppend(hist[..k], hist[k], w);
      NotCalledAgain(hist, k + 1, w);
    }
  }

  /** Two watchers are not called at the same time. */
  lemma NotTogether(hist: seq<Op>, lo: nat, u: Watcher, v: Watcher)
    requires lo <= |hist| && CalledOnce(hist, lo, u) && CalledOnce(hist, lo, v) && u != v
    ensures FirstOn(hist, lo, u) != FirstOn(hist, lo, v)
  {
  }

  lemma AheadStays(hist: seq<Op>, lo: nat, k: nat, u: Watcher, v: Watcher)
    requires lo <= k <= |hist| && Ahead(hist[..lo], u, v)
    requires forall i {:trigger hist[i]} :: lo <= i < k ==> hist[i].w != u && hist[i].w != v
    ensures Ahead(hist[..k], u, v)
    ensures exists j :: 0 <= j < k && hist[..k][j].w == u
  {
    OwedStays(hist, lo, k, u);
    OwedStays(hist, lo, k, v);
    SinceIs(hist[..k], u);
  }

  /** Of two such watchers, the one whose debt goes before the other's is called first. */
  lemma CalledInOrder(hist: seq<Op>, lo: nat, u: Watcher, v: Watcher)
    requires AllFair(hist) && lo <= |hist| && CalledOnce(hist, lo, u) && CalledOnce(hist, lo, v)
    requires Ahead(hist[..lo], u, v)
    ensures FirstOn(hist, lo, u) < FirstOn(hist, lo, v)
  {
    var kv := FirstOn(hist, lo, v);
    assert Fair(hist[..kv], hist[kv]);
    hide AllFair, Owed, Since;
    if kv <= FirstOn(hist, lo, u) {
      AheadStays(hist, lo, kv, u, v);
    }
  }

  // ---------- the drain of quiet queues ----------

  lemma {:induction false} DrainOneIsCalls(q: seq<Pending>, p: nat, dummy: Watcher)
    ensures forall i :: 0 <= i < |DrainOne(q, p, dummy)| ==> DrainOne(q, p, dummy)[i].Invoked?
  {
    if q != [] {
      DrainOneIsCalls(q[..|q| - 1], p, dummy);
    }
  }

  lemma {:induction false} DrainIsCalls(q: seq<seq<Pending>>, n: nat, dummy: Watcher)
    requires n <= |q|
    ensures forall i :: 0 <= i < |Drain(q, n, dummy)| ==> Drain(q, n, dummy)[i].Invoked?
  {
    if n > 0 {
      DrainOneIsCalls(q[n - 1], n - 1, dummy);
      DrainIsCalls(q, n - 1, dummy);
    }
  }

  /** Draining calls every watcher that is owed something exactly once. */
  lemma DrainedOnce(s: Queues, dummy: Watcher, w: Watcher)
    requires Ok(s, dummy) && w in s.slot && Owed(s.hist, w).Debt?
    ensures |s.q| == NUMPRI && AllFair(s.hist + Drain(s.q, NUMPRI, dummy))
    ensures CalledOnce(s.hist + Drain(s.q, NUMPRI, dummy), |s.hist|, w)
  {
    var r := DrainRun(s, dummy, NUMPRI);
    EmptyMeansPaid(r, dummy, w);
    DrainIsCalls(s.q, NUMPRI, dummy);
    assert r.hist[..|s.hist|] == s.hist;
    hide Drain, Owed;
    DebtsAreCalled(r.hist, |s.hist|, w);
  }
}
