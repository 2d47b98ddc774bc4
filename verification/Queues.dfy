/** The pending queues as values: what feeding, clearing and invoking do to them, and the
    invariant that every such step keeps. */
module Queues {
  import opened Watchers

  /** `ANPENDING` */
  datatype Pending = Pending(w: Watcher, events: bv32)

  /** What happened to the queues, in order. */
  datatype Op =
    | Fed(w: Watcher, pri: int, events: bv32)
    | Cleared(w: Watcher)
    | Invoked(w: Watcher, pri: int, events: bv32)

  // ---------- the reference: what a watcher is owed, from the history alone ----------

  /** The events fed to a watcher since it was last cleared or invoked. */
  datatype Debt = Nothing | Debt(pri: int, events: bv32)

  function Owed(hist: seq<Op>, w: Watcher): Debt {
    if hist == [] then Nothing
    else After(Owed(hist[..|hist| - 1], w), hist[|hist| - 1], w)
  }

  function Join(a: bv32, b: bv32): bv32 { a | b }

  function After(d: Debt, op: Op, w: Watcher): Debt {
    if op.w != w then d
    else if !op.Fed? then Nothing
    else if d.Nothing? then Debt(op.pri, op.events)
    else Debt(d.pri, Join(d.events, op.events))
  }

  lemma OwedAppend(hist: seq<Op>, op: Op, w: Watcher)
    ensures Owed(hist + [op], w) == After(Owed(hist, w), op, w)
  {
    assert (hist + [op])[..|hist|] == hist;
  }

  /** The events of a debt. */
  function EventsOf(d: Debt): bv32 {
    match d
    case Nothing => 0
    case Debt(_, events) => events
  }

  predicate Has(events: bv32, bit: bv32) { events & bit != 0 }

  lemma HasJoin(a: bv32, b: bv32, bit: bv32)
    ensures Has(Join(a, b), bit) <==> Has(a, bit) || Has(b, bit)
  {
    assert (a | b) & bit == (a & bit) | (b & bit);
  }

  /** `w` was fed in step `i`, and has been neither called nor cleared since. */
  predicate Unpaid(hist: seq<Op>, i: int, w: Watcher) {
    0 <= i < |hist| && hist[i].w == w && hist[i].Fed? && forall j {:trigger hist[j]} :: i < j < |hist| && hist[j].w == w ==> hist[j].Fed?
  }

  lemma UnpaidAppend(hist: seq<Op>, op: Op, w: Watcher, i: int)
    ensures Unpaid(hist + [op], i, w) <==>
      if i == |hist| then op.w == w && op.Fed? else Unpaid(hist, i, w) && (op.w == w ==> op.Fed?)
  {
    assert forall j {:trigger (hist + [op])[j]} {:trigger hist[j]} :: 0 <= j < |hist| ==> (hist + [op])[j] == hist[j];
    assert (hist + [op])[|hist|] == op;
  }

  /** Some such feed has the bit. */
  ghost predicate UnpaidHas(hist: seq<Op>, w: Watcher, bit: bv32) {
    exists i :: Unpaid(hist, i, w) && Has(hist[i].events, bit)
  }

  ghost predicate SomeUnpaid(hist: seq<Op>, w: Watcher, pri: int) {
    exists i :: Unpaid(hist, i, w) && hist[i].pri == pri
  }

  lemma UnpaidHasAppend(hist: seq<Op>, op: Op, w: Watcher, bit: bv32)
    ensures UnpaidHas(hist + [op], w, bit) <==>
      if op.w != w then UnpaidHas(hist, w, bit) else op.Fed? && (UnpaidHas(hist, w, bit) || Has(op.events, bit))
  {
    var hist' := hist + [op];
    forall i
      ensures Unpaid(hist', i, w) <==> if i == |hist| then op.w == w && op.Fed? else Unpaid(hist, i, w) && (op.w == w ==> op.Fed?)
      ensures 0 <= i < |hist| ==> hist'[i] == hist[i]
    {
      UnpaidAppend(hist, op, w, i);
    }
    hide Has;
    assert op.w == w && op.Fed? && Has(op.events, bit) ==> Unpaid(hist', |hist|, w);
    hide Unpaid;
    if i :| Unpaid(hist, i, w) && Has(hist[i].events, bit) {
      assert op.w != w || op.Fed? ==> Unpaid(hist', i, w);
    }
  }

  lemma SomeUnpaidAppend(hist: seq<Op>, op: Op, w: Watcher, pri: int)
    ensures SomeUnpaid(hist + [op], w, pri) <==>
      if op.w != w then SomeUnpaid(hist, w, pri) else op.Fed? && (SomeUnpaid(hist, w, pri) || op.pri == pri)
  {
    var hist' := hist + [op];
    forall i
      ensures Unpaid(hist', i, w) <==> if i == |hist| then op.w == w && op.Fed? else Unpaid(hist, i, w) && (op.w == w ==> op.Fed?)
      ensures 0 <= i < |hist| ==> hist'[i] == hist[i]
    {
      UnpaidAppend(hist, op, w, i);
    }
    assert op.w == w && op.Fed? ==> Unpaid(hist', |hist|, w);
    hide Unpaid;
    if i :| Unpaid(hist, i, w) && hist[i].pri == pri {
      assert op.w != w || op.Fed? ==> Unpaid(hist', i, w);
    }
  }

  /** A watcher is owed something exactly if it has such a feed, and then exactly the bits of all
      of them, at the priority of one of them. */
  lemma {:induction false} OwedExactly(hist: seq<Op>, w: Watcher, bit: bv32)
    ensures var d := Owed(hist, w);
      && (d.Debt? <==> exists i :: Unpaid(hist, i, w))
      && (d.Debt? ==> SomeUnpaid(hist, w, d.pri) && (Has(d.events, bit) <==> UnpaidHas(hist, w, bit)))
  {
    if hist != [] {
      var n := |hist| - 1;
      var before, op := hist[..n], hist[n];
      assert hist == before + [op];
      OwedExactly(before, w, bit);
      OwedNext(before, op, w, bit);
    }
  }

  lemma OwedNext(hist: seq<Op>, op: Op, w: Watcher, bit: bv32)
    requires var d := Owed(hist, w);
      && (d.Debt? <==> exists i :: Unpaid(hist, i, w))
      && (d.Debt? ==> SomeUnpaid(hist, w, d.pri) && (Has(d.events, bit) <==> UnpaidHas(hist, w, bit)))
    ensures var d := Owed(hist + [op], w);
      && (d.Debt? <==> exists i :: Unpaid(hist + [op], i, w))
      && (d.Debt? ==> SomeUnpaid(hist + [op], w, d.pri) && (Has(d.events, bit) <==> UnpaidHas(hist + [op], w, bit)))
  {
    hide Has, Join, UnpaidHas, Unpaid, Owed, SomeUnpaid;
    var d, d' := Owed(hist, w), Owed(hist + [op], w);
    OwedAppend(hist, op, w);
    UnpaidHasAppend(hist, op, w, bit);
    SomeUnpaidAppend(hist, op, w, if d'.Debt? then d'.pri else 0);
    if d.Debt? && op.w == w && op.Fed? {
      HasJoin(d.events, op.events, bit);
    }
    SomeUnpaidIs(hist, w, bit);
    UnpaidNext(hist, op, w);
  }

  lemma SomeUnpaidIs(hist: seq<Op>, w: Watcher, bit: bv32)
    ensures (exists i :: Unpaid(hist, i, w)) || !UnpaidHas(hist, w, bit)
    ensures forall pri :: SomeUnpaid(hist, w, pri) ==> exists i :: Unpaid(hist, i, w)
  {
    hide Unpaid, Has;
  }

  lemma UnpaidNext(hist: seq<Op>, op: Op, w: Watcher)
    ensures (exists i :: Unpaid(hist + [op], i, w)) <==>
      if op.w != w then exists i :: Unpaid(hist, i, w) else op.Fed?
  {
    UnpaidAppend(hist, op, w, |hist|);
    if i :| Unpaid(hist, i, w) {
      UnpaidAppend(hist, op, w, i);
    }
    if i :| Unpaid(hist + [op], i, w) {
      UnpaidAppend(hist, op, w, i);
      assert i == |hist| || Unpaid(hist, i, w);
    }
    hide Unpaid;
  }

  /** The feed that opened the current debt of a watcher. */
  function Since(hist: seq<Op>, w: Watcher): nat {
    if hist == [] then 0
    else
      var n := |hist| - 1;
      if hist[n].w == w && hist[n].Fed? && Owed(hist[..n], w).Nothing? then n else Since(hist[..n], w)
  }

  lemma SinceAppend(hist: seq<Op>, op: Op, w: Watcher)
    ensures Since(hist + [op], w) == if op.w == w && op.Fed? && Owed(hist, w).Nothing? then |hist| else Since(hist, w)
  {
    assert (hist + [op])[..|hist|] == hist;
  }

  lemma {:induction false} SinceIs(hist: seq<Op>, w: Watcher)
    requires Owed(hist, w).Debt?
    ensures Since(hist, w) < |hist| && hist[Since(hist, w)].w == w
  {
    var n := |hist| - 1;
    if Owed(hist[..n], w).Debt? {
      SinceIs(hist[..n], w);
    }
  }

  /** The debt of `u` goes before that of `v`: it has the higher priority, or the same and is the
      newer one. */
  predicate Ahead(hist: seq<Op>, u: Watcher, v: Watcher) {
    var a, b := Owed(hist, u), Owed(hist, v);
    && a.Debt? && b.Debt?
    && (a.pri > b.pri || (a.pri == b.pri && Since(hist, u) > Since(hist, v)))
  }

  /** An invocation delivers exactly what is owed, and no debt goes before it: none of higher
      priority, and none of the same that is newer. */
  ghost predicate Fair(hist: seq<Op>, op: Op) {
    op.Invoked? ==>
      && Owed(hist, op.w) == Debt(op.pri, op.events)
      && forall j {:trigger hist[j]} :: 0 <= j < |hist| ==> !Ahead(hist, hist[j].w, op.w)
  }

  /** Every invocation so far was fair when it happened. */
  ghost predicate AllFair(hist: seq<Op>) {
    forall k {:trigger Fair(hist[..k], hist[k])} ::
      0 <= k < |hist| ==> Fair(hist[..k], hist[k])
  }

  lemma AllFairAppend(hist: seq<Op>, op: Op)
    requires AllFair(hist) && Fair(hist, op)
    ensures AllFair(hist + [op])
  {
    var longer := hist + [op];
    forall k | 0 <= k < |longer|
      ensures Fair(longer[..k], longer[k])
    {
      assert longer[..k] == hist[..k];
      assert k < |hist| ==> Fair(hist[..k], hist[k]);
      if k == |hist| {
        assert hist[..k] == hist;
      }
    }
  }

  // ---------- the representation ----------

  /** `q` holds the stacks of all priorities, `slot` the watchers' `pending` fields and
      `prio` their `ABSPRI`. */
  datatype Queues = Queues(q: seq<seq<Pending>>, slot: map<Watcher, nat>, prio: map<Watcher, int>, hist: seq<Op>)

  /** A live slot holds the dummy or the watcher that points back at it. */
  predicate SlotOk(s: Queues, dummy: Watcher, p: nat, i: nat)
    requires p < |s.q| && i < |s.q[p]| && s.prio.Keys == s.slot.Keys
  {
    var w := s.q[p][i].w;
    w == dummy || (w in s.slot && s.slot[w] == i + 1 && s.prio[w] == p)
  }

  /** A watcher with a debt sits in its slot with exactly that debt. */
  predicate DebtOk(s: Queues, w: Watcher)
    requires w in s.slot && s.prio.Keys == s.slot.Keys
  {
    match Owed(s.hist, w)
    case Nothing => s.slot[w] == 0
    case Debt(pri, events) =>
      && 0 <= pri < |s.q| && pri == s.prio[w]
      && 0 < s.slot[w] <= |s.q[pri]|
      && s.q[pri][s.slot[w] - 1] == Pending(w, events)
  }

  ghost predicate Shape(s: Queues, dummy: Watcher) {
    && |s.q| == NUMPRI && s.prio.Keys == s.slot.Keys && dummy !in s.slot
    && forall k :: 0 <= k < |s.hist| ==> s.hist[k].w in s.slot
  }

  ghost predicate Slots(s: Queues, dummy: Watcher)
    requires Shape(s, dummy)
  {
    forall p, i {:trigger SlotOk(s, dummy, p, i)} ::
      0 <= p < NUMPRI && 0 <= i < |s.q[p]| ==> SlotOk(s, dummy, p, i)
  }

  ghost predicate Debts(s: Queues, dummy: Watcher)
    requires Shape(s, dummy)
  {
    forall w {:trigger DebtOk(s, w)} :: w in s.slot ==> DebtOk(s, w)
  }

  /** Newer debts lie nearer the top. */
  predicate InOrder(s: Queues, dummy: Watcher, p: nat, i: nat, j: nat)
    requires p < |s.q| && i < j < |s.q[p]|
  {
    s.q[p][i].w != dummy && s.q[p][j].w != dummy ==>
      Since(s.hist, s.q[p][i].w) < Since(s.hist, s.q[p][j].w)
  }

  ghost predicate Sorted(s: Queues, dummy: Watcher)
    requires |s.q| == NUMPRI
  {
    forall p, i, j {:trigger InOrder(s, dummy, p, i, j)} ::
      0 <= p < NUMPRI && 0 <= i < j < |s.q[p]| ==> InOrder(s, dummy, p, i, j)
  }

  ghost predicate Ok(s: Queues, dummy: Watcher) {
    && Shape(s, dummy)
    && Slots(s, dummy)
    && Debts(s, dummy)
    && Sorted(s, dummy)
    && AllFair(s.hist)
  }

  // ---------- the steps ----------

  /** Adding events to a live slot. */
  function Merge(q: seq<Pending>, i: nat, events: bv32): seq<Pending>
    requires i < |q|
  {
    q[i := Pending(q[i].w, Join(q[i].events, events))]
  }

  /** `ev_feed_event` */
  function Feed(s: Queues, w: Watcher, events: bv32): Queues
    requires w in s.slot && w in s.prio && 0 <= s.prio[w] < |s.q| && s.slot[w] <= |s.q[s.prio[w]]|
  {
    var p := s.prio[w];
    var hist := s.hist + [Fed(w, p, events)];
    if s.slot[w] != 0 then
      s.(q := s.q[p := Merge(s.q[p], s.slot[w] - 1, events)], hist := hist)
    else
      s.(q := s.q[p := s.q[p] + [Pending(w, events)]], slot := s.slot[w := |s.q[p]| + 1], hist := hist)
  }

  /** `clear_pending` and `ev_clear_pending` */
  function Clear(s: Queues, dummy: Watcher, w: Watcher): Queues
    requires w in s.slot && s.prio.Keys == s.slot.Keys
    requires s.slot[w] != 0 ==> 0 <= s.prio[w] < |s.q| && s.slot[w] <= |s.q[s.prio[w]]|
  {
    var hist := s.hist + [Cleared(w)];
    if s.slot[w] != 0 then
      var p, i := s.prio[w], s.slot[w] - 1;
      s.(q := s.q[p := s.q[p][i := Pending(dummy, s.q[p][i].events)]], slot := s.slot[w := 0], hist := hist)
    else
      s.(hist := hist)
  }

  /** Taking the top of a stack and marking its watcher as no longer pending, which
      `ev_invoke_pending` does just before the callback. */
  function Pop(s: Queues, dummy: Watcher, p: nat): Queues
    requires p < |s.q| && s.q[p] != []
  {
    var top := s.q[p][|s.q[p]| - 1];
    var q := s.q[p := s.q[p][..|s.q[p]| - 1]];
    if top.w == dummy then s.(q := q)
    else s.(q := q, slot := s.slot[top.w := 0], hist := s.hist + [Invoked(top.w, p, top.events)])
  }

  /** Of two pending watchers of one priority, the one with the newer debt lies nearer the top. */
  lemma NewerIsHigher(s: Queues, dummy: Watcher, u: Watcher, v: Watcher)
    requires Ok(s, dummy) && u in s.slot && v in s.slot && s.slot[u] > 0 && s.slot[v] > 0 && s.prio[u] == s.prio[v]
    ensures s.slot[u] > s.slot[v] <==> Since(s.hist, u) > Since(s.hist, v)
    ensures u != v ==> Since(s.hist, u) != Since(s.hist, v)
    ensures Owed(s.hist, u).Debt? && Owed(s.hist, u).pri == s.prio[u]
    ensures Owed(s.hist, v).Debt? && Owed(s.hist, v).pri == s.prio[v]
  {
    assert DebtOk(s, u) && DebtOk(s, v);
    var p, i, j := s.prio[u], s.slot[u] - 1, s.slot[v] - 1;
    if i < j {
      assert InOrder(s, dummy, p, i, j);
    } else if j < i {
      assert InOrder(s, dummy, p, j, i);
    }
  }

  lemma FeedKeepsSlots(s: Queues, dummy: Watcher, w: Watcher, events: bv32)
    requires Ok(s, dummy) && w in s.slot && 0 <= s.prio[w] < NUMPRI
    ensures |s.q| == NUMPRI && s.slot[w] <= |s.q[s.prio[w]]|
    ensures Shape(Feed(s, w, events), dummy) && Slots(Feed(s, w, events), dummy)
  {
    assert DebtOk(s, w);
    var s' := Feed(s, w, events);
    forall p, i | 0 <= p < NUMPRI && 0 <= i < |s'.q[p]|
      ensures SlotOk(s', dummy, p, i)
    {
      if i < |s.q[p]| {
        assert SlotOk(s, dummy, p, i);
      }
    }
  }

  lemma FeedKeepsDebt(s: Queues, dummy: Watcher, w: Watcher, events: bv32, x: Watcher)
    requires Shape(s, dummy) && w in s.slot && 0 <= s.prio[w] < NUMPRI && x in s.slot
    requires DebtOk(s, w) && DebtOk(s, x)
    ensures DebtOk(Feed(s, w, events), x)
  {
    OwedAppend(s.hist, Fed(w, s.prio[w], events), x);
    if x == w {
      if s.slot[w] == 0 {
      }
    }
  }

  lemma FeedKeepsOrder(s: Queues, dummy: Watcher, w: Watcher, events: bv32, p: nat, i: nat, j: nat)
    requires Ok(s, dummy) && w in s.slot && 0 <= s.prio[w] < NUMPRI && DebtOk(s, w)
    requires p < NUMPRI && i < j < |Feed(s, w, events).q[p]|
    ensures InOrder(Feed(s, w, events), dummy, p, i, j)
  {
    var s', op := Feed(s, w, events), Fed(w, s.prio[w], events);
    assert SlotOk(s, dummy, p, i);
    SinceAppend(s.hist, op, s'.q[p][i].w);
    SinceAppend(s.hist, op, s'.q[p][j].w);
    if j < |s.q[p]| {
      assert SlotOk(s, dummy, p, j) && InOrder(s, dummy, p, i, j);
    } else if s.q[p][i].w != dummy {
      assert DebtOk(s, s.q[p][i].w);
      SinceIs(s.hist, s.q[p][i].w);
    }
  }

  lemma FeedKeeps(s: Queues, dummy: Watcher, w: Watcher, events: bv32)
    requires Ok(s, dummy) && w in s.slot && 0 <= s.prio[w] < NUMPRI
    ensures w != dummy && |s.q| == NUMPRI && s.prio.Keys == s.slot.Keys && s.slot[w] <= |s.q[s.prio[w]]|
    ensures Ok(Feed(s, w, events), dummy)
    ensures Feed(s, w, events).hist == s.hist + [Fed(w, s.prio[w], events)]
    ensures Feed(s, w, events).slot.Keys == s.slot.Keys && Feed(s, w, events).prio == s.prio
  {
    assert DebtOk(s, w);
    FeedKeepsSlots(s, dummy, w, events);
    forall x | x in s.slot
      ensures DebtOk(Feed(s, w, events), x)
    {
      assert DebtOk(s, x);
      FeedKeepsDebt(s, dummy, w, events, x);
    }
    AllFairAppend(s.hist, Fed(w, s.prio[w], events));
    hide Slots, Debts, AllFair, InOrder;
    forall p, i, j | 0 <= p < NUMPRI && 0 <= i < j < |Feed(s, w, events).q[p]|
      ensures InOrder(Feed(s, w, events), dummy, p, i, j)
    {
      FeedKeepsOrder(s, dummy, w, events, p, i, j);
    }
  }

  lemma ClearKeepsDebt(s: Queues, dummy: Watcher, w: Watcher, x: Watcher)
    requires Shape(s, dummy) && w in s.slot && x in s.slot
    requires DebtOk(s, w) && DebtOk(s, x)
    ensures DebtOk(Clear(s, dummy, w), x)
  {
    OwedAppend(s.hist, Cleared(w), x);
    if x == w {
      if s.slot[w] == 0 {
      }
    }
  }

  lemma ClearKeepsSlots(s: Queues, dummy: Watcher, w: Watcher)
    requires Ok(s, dummy) && w in s.slot && DebtOk(s, w)
    ensures Shape(Clear(s, dummy, w), dummy) && Slots(Clear(s, dummy, w), dummy)
  {
    var s' := Clear(s, dummy, w);
    forall p, i | 0 <= p < NUMPRI && 0 <= i < |s'.q[p]|
      ensures SlotOk(s', dummy, p, i)
    {
      assert SlotOk(s, dummy, p, i);
    }
  }

  lemma ClearKeepsOrder(s: Queues, dummy: Watcher, w: Watcher, p: nat, i: nat, j: nat)
    requires Ok(s, dummy) && w in s.slot && DebtOk(s, w)
    requires p < NUMPRI && i < j < |Clear(s, dummy, w).q[p]|
    ensures InOrder(Clear(s, dummy, w), dummy, p, i, j)
  {
    var s' := Clear(s, dummy, w);
    SinceAppend(s.hist, Cleared(w), s'.q[p][i].w);
    SinceAppend(s.hist, Cleared(w), s'.q[p][j].w);
    assert InOrder(s, dummy, p, i, j);
  }

  /** After a clear, what the watcher was owed is returned and no longer owed. */
  lemma ClearKeeps(s: Queues, dummy: Watcher, w: Watcher)
    requires Ok(s, dummy) && w in s.slot
    ensures w != dummy && |s.q| == NUMPRI && s.prio.Keys == s.slot.Keys && DebtOk(s, w)
    ensures Ok(Clear(s, dummy, w), dummy)
    ensures Owed(Clear(s, dummy, w).hist, w) == Nothing
  {
    assert DebtOk(s, w);
    ClearKeepsSlots(s, dummy, w);
    OwedAppend(s.hist, Cleared(w), w);
    forall x | x in s.slot
      ensures DebtOk(Clear(s, dummy, w), x)
    {
      assert DebtOk(s, w) && DebtOk(s, x);
      ClearKeepsDebt(s, dummy, w, x);
    }
    AllFairAppend(s.hist, Cleared(w));
    hide Slots, Debts, AllFair, InOrder;
    forall p, i, j | 0 <= p < NUMPRI && 0 <= i < j < |Clear(s, dummy, w).q[p]|
      ensures InOrder(Clear(s, dummy, w), dummy, p, i, j)
    {
      ClearKeepsOrder(s, dummy, w, p, i, j);
    }
  }

  /** Every queue of priority `p` or more is empty. */
  predicate EmptyFrom(q: seq<seq<Pending>>, p: int) {
    forall i :: 0 <= i < |q| && p <= i ==> q[i] == []
  }

  lemma PopKeepsSlots(s: Queues, dummy: Watcher, p: nat)
    requires Ok(s, dummy) && p < NUMPRI && s.q[p] != []
    ensures Shape(Pop(s, dummy, p), dummy) && Slots(Pop(s, dummy, p), dummy)
  {
    var s' := Pop(s, dummy, p);
    assert SlotOk(s, dummy, p, |s.q[p]| - 1);
    forall r, i | 0 <= r < NUMPRI && 0 <= i < |s'.q[r]|
      ensures SlotOk(s', dummy, r, i)
    {
      assert SlotOk(s, dummy, r, i);
    }
  }

  lemma PopKeepsDebt(s: Queues, dummy: Watcher, p: nat, x: Watcher)
    requires Shape(s, dummy) && p < NUMPRI && s.q[p] != [] && x in s.slot
    requires SlotOk(s, dummy, p, |s.q[p]| - 1) && DebtOk(s, x)
    ensures x in Pop(s, dummy, p).slot && DebtOk(Pop(s, dummy, p), x)
  {
    var top := s.q[p][|s.q[p]| - 1];
    if top.w != dummy {
      OwedAppend(s.hist, Invoked(top.w, p, top.events), x);
      if x == top.w {
      }
    }
  }

  lemma PopKeepsOrder(s: Queues, dummy: Watcher, p: nat, r: nat, i: nat, j: nat)
    requires Ok(s, dummy) && p < NUMPRI && s.q[p] != []
    requires r < NUMPRI && i < j < |Pop(s, dummy, p).q[r]|
    ensures InOrder(Pop(s, dummy, p), dummy, r, i, j)
  {
    var s', top := Pop(s, dummy, p), s.q[p][|s.q[p]| - 1];
    SinceAppend(s.hist, Invoked(top.w, p, top.events), s'.q[r][i].w);
    SinceAppend(s.hist, Invoked(top.w, p, top.events), s'.q[r][j].w);
    assert InOrder(s, dummy, r, i, j);
  }

  /** Nothing goes before the top of the highest occupied stack. */
  lemma TopIsFirst(s: Queues, dummy: Watcher, p: nat, x: Watcher)
    requires Ok(s, dummy) && p < NUMPRI && s.q[p] != [] && EmptyFrom(s.q, p + 1) && x in s.slot
    requires s.q[p][|s.q[p]| - 1].w != dummy
    ensures !Ahead(s.hist, x, s.q[p][|s.q[p]| - 1].w)
  {
    var top := |s.q[p]| - 1;
    assert SlotOk(s, dummy, p, top) && DebtOk(s, s.q[p][top].w) && DebtOk(s, x);
    if Owed(s.hist, x).Debt? && s.prio[x] == p && s.slot[x] - 1 < top {
      assert InOrder(s, dummy, p, s.slot[x] - 1, top);
    }
  }

  /** Taking from the highest non-empty priority is fair. */
  lemma PopIsFair(s: Queues, dummy: Watcher, p: nat)
    requires Ok(s, dummy) && p < NUMPRI && s.q[p] != [] && EmptyFrom(s.q, p + 1)
    ensures AllFair(Pop(s, dummy, p).hist)
  {
    var top := s.q[p][|s.q[p]| - 1];
    if top.w != dummy {
      assert SlotOk(s, dummy, p, |s.q[p]| - 1) && DebtOk(s, top.w);
      forall j {:trigger s.hist[j]} | 0 <= j < |s.hist|
        ensures !Ahead(s.hist, s.hist[j].w, top.w)
      {
        TopIsFirst(s, dummy, p, s.hist[j].w);
      }
      hide Ahead;
      AllFairAppend(s.hist, Invoked(top.w, p, top.events));
    }
  }

  lemma PopKeeps(s: Queues, dummy: Watcher, p: nat)
    requires Ok(s, dummy) && p < NUMPRI && s.q[p] != [] && EmptyFrom(s.q, p + 1)
    ensures Ok(Pop(s, dummy, p), dummy)
  {
    PopKeepsSlots(s, dummy, p);
    PopIsFair(s, dummy, p);
    forall x | x in s.slot
      ensures x in Pop(s, dummy, p).slot && DebtOk(Pop(s, dummy, p), x)
    {
      assert SlotOk(s, dummy, p, |s.q[p]| - 1) && DebtOk(s, x);
      PopKeepsDebt(s, dummy, p, x);
    }
    hide Slots, AllFair, InOrder, DebtOk;
    forall r, i, j | 0 <= r < NUMPRI && 0 <= i < j < |Pop(s, dummy, p).q[r]|
      ensures InOrder(Pop(s, dummy, p), dummy, r, i, j)
    {
      PopKeepsOrder(s, dummy, p, r, i, j);
    }
  }

  /** Changing the priority of a watcher that is not pending disturbs nothing. */
  lemma PrioKeeps(s: Queues, dummy: Watcher, w: Watcher, pri: int)
    requires Ok(s, dummy) && w in s.slot
    requires 0 <= s.prio[w] < NUMPRI ==> pri == s.prio[w]
    ensures w in s.prio && Ok(s.(prio := s.prio[w := pri]), dummy)
    ensures s.slot[w] > 0 ==> pri == s.prio[w]
  {
    var s' := s.(prio := s.prio[w := pri]);
    assert DebtOk(s, w);
    forall x | x in s'.slot
      ensures DebtOk(s', x)
    {
      assert DebtOk(s, x);
    }
    forall p, i | 0 <= p < NUMPRI && 0 <= i < |s'.q[p]|
      ensures SlotOk(s', dummy, p, i)
    {
      assert SlotOk(s, dummy, p, i);
    }
    forall p, i, j | 0 <= p < NUMPRI && 0 <= i < j < |s'.q[p]|
      ensures InOrder(s', dummy, p, i, j)
    {
      assert InOrder(s, dummy, p, i, j);
    }
  }

  lemma {:induction false} UnknownIsUnowed(hist: seq<Op>, w: Watcher)
    requires forall k :: 0 <= k < |hist| ==> hist[k].w != w
    ensures Owed(hist, w) == Nothing
  {
    if hist != [] {
      UnknownIsUnowed(hist[..|hist| - 1], w);
    }
  }

  /** A new watcher that is not pending disturbs nothing. */
  lemma NewKeeps(s: Queues, dummy: Watcher, w: Watcher, pri: int)
    requires Ok(s, dummy) && w !in s.slot && w != dummy
    ensures Ok(s.(slot := s.slot[w := 0], prio := s.prio[w := pri]), dummy)
  {
    var s' := s.(slot := s.slot[w := 0], prio := s.prio[w := pri]);
    UnknownIsUnowed(s.hist, w);
    forall x | x in s'.slot
      ensures DebtOk(s', x)
    {
      assert x != w ==> DebtOk(s, x);
    }
    forall p, i | 0 <= p < NUMPRI && 0 <= i < |s'.q[p]|
      ensures SlotOk(s', dummy, p, i)
    {
      assert SlotOk(s, dummy, p, i);
    }
    forall p, i, j | 0 <= p < NUMPRI && 0 <= i < j < |s'.q[p]|
      ensures InOrder(s', dummy, p, i, j)
    {
      assert InOrder(s, dummy, p, i, j);
    }
  }

  /** With every queue empty, nobody is owed anything. */
  lemma EmptyMeansPaid(s: Queues, dummy: Watcher, w: Watcher)
    requires Ok(s, dummy) && EmptyFrom(s.q, 0) && w in s.slot
    ensures Owed(s.hist, w) == Nothing && s.slot[w] == 0
  {
    assert DebtOk(s, w);
  }

  // ---------- what invoking everything does when callbacks feed nothing ----------

  /** One stack, from the top down. */
  function DrainOne(q: seq<Pending>, p: nat, dummy: Watcher): seq<Op> {
    if q == [] then []
    else
      var top := q[|q| - 1];
      (if top.w == dummy then [] else [Invoked(top.w, p, top.events)]) + DrainOne(q[..|q| - 1], p, dummy)
  }

  /** The stacks of priorities below `n`, highest first. */
  function Drain(q: seq<seq<Pending>>, n: nat, dummy: Watcher): seq<Op>
    requires n <= |q|
  {
    if n == 0 then [] else DrainOne(q[n - 1], n - 1, dummy) + Drain(q, n - 1, dummy)
  }

  lemma {:induction false} DrainFrame(q: seq<seq<Pending>>, q': seq<seq<Pending>>, n: nat, dummy: Watcher)
    requires n <= |q| == |q'| && forall i :: 0 <= i < n ==> q[i] == q'[i]
    ensures Drain(q, n, dummy) == Drain(q', n, dummy)
  {
    if n > 0 {
      DrainFrame(q, q', n - 1, dummy);
    }
  }

  lemma DrainPop(s: Queues, dummy: Watcher, p: nat)
    requires p < |s.q| && s.q[p] != []
    ensures s.hist + Drain(s.q, p + 1, dummy) == Pop(s, dummy, p).hist + Drain(Pop(s, dummy, p).q, p + 1, dummy)
  {
    var s' := Pop(s, dummy, p);
    var top := s.q[p][|s.q[p]| - 1];
    var rest := DrainOne(s'.q[p], p, dummy);
    var lower := Drain(s.q, p, dummy);
    DrainFrame(s.q, s'.q, p, dummy);
    assert Drain(s'.q, p + 1, dummy) == rest + lower;
    if top.w == dummy {
      assert DrainOne(s.q[p], p, dummy) == [] + rest == rest;
    } else {
      var op := Invoked(top.w, p, top.events);
      assert DrainOne(s.q[p], p, dummy) == [op] + rest;
      assert s.hist + (([op] + rest) + lower) == (s.hist + [op]) + (rest + lower);
    }
  }

  lemma DrainEmptyTop(q: seq<seq<Pending>>, p: nat, dummy: Watcher)
    requires p < |q| && q[p] == []
    ensures Drain(q, p + 1, dummy) == Drain(q, p, dummy)
    ensures p == 0 ==> Drain(q, p, dummy) == []
  {
  }

  /** Draining is a run of the dispatcher: it ends with empty queues, in order. */
  lemma {:induction false} DrainRun(s: Queues, dummy: Watcher, n: nat) returns (r: Queues)
    requires Ok(s, dummy) && n <= NUMPRI == |s.q| && EmptyFrom(s.q, n)
    ensures Ok(r, dummy) && EmptyFrom(r.q, 0) && r.slot.Keys == s.slot.Keys
    ensures r.hist == s.hist + Drain(s.q, n, dummy)
    decreases n, if n == 0 then 0 else |s.q[n - 1]|
  {
    hide Ok, Drain;
    if n == 0 {
      DrainNone(s.q, dummy);
      r := s;
    } else if s.q[n - 1] == [] {
      DrainEmptyTop(s.q, n - 1, dummy);
      r := DrainRun(s, dummy, n - 1);
    } else {
      PopKeeps(s, dummy, n - 1);
      DrainPop(s, dummy, n - 1);
      PopKeys(s, dummy, n - 1);
      r := DrainRun(Pop(s, dummy, n - 1), dummy, n);
    }
  }

  lemma DrainNone(q: seq<seq<Pending>>, dummy: Watcher)
    ensures Drain(q, 0, dummy) == []
  {
  }

  lemma PopKeys(s: Queues, dummy: Watcher, p: nat)
    requires Ok(s, dummy) && p < NUMPRI && s.q[p] != [] && EmptyFrom(s.q, p + 1)
    ensures Pop(s, dummy, p).slot.Keys == s.slot.Keys && |Pop(s, dummy, p).q| == NUMPRI
    ensures EmptyFrom(Pop(s, dummy, p).q, p + 1) && |Pop(s, dummy, p).q[p]| == |s.q[p]| - 1
  {
    assert SlotOk(s, dummy, p, |s.q[p]| - 1);
  }
}
