/** What `ev_timer` and `ev_periodic` have in common: a heap of the active watchers, and the
    clock that decides which of them are due. Times are exact real numbers. */
module TimeSets {
  import opened Watchers
  import opened Queues
  import opened Dispatch
  import opened FourHeap
  import opened WatcherHeaps
  import opened Expiry
  import opened ReverseFeed
  import opened Callbacks
  import opened Recalc

  function Max(a: real, b: real): real { if a < b then b else a }

  /** The fields of a watcher that say when it is due again. */
  datatype Rule = Rule(kind: Kind, repeat: real, reschedule: bool, interval: real, offset: real)

  type Rules = map<Watcher, Rule>

  function RuleOf(w: Watcher): Rule
    reads w`repeat, w`reschedule, w`interval, w`offset
  {
    Rule(w.kind, w.repeat, w.reschedule, w.interval, w.offset)
  }

  /** What must become of a due watcher whose time was `at`. `answer` is what its
      `reschedule_cb` returns. */
  ghost predicate NextOk(r: Rule, at: real, now: real, answer: real, next: Next) {
    if r.kind == Timer then
      next == if r.repeat != 0.0 then At(Max(at + r.repeat, now)) else Halt
    else if r.reschedule then next == At(answer)
    else if r.interval == 0.0 then next == Halt
    else
      && next.At? && now < next.at <= now + r.interval
      && (r.interval >= MIN_INTERVAL ==>
            next.at == Grid(r.offset, r.interval, ((now - r.offset) / r.interval).Floor + 1))
  }

  /** When a repeating timer is due for the `n`-th time, if the loop comes to it at `nows`. */
  ghost predicate Repeats(r: Rule, at: seq<real>, nows: seq<real>, cb: real) {
    && |at| == |nows| + 1
    && forall i {:trigger nows[i]} :: 0 <= i < |nows| ==> NextOk(r, at[i], nows[i], cb, At(at[i + 1]))
  }

  /** A repeating timer does not drift: as long as the loop comes to it before it is due again, it
      is due at exact multiples of its interval after the start, however late it was in between. */
  lemma {:induction false} NoDrift(r: Rule, at: seq<real>, nows: seq<real>, cb: real)
    requires r.kind == Timer && r.repeat > 0.0 && Repeats(r, at, nows, cb)
    requires forall i {:trigger nows[i]} :: 0 <= i < |nows| ==> nows[i] <= at[i] + r.repeat
    ensures at[|nows|] == at[0] + Mul(r.repeat, |nows| as real)
  {
    MulSub(r.repeat, 0.0, 0.0);
    if nows != [] {
      var n := |nows| - 1;
      assert forall i {:trigger nows[..n][i]} :: 0 <= i < n ==> nows[..n][i] == nows[i];
      NoDrift(r, at[..n + 1], nows[..n], cb);
      assert NextOk(r, at[n], nows[n], cb, At(at[n + 1])) by { assert nows[n] == nows[n]; }
      MulSub(r.repeat, n as real, 1.0);
    }
  }

  /** If it comes too late for that, the timer is due at once, and not several times. */
  lemma LateIsOnce(r: Rule, at: real, now: real, cb: real, next: Next)
    requires r.kind == Timer && r.repeat > 0.0 && NextOk(r, at, now, cb, next)
    ensures next.At? && next.at >= now && next.at >= at + r.repeat && (now > at + r.repeat ==> next.at == now)
  {
  }

  /** A periodic that is reified before the next grid point is due at exactly that one. */
  lemma GridIsFollowed(r: Rule, n: int, now: real, cb: real, next: Next)
    requires r.kind != Timer && !r.reschedule && r.interval >= MIN_INTERVAL
    requires Grid(r.offset, r.interval, n) <= now < Grid(r.offset, r.interval, n + 1)
    requires NextOk(r, Grid(r.offset, r.interval, n), now, cb, next)
    ensures next == At(Grid(r.offset, r.interval, n + 1))
  {
    MulSub(r.interval, n as real, 1.0);
    assert (n + 1) as real == n as real + 1.0;
    GridPointUnique(r.offset, r.interval, now, n + 1, ((now - r.offset) / r.interval).Floor + 1);
    hide Mul;
  }

  /** What the source demands: no negative repeats or intervals, and no answers of
      `reschedule_cb` that lie in the past. */
  predicate SaneRule(r: Rule, now: real, answer: real) {
    if r.kind == Timer then r.repeat >= 0.0 else r.interval >= 0.0 && (r.reschedule ==> answer >= now)
  }

  ghost predicate NextsOk(start: Times, rules: Rules, now: real, cb: Watcher -> real, nexts: Nexts, fired: seq<Watcher>) {
    forall i :: 0 <= i < |fired| ==> var w := fired[i];
      w in start && w in rules && w in nexts && NextOk(rules[w], start[w], now, cb(w), nexts[w])
  }

  lemma NextsNone(start: Times, rules: Rules, now: real, cb: Watcher -> real, nexts: Nexts)
    ensures NextsOk(start, rules, now, cb, nexts, [])
  {
  }

  lemma NextsAppend(start: Times, rules: Rules, now: real, cb: Watcher -> real, nexts: Nexts, fired: seq<Watcher>,
                    w: Watcher, next: Next)
    requires NextsOk(start, rules, now, cb, nexts, fired) && w !in fired
    requires w in start && w in rules && NextOk(rules[w], start[w], now, cb(w), next)
    ensures NextsOk(start, rules, now, cb, nexts[w := next], fired + [w])
  {
  }

  class TimeSet {
    const loop: Loop
    const kind: Kind
    const heap: WatcherHeap // timers and timercnt, or periodics and periodiccnt
    var now: real           // mn_now, or ev_rt_now

    /** The heap holds the active watchers of this kind. */
    ghost predicate Linked()
      reads loop`running, heap`members
    {
      && (forall w :: w in heap.members ==> w in loop.running && w.kind == kind)
      && (forall w :: w in loop.running && w.kind == kind ==> w in heap.members)
    }

    ghost predicate Valid()
      reads loop`pendings, loop`all, loop`hist, loop`activecnt, loop`running, loop`refs
      reads loop.all`pending, loop.all`priority, loop.all`active, loop.dummy`pending
      reads heap, heap.heap, heap.members`active, heap.members`at, heap.members`priority
    {
      && loop.Valid() && loop.Counted() && heap.Valid() && Linked()
      && forall w :: w in heap.members ==> 0 <= w.Pri() < NUMPRI
    }

    constructor (loop: Loop, kind: Kind)
      requires loop.Valid() && loop.Counted() && forall w :: w in loop.running ==> w.kind != kind
      ensures Valid() && this.loop == loop && this.kind == kind && heap.members == {} && now == 0.0
      ensures fresh(heap) && fresh(heap.heap)
    {
      this.loop, this.kind := loop, kind;
      heap := new WatcherHeap(loop.dummy);
      now := 0.0;
    }

    lemma LoopIsValid()
      requires Valid()
      ensures loop.Valid() && loop.Counted() && heap.Valid() && Linked()
    {
    }

    /** `ev_start`, then the entry into the heap. */
    method Activate(w: Watcher)
      requires Valid() && w in loop.all && w.kind == kind && w.active == 0
      modifies loop`activecnt, loop`running, w`active, w`priority, heap, heap.heap, heap.members`active
      ensures Valid() && heap.members == old(heap.members) + {w} && w.active != 0
      ensures loop.running == old(loop.running) + {w}
      ensures heap.heap == old(heap.heap) || fresh(heap.heap)
    {
      hide Loop.Valid, Loop.Counted, WatcherHeap.Valid;
      assert w !in heap.members by { loop.InactiveIs(w); }
      loop.EvStart(w, heap.cnt + HEAP0);
      Enter(w);
    }

    /** The entry into the heap. */
    method Enter(w: Watcher)
      requires loop.Valid() && loop.Counted() && heap.Valid() && w in loop.running && w !in heap.members && w.active == heap.cnt + HEAP0
      requires heap.members <= loop.running
      modifies w`active, heap, heap.heap, heap.members`active
      ensures loop.Valid() && loop.Counted() && heap.Valid() && heap.members == old(heap.members) + {w} && w.active != 0
      ensures heap.heap == old(heap.heap) || fresh(heap.heap)
    {
      hide Loop.Valid, Loop.Counted, WatcherHeap.Valid;
      heap.Insert(w);
      heap.AllActive();
      loop.CountedKept();
    }

    /** The exit from the heap, then `ev_stop`. */
    method Deactivate(w: Watcher)
      requires Valid() && w in heap.members
      modifies loop`activecnt, loop`running, w`active, heap, heap.heap, heap.members`active
      ensures Valid() && w.active == 0 && loop.running == old(loop.running) - {w}
      ensures heap.members == old(heap.members) - {w} && heap.heap == old(heap.heap)
      ensures heap.Times() == old(heap.Times()) - {w}
    {
      hide Loop.Valid, Loop.Counted, WatcherHeap.Valid;
      loop.InactiveIs(w);
      heap.Remove(w);
      heap.AllActive();
      loop.CountedKept();
      loop.EvStop(w);
    }

    /** `clear_pending`, then leave the heap if active. */
    method Stop(w: Watcher)
      requires Valid() && w in loop.all && w.kind == kind
      modifies loop`pendings, loop`hist, loop`activecnt, loop`running
      modifies w`pending, w`active, heap, heap.heap, heap.members`active
      ensures Valid() && w.pending == 0 && w.active == 0
      ensures DebtOk(old(loop.Abs()), w) && w != loop.dummy
      ensures loop.Abs() == Clear(old(loop.Abs()), loop.dummy, w) && loop.running == old(loop.running) - {w}
      ensures loop.hist == old(loop.hist) + [Cleared(w)]
      ensures heap.members == old(heap.members) - {w} && heap.heap == old(heap.heap)
      ensures heap.Times() == old(heap.Times()) - {w}
    {
      hide Loop.Valid, Loop.Counted, WatcherHeap.Valid, Clear, DebtOk;
      loop.InactiveIs(w);
      var _ := loop.ClearPending(w);
      if w.active != 0 {
        Deactivate(w);
      }
    }

    /** A new time for an active watcher, cached and moved to its place. */
    method Retime(w: Watcher, at: real)
      requires Valid() && w in heap.members
      modifies w`at, heap.heap, heap.members`active
      ensures Valid() && w.at == at && heap.Times() == old(heap.Times())[w := at]
    {
      hide Loop.Valid, Loop.Counted, WatcherHeap.ValidAs;
      loop.InactiveIs(w);
      ghost var times := heap.Times();
      w.at := at;
      assert heap.Times() == times[w := at];
      heap.Reposition(w, times);
      heap.AllActive();
      loop.CountedKept();
    }

    /** The same for the root, which can only sink. */
    method RetimeRoot(w: Watcher, at: real)
      requires Valid() && heap.cnt > 0 && heap.heap.Length > HEAP0 && w == heap.heap[HEAP0].w && w in heap.members
      modifies w`at, heap.heap, heap.members`active
      ensures Valid() && w.at == at && heap.Times() == old(heap.Times())[w := at]
    {
      hide Loop.Valid, Loop.Counted, WatcherHeap.ValidAs;
      loop.InactiveIs(w);
      ghost var times := heap.Times();
      w.at := at;
      assert heap.Times() == times[w := at];
      heap.SinkRoot(times);
      heap.AllActive();
      loop.CountedKept();
    }

    /** The time at which a due watcher is due again, if it is. */
    method NextTime(w: Watcher, cb: Watcher -> real) returns (next: Next)
      requires w.kind == kind && SaneRule(RuleOf(w), now, cb(w))
      ensures NextOk(RuleOf(w), w.at, now, cb(w), next) && (next.At? ==> next.at >= now)
    {
      hide Grid, StartsOnGrid, OnGrid;
      if kind == Timer {
        if w.repeat != 0.0 {
          next := At(w.at + w.repeat);
          if next.at < now {
            next := At(now);
          }
        } else {
          next := Halt;
        }
      } else if w.reschedule {
        next := At(cb(w));
      } else if w.interval != 0.0 {
        var at, _ := PeriodicRecalc(w.offset, w.interval, now);
        next := At(at);
      } else {
        next := Halt;
      }
    }

    /** `rules` are the rules of the active watchers, and they are sane. */
    ghost predicate Sane(rules: Rules, cb: Watcher -> real)
      reads this`now, heap`members
      reads heap.members`repeat, heap.members`interval, heap.members`reschedule, heap.members`offset
    {
      forall w :: w in heap.members ==> w in rules && rules[w] == RuleOf(w) && SaneRule(rules[w], now, cb(w))
    }

    /** The same without asking anything of `reschedule_cb`. */
    ghost predicate Ruled(rules: Rules)
      reads heap`members, heap.members`repeat, heap.members`interval, heap.members`reschedule, heap.members`offset
    {
      forall w :: w in heap.members ==> w in rules && rules[w] == RuleOf(w) && rules[w].interval >= 0.0
    }

    /** Reschedule or stop the root. */
    method SettleRoot(w: Watcher, next: Next)
      requires Valid() && heap.cnt > 0 && heap.heap.Length > HEAP0 && w == heap.heap[HEAP0].w && w in heap.members
      modifies loop`pendings, loop`hist, loop`activecnt, loop`running
      modifies w`pending, w`active, w`at, heap, heap.heap, heap.members`active
      ensures Valid() && heap.heap == old(heap.heap) && heap.members <= old(heap.members)
      ensures heap.Times() == Fire(old(heap.Times()), w, next)
      ensures next.At? ==> loop.Abs() == old(loop.Abs())
      ensures next.Halt? ==>
        DebtOk(old(loop.Abs()), w) && w != loop.dummy && loop.Abs() == Clear(old(loop.Abs()), loop.dummy, w)
    {
      hide Loop.Valid, Loop.Counted, WatcherHeap.Valid, DebtOk, Clear, Loop.Abs;
      loop.InactiveIs(w);
      if next.At? {
        RetimeRoot(w, next.at);
      } else {
        Stop(w);
      }
    }

    /** The root, if there is one, is the earliest active watcher. */
    lemma Root()
      requires Valid() && heap.cnt > 0
      ensures heap.heap.Length > HEAP0
      ensures var w := heap.heap[HEAP0].w;
        && w in heap.members && w in heap.Times() && heap.Times()[w] == w.at
        && w in loop.all && w.kind == kind && 0 <= w.Pri() < NUMPRI
        && w.at == heap.heap[HEAP0].at && forall x :: x in heap.members ==> w.at <= x.at
    {
      heap.Earliest();
      loop.InactiveIs(heap.heap[HEAP0].w);
    }

    /** A watcher at the root that is due is one of the due ones. */
    lemma RootIsDue()
      requires Valid()
      ensures HEAP0 + heap.cnt <= heap.heap.Length
      ensures (heap.cnt > 0 && heap.heap[HEAP0].at < now) <==> Due(heap.Times(), now) != {}
    {
      heap.Earliest();
      if heap.cnt > 0 {
        var w := heap.heap[HEAP0].w;
        assert w in heap.members && heap.Times()[w] == w.at;
        if w.at < now {
          assert w in Due(heap.Times(), now);
        }
      }
    }

    /** With nothing fired, everything is as it was. */
    lemma NothingFired(rules: Rules, cb: Watcher -> real, events: bv32)
      requires Valid()
      ensures Fired(heap.Times(), heap.Times(), map[], now, [])
      ensures NextsOk(heap.Times(), rules, now, cb, map[], [])
      ensures Firable(loop.Abs(), loop.dummy, map[], []) && Known(loop.Abs(), [])
      ensures Reified(loop.Abs(), loop.dummy, map[], [], events) == loop.Abs()
    {
      FiredNone(heap.Times(), now);
    }

    /** One round of the firing loop: reschedule or stop the root, then `feed_reverse`. */
    method FireRoot(ghost rules: Rules, cb: Watcher -> real) returns (w: Watcher, next: Next)
      requires Valid() && Sane(rules, cb)
      requires heap.cnt > 0 && heap.heap.Length > HEAP0 && heap.heap[HEAP0].at < now
      modifies loop`pendings, loop`hist, loop`activecnt, loop`running, loop`rfeeds
      modifies heap, heap.heap, heap.members`pending, heap.members`active, heap.members`at
      ensures Valid() && Sane(rules, cb) && heap.heap == old(heap.heap) && heap.members <= old(heap.members)
      ensures w == old(heap.heap[HEAP0].w) && w in old(heap.Times()) && w in loop.all && 0 <= w.Pri() < NUMPRI
      ensures w in rules && NextOk(rules[w], old(heap.Times())[w], now, cb(w), next) && (next.At? ==> next.at >= now)
      ensures heap.Times() == Fire(old(heap.Times()), w, next)
      ensures loop.rfeeds == old(loop.rfeeds) + [w]
      ensures next.At? ==> loop.Abs() == old(loop.Abs())
      ensures next.Halt? ==>
        DebtOk(old(loop.Abs()), w) && w != loop.dummy && loop.Abs() == Clear(old(loop.Abs()), loop.dummy, w)
    {
      hide TimeSet.Valid, DebtOk, Clear, NextOk, Fire, Loop.Abs, RuleOf, SaneRule, WatcherHeap.Times;
      Root();
      w := heap.heap[HEAP0].w;
      next := NextTime(w, cb);
      SettleRoot(w, next);
      loop.FeedReverse(w);
    }

    /** The firing loop of `timers_reify` and `periodics_reify`. */
    method FireDue(ghost rules: Rules, cb: Watcher -> real) returns (ghost fired: seq<Watcher>, ghost nexts: Nexts)
      requires Valid() && loop.rfeeds == [] && Sane(rules, cb)
      requires heap.cnt > 0 && heap.heap.Length > HEAP0 && heap.heap[HEAP0].at < now
      modifies loop`pendings, loop`hist, loop`activecnt, loop`running, loop`rfeeds
      modifies heap, heap.heap, heap.members`pending, heap.members`active, heap.members`at
      ensures Valid() && Sane(rules, cb) && heap.heap == old(heap.heap) && heap.members <= old(heap.members)
      ensures loop.rfeeds == fired != [] && Known(loop.Abs(), fired)
      ensures Fired(old(heap.Times()), heap.Times(), nexts, now, fired)
      ensures NextsOk(old(heap.Times()), rules, now, cb, nexts, fired)
      ensures Due(heap.Times(), now) == {}
      ensures Firable(old(loop.Abs()), loop.dummy, nexts, fired)
      ensures loop.Abs() == Stopped(old(loop.Abs()), loop.dummy, nexts, fired)
    {
      hide Loop.Valid, Loop.Counted, WatcherHeap.Valid, Fired, Fire, NextOk, NextsOk, Sane;
      ghost var start, s0 := heap.Times(), loop.Abs();
      fired, nexts := [], map[];
      FiredNone(start, now);
      NextsNone(start, rules, now, cb, nexts);
      while true
        invariant Valid() && heap.heap == old(heap.heap) && heap.members <= old(heap.members) && Sane(rules, cb)
        invariant Fired(start, heap.Times(), nexts, now, fired)
        invariant NextsOk(start, rules, now, cb, nexts, fired)
        invariant loop.rfeeds == fired && Known(loop.Abs(), fired)
        invariant Firable(s0, loop.dummy, nexts, fired)
        invariant loop.Abs() == Stopped(s0, loop.dummy, nexts, fired)
        invariant heap.cnt > 0 && heap.heap.Length > HEAP0 && heap.heap[HEAP0].at < now
        decreases Due(heap.Times(), now)
      {
        ghost var times, s := heap.Times(), loop.Abs();
        heap.Earliest();
        var w, next := FireRoot(rules, cb);
        FireStep(start, times, nexts, now, fired, w, next);
        FireShrinks(times, now, w, next);
        StoppedAppend(s0, loop.dummy, nexts, fired, w, next);
        KnownAppend(s, loop.Abs(), fired, w);
        NextsAppend(start, rules, now, cb, nexts, fired, w, next);
        fired, nexts := fired + [w], nexts[w := next];
        heap.Earliest();
        if !(heap.cnt > 0 && heap.heap[HEAP0].at < now) {
          break;
        }
      }
    }

    /** `feed_reverse_done` does not touch the heap. */
    method FeedFired(events: bv32)
      requires Valid() && loop.rfeeds != [] && Known(loop.Abs(), loop.rfeeds)
      modifies loop`pendings, loop`pendingpri, loop`hist, loop`rfeeds, loop.all`pending
      ensures Valid() && loop.rfeeds == [] && heap.Times() == old(heap.Times())
      ensures loop.Abs() == FeedBack(old(loop.Abs()), loop.dummy, old(loop.rfeeds), events)
    {
      hide Loop.Valid, Loop.Counted, WatcherHeap.ValidAs, FeedBack;
      loop.FeedReverseDone(events);
    }

    /** `timers_reify`, and one turn of the outer loop of `periodics_reify`, when something
        is due. */
    method ReifyDue(ghost rules: Rules, cb: Watcher -> real, events: bv32)
      returns (ghost fired: seq<Watcher>, ghost nexts: Nexts)
      requires Valid() && loop.rfeeds == [] && Sane(rules, cb)
      requires heap.cnt > 0 && heap.heap.Length > HEAP0 && heap.heap[HEAP0].at < now
      modifies loop`pendings, loop`pendingpri, loop`hist, loop`activecnt, loop`running, loop`rfeeds
      modifies heap, heap.heap, loop.all`pending, heap.members`active, heap.members`at
      ensures Valid() && loop.rfeeds == []
      ensures Fired(old(heap.Times()), heap.Times(), nexts, now, fired) && heap.heap == old(heap.heap)
      ensures Due(heap.Times(), now) == {}
      ensures NextsOk(old(heap.Times()), rules, now, cb, nexts, fired)
      ensures Firable(old(loop.Abs()), loop.dummy, nexts, fired) && Known(old(loop.Abs()), fired)
      ensures loop.Abs() == Reified(old(loop.Abs()), loop.dummy, nexts, fired, events)
    {
      hide Loop.Counted, WatcherHeap.Valid, Fired, TimeSet.Sane, NextsOk;
      loop.InactiveIs(loop.dummy);
      fired, nexts := FireDue(rules, cb);
      FeedFired(events);
    }

    /** `ev_invoke_pending` does not touch the heap. */
    method Invoke(script: Script, at: nat) returns (next: nat, ghost ops: seq<Op>)
      requires Valid() && |loop.pendings| == NUMPRI && loop.ScriptOk(script) && at <= |script|
      modifies loop`pendings, loop`pendingpri, loop`hist, loop.all`pending, loop.dummy`pending
      ensures Valid() && |loop.pendings| == NUMPRI && EmptyFrom(loop.pendings, 0) && heap.Times() == old(heap.Times())
      ensures loop.hist == old(loop.hist) + ops && CarriedOut([], script, at, next, loop.Prio(), ops)
    {
      hide Loop.Valid, Loop.Counted, Loop.ScriptOk, WatcherHeap.ValidAs, CarriedOut;
      next, ops := loop.InvokePending(script, at);
    }
  }
}
