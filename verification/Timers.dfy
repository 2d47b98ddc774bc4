/** Relative timers: `ev_timer_start`, `ev_timer_stop`, `ev_timer_again`, `timers_reify` and
    `timers_reschedule`. */
module Timers {
  import opened Watchers
  import opened Queues
  import opened Dispatch
  import opened FourHeap
  import opened WatcherHeaps
  import opened Expiry
  import opened ReverseFeed
  import opened Histories
  import opened Callbacks
  import opened TimeSets

  /** `ev_timer_start` */
  method TimerStart(ts: TimeSet, w: Watcher)
    requires ts.kind == Timer && ts.Valid() && w in ts.loop.all && w.kind == Timer && w.repeat >= 0.0
    modifies ts.loop`activecnt, ts.loop`running, w`active, w`priority, w`at
    modifies ts.heap, ts.heap.heap, ts.heap.members`active
    ensures ts.Valid() && w.active != 0
    ensures ts.heap.members == old(ts.heap.members) + {w} && ts.loop.running == old(ts.loop.running) + {w}
    ensures w.at == if old(w.active) != 0 then old(w.at) else old(w.at) + ts.now
    ensures ts.heap.heap == old(ts.heap.heap) || fresh(ts.heap.heap)
  {
    hide Loop.Valid, Loop.Counted, WatcherHeap.Valid;
    ts.loop.InactiveIs(w);
    if w.active != 0 {
      return;
    }
    w.at := w.at + ts.now;
    ts.Activate(w);
  }

  /** `ev_timer_stop` */
  method TimerStop(ts: TimeSet, w: Watcher)
    requires ts.kind == Timer && ts.Valid() && w in ts.loop.all && w.kind == Timer
    modifies ts.loop`pendings, ts.loop`hist, ts.loop`activecnt, ts.loop`running
    modifies w`pending, w`active, w`at, ts.heap, ts.heap.heap, ts.heap.members`active
    ensures ts.Valid() && w.pending == 0 && w.active == 0
    ensures ts.heap.members == old(ts.heap.members) - {w} && ts.loop.running == old(ts.loop.running) - {w}
    ensures w.at == if old(w.active) != 0 then old(w.at) - ts.now else old(w.at)
    ensures DebtOk(old(ts.loop.Abs()), w) && w != ts.loop.dummy
    ensures ts.loop.Abs() == Clear(old(ts.loop.Abs()), ts.loop.dummy, w)
    ensures ts.loop.hist == old(ts.loop.hist) + [Cleared(w)] && ts.heap.heap == old(ts.heap.heap)
  {
    hide Loop.Valid, Loop.Counted, WatcherHeap.Valid, Clear, DebtOk;
    var active := w.active;
    ts.Stop(w);
    if active != 0 {
      w.at := w.at - ts.now;
    }
  }

  /** `ev_timer_again` */
  method TimerAgain(ts: TimeSet, w: Watcher)
    requires ts.kind == Timer && ts.Valid() && w in ts.loop.all && w.kind == Timer && w.repeat >= 0.0
    modifies ts.loop`pendings, ts.loop`hist, ts.loop`activecnt, ts.loop`running
    modifies w`pending, w`active, w`at, w`priority, ts.heap, ts.heap.heap, ts.heap.members`active
    ensures ts.Valid() && w.pending == 0
    ensures w.repeat != 0.0 ==>
      && ts.heap.members == old(ts.heap.members) + {w} && ts.loop.running == old(ts.loop.running) + {w}
      && w.at == ts.now + w.repeat
    ensures w.repeat == 0.0 ==>
      && ts.heap.members == old(ts.heap.members) - {w} && ts.loop.running == old(ts.loop.running) - {w}
      && w.at == if old(w.active) != 0 then old(w.at) - ts.now else old(w.at)
    ensures DebtOk(old(ts.loop.Abs()), w) && w != ts.loop.dummy
    ensures ts.loop.pendings == Clear(old(ts.loop.Abs()), ts.loop.dummy, w).q
    ensures ts.loop.hist == old(ts.loop.hist) +
      if old(w.active) != 0 && w.repeat == 0.0 then [Cleared(w), Cleared(w)] else [Cleared(w)]
  {
    hide Loop.Valid, Loop.Counted, WatcherHeap.Valid, Clear, DebtOk;
    ts.loop.InactiveIs(w);
    var _ := ts.loop.ClearPending(w);
    if w.active != 0 {
      if w.repeat != 0.0 {
        ts.Retime(w, ts.now + w.repeat);
      } else {
        TimerStop(ts, w);
        ClearedTwice(old(ts.loop.Abs()), ts.loop.dummy, w);
      }
    } else if w.repeat != 0.0 {
      w.at := w.repeat;
      TimerStart(ts, w);
    }
  }

  /** Clearing again changes nothing. */
  lemma ClearedTwice(s: Queues, dummy: Watcher, w: Watcher)
    requires w in s.slot && s.prio.Keys == s.slot.Keys && DebtOk(s, w)
    ensures var r := Clear(s, dummy, w); w in r.slot && r.slot[w] == 0 && Clear(r, dummy, w).q == r.q
  {
  }

  /** `timers_reify`: every due timer is fired exactly once, in the order of expiry, and none
      is due afterwards; the others are left alone. The queues hold what stopping the one-shot
      timers and feeding all of them in reverse leaves. */
  method TimersReify(ts: TimeSet, ghost rules: Rules) returns (ghost fired: seq<Watcher>, ghost nexts: Nexts)
    requires ts.kind == Timer && ts.Valid() && ts.loop.rfeeds == [] && ts.Sane(rules, NoCb)
    modifies ts.loop`pendings, ts.loop`pendingpri, ts.loop`hist, ts.loop`activecnt, ts.loop`running, ts.loop`rfeeds
    modifies ts.heap, ts.heap.heap, ts.loop.all`pending, ts.heap.members`active, ts.heap.members`at
    ensures ts.Valid() && ts.loop.rfeeds == []
    ensures Fired(old(ts.heap.Times()), ts.heap.Times(), nexts, ts.now, fired) && ts.heap.heap == old(ts.heap.heap)
    ensures Due(ts.heap.Times(), ts.now) == {}
    ensures NextsOk(old(ts.heap.Times()), rules, ts.now, NoCb, nexts, fired)
    ensures Firable(old(ts.loop.Abs()), ts.loop.dummy, nexts, fired) && Known(old(ts.loop.Abs()), fired)
    ensures ts.loop.Abs() == Reified(old(ts.loop.Abs()), ts.loop.dummy, nexts, fired, EV_TIMER)
  {
    hide TimeSet.Valid, Fired, TimeSet.Sane, NextsOk, Reified, Firable, Known, Due, Loop.Abs, WatcherHeap.Times;
    fired, nexts := [], map[];
    ts.NothingFired(rules, NoCb, EV_TIMER);
    ts.RootIsDue();
    if ts.heap.cnt > 0 && ts.heap.heap[HEAP0].at < ts.now {
      fired, nexts := ts.ReifyDue(rules, NoCb, EV_TIMER);
    }
  }

  /** `timers_reschedule`: every time moves by the same amount, and the heap stays a heap. */
  method TimersReschedule(ts: TimeSet, adjust: real)
    requires ts.kind == Timer && ts.Valid()
    modifies ts.heap.heap, ts.heap.members`at
    ensures ts.Valid()
    ensures forall w :: w in ts.heap.members ==> w.at == old(w.at) + adjust
  {
    hide Loop.Valid, Loop.Counted, WatcherHeap.Valid;
    ts.heap.Shift(adjust);
  }

  /** From `lo` on, the fired timer `u` is called exactly once, with what it was owed at `lo`: the
      new event, and what it was owed before if it has kept its place. */
  ghost predicate CallIs(nexts: Nexts, s: Queues, hist: seq<Op>, lo: nat, u: Watcher)
    requires lo <= |hist|
  {
    && u in s.slot && u in s.prio && u in nexts && CalledOnce(hist, lo, u)
    && Owed(hist[..lo], u) == After(if Kept(s, nexts, u) then Owed(s.hist, u) else Nothing, Fed(u, s.prio[u], EV_TIMER), u)
  }

  /** Two fired timers of one priority are called in the order of their original expiry exactly
      unless the earlier one has kept an old, lower place in the queue. */
  ghost predicate OrderIs(start: Times, nexts: Nexts, s: Queues, hist: seq<Op>, lo: nat, u: Watcher, v: Watcher)
    requires lo <= |hist|
  {
    u in start && v in start && u in nexts && v in nexts && u in s.slot && v in s.slot && u in s.prio && v in s.prio
    && start[u] < start[v] && s.prio[u] == s.prio[v]
    ==> (FirstOn(hist, lo, u) < FirstOn(hist, lo, v) <==> CalledFirst(s, nexts, u, v))
  }

  /** That is so for all fired timers that no callback feeds or clears. */
  ghost predicate ByExpiry(start: Times, nexts: Nexts, fired: seq<Watcher>, s: Queues, script: Script, hist: seq<Op>, lo: nat)
    requires lo <= |hist|
  {
    && (forall u {:trigger CallIs(nexts, s, hist, lo, u)} :: u in fired && Spares(script, u) ==> CallIs(nexts, s, hist, lo, u))
    && (forall u, v {:trigger OrderIs(start, nexts, s, hist, lo, u, v)} ::
          u in fired && v in fired && Spares(script, u) && Spares(script, v) ==> OrderIs(start, nexts, s, hist, lo, u, v))
  }

  /** `timers_reify` and then `ev_invoke_pending`, whatever the callbacks do to other watchers:
      `before` is the history in between, `ops` what the dispatch adds to it. */
  method ExpireAndInvoke(ts: TimeSet, ghost rules: Rules, script: Script)
    returns (next: nat, ghost fired: seq<Watcher>, ghost nexts: Nexts, ghost before: seq<Op>, ghost ops: seq<Op>)
    requires ts.kind == Timer && ts.Valid() && ts.loop.rfeeds == [] && ts.Sane(rules, NoCb) && ts.loop.ScriptOk(script)
    modifies ts.loop`pendings, ts.loop`pendingpri, ts.loop`hist, ts.loop`activecnt, ts.loop`running, ts.loop`rfeeds
    modifies ts.heap, ts.heap.heap, ts.loop.all`pending, ts.loop.dummy`pending, ts.heap.members`active, ts.heap.members`at
    ensures ts.Valid() && EmptyFrom(ts.loop.pendings, 0) && Due(ts.heap.Times(), ts.now) == {}
    ensures Fired(old(ts.heap.Times()), ts.heap.Times(), nexts, ts.now, fired)
    ensures old(ts.loop.hist) <= before && ts.loop.hist == before + ops
    ensures CarriedOut([], script, 0, next, ts.loop.Prio(), ops)
    ensures ByExpiry(old(ts.heap.Times()), nexts, fired, old(ts.loop.Abs()), script, ts.loop.hist, |before|)
  {
    ghost var start, s0 := ts.heap.Times(), ts.loop.Abs();
    hide TimeSet.Valid, TimeSet.Sane, Loop.ScriptOk, NextsOk, Fired, Due, ByExpiry, WatcherHeap.Times, Reified, Known;
    hide Firable, CarriedOut, Loop.Abs;
    fired, nexts := TimersReify(ts, rules);
    before := ts.loop.Abs().hist;
    ghost var prio := ts.loop.Prio();
    next, ops := ts.Invoke(script, 0);
    CallsByExpiry(ts, start, nexts, fired, s0, script, next, before, ops);
  }

  lemma CallsByExpiry(ts: TimeSet, start: Times, nexts: Nexts, fired: seq<Watcher>, s0: Queues, script: Script, next: nat,
                      before: seq<Op>, ops: seq<Op>)
    requires ts.Valid() && EmptyFrom(ts.loop.pendings, 0) && Fired(start, ts.heap.Times(), nexts, ts.now, fired)
    requires ts.loop.hist == before + ops && CarriedOut([], script, 0, next, ts.loop.Prio(), ops)
    requires Firable(s0, ts.loop.dummy, nexts, fired) && Known(s0, fired) && s0.slot.Keys == ts.loop.all
    requires before == Reified(s0, ts.loop.dummy, nexts, fired, EV_TIMER).hist
    ensures s0.hist <= before && ByExpiry(start, nexts, fired, s0, script, ts.loop.hist, |before|)
  {
    var hist, lo, times := ts.loop.hist, |before|, ts.heap.Times();
    ReifiedExtends(s0, ts.loop.dummy, nexts, fired, EV_TIMER);
    hide *;
    forall u {:trigger CallIs(nexts, s0, hist, lo, u)} | u in fired && Spares(script, u)
      ensures CallIs(nexts, s0, hist, lo, u)
    {
      FiredIsCalled(ts, nexts, fired, s0, script, next, before, ops, u);
    }
    forall u, v {:trigger OrderIs(start, nexts, s0, hist, lo, u, v)} |
      u in fired && v in fired && Spares(script, u) && Spares(script, v)
      ensures OrderIs(start, nexts, s0, hist, lo, u, v)
    {
      FiredIsCalled(ts, nexts, fired, s0, script, next, before, ops, u);
      FiredIsCalled(ts, nexts, fired, s0, script, next, before, ops, v);
      FiredInOrder(start, times, nexts, ts.now, fired, s0, ts.loop.dummy, hist, before, u, v);
    }
  }

  /** A fired timer that no callback touches is called once. */
  lemma FiredIsCalled(ts: TimeSet, nexts: Nexts, fired: seq<Watcher>, s0: Queues, script: Script, next: nat,
                      before: seq<Op>, ops: seq<Op>, u: Watcher)
    requires ts.loop.Valid() && EmptyFrom(ts.loop.pendings, 0) && NoRepeats(fired) && u in fired && Spares(script, u)
    requires ts.loop.hist == before + ops && CarriedOut([], script, 0, next, ts.loop.Prio(), ops)
    requires Firable(s0, ts.loop.dummy, nexts, fired) && Known(s0, fired) && s0.slot.Keys == ts.loop.all
    requires before == Reified(s0, ts.loop.dummy, nexts, fired, EV_TIMER).hist
    ensures CallIs(nexts, s0, ts.loop.hist, |before|, u)
  {
    ReifiedOwed(s0, ts.loop.dummy, nexts, fired, EV_TIMER, u);
    assert Owed(before, u).Debt?;
    assert ts.loop.hist[..|before|] == before;
    hide Reified, CarriedOut, CalledOnce, Owed, Spares, Loop.Valid;
    ts.loop.PendingAreCalled(before, script, 0, next, ops, u);
  }

  lemma FiredInOrder(start: Times, times: Times, nexts: Nexts, now: real, fired: seq<Watcher>, s0: Queues, dummy: Watcher,
                     hist: seq<Op>, before: seq<Op>, u: Watcher, v: Watcher)
    requires Fired(start, times, nexts, now, fired) && Firable(s0, dummy, nexts, fired) && Known(s0, fired)
    requires u in fired && v in fired && before <= hist && before == Reified(s0, dummy, nexts, fired, EV_TIMER).hist
    requires AllFair(hist) && CallIs(nexts, s0, hist, |before|, u) && CallIs(nexts, s0, hist, |before|, v)
    ensures OrderIs(start, nexts, s0, hist, |before|, u, v)
  {
    hide Fired, AllFair, CalledOnce, Owed, Reified, CalledFirst;
    if u in start && v in start && start[u] < start[v] && s0.prio[u] == s0.prio[v] {
      assert hist[..|before|] == before;
      CalledByExpiryExactly(start, times, nexts, now, fired, s0, dummy, EV_TIMER, u, v, hist, |before|);
    }
  }

  /** Timers have no `reschedule_cb`. */
  function NoCb(w: Watcher): real { 0.0 }
}
