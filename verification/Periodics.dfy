/** Absolute timers: `ev_periodic_start`, `ev_periodic_stop`, `ev_periodic_again`,
    `periodics_reify` and `periodics_reschedule`. */
module Periodics {
  import opened Watchers
  import opened Queues
  import opened Dispatch
  import opened FourHeap
  import opened WatcherHeaps
  import opened Expiry
  import opened ReverseFeed
  import opened TimeSets
  import opened Recalc

  /** What `ev_periodic_start` and `periodics_reschedule` set an active time to. */
  ghost predicate ScheduledAt(r: Rule, old_: real, now: real, answer: real, at: real) {
    if r.reschedule then at == answer
    else if r.interval != 0.0 then
      && now < at <= now + r.interval
      && (r.interval >= MIN_INTERVAL ==>
            at == Grid(r.offset, r.interval, ((now - r.offset) / r.interval).Floor + 1))
    else at == old_
  }

  method Schedule(w: Watcher, otherwise: real, now: real, answer: real) returns (at: real)
    requires w.interval >= 0.0
    ensures ScheduledAt(RuleOf(w), otherwise, now, answer, at)
  {
    hide Grid, StartsOnGrid, OnGrid;
    if w.reschedule {
      at := answer;
    } else if w.interval != 0.0 {
      var next, _ := PeriodicRecalc(w.offset, w.interval, now);
      at := next;
    } else {
      at := otherwise;
    }
  }

  /** `ev_periodic_start` */
  method PeriodicStart(ps: TimeSet, w: Watcher, cb: Watcher -> real)
    requires ps.kind == Periodic && ps.Valid() && w in ps.loop.all && w.kind == Periodic && w.interval >= 0.0
    modifies ps.loop`activecnt, ps.loop`running, w`active, w`priority, w`at
    modifies ps.heap, ps.heap.heap, ps.heap.members`active
    ensures ps.Valid() && w.active != 0 && ps.heap.members == old(ps.heap.members) + {w}
    ensures if old(w.active) != 0 then w.at == old(w.at) else ScheduledAt(RuleOf(w), w.offset, ps.now, cb(w), w.at)
  {
    hide Loop.Valid, Loop.Counted, WatcherHeap.Valid, ScheduledAt;
    ps.loop.InactiveIs(w);
    if w.active != 0 {
      return;
    }
    w.at := Schedule(w, w.offset, ps.now, cb(w));
    ps.Activate(w);
  }

  /** `ev_periodic_stop` */
  method PeriodicStop(ps: TimeSet, w: Watcher)
    requires ps.kind == Periodic && ps.Valid() && w in ps.loop.all && w.kind == Periodic
    modifies ps.loop`pendings, ps.loop`hist, ps.loop`activecnt, ps.loop`running
    modifies w`pending, w`active, ps.heap, ps.heap.heap, ps.heap.members`active
    ensures ps.Valid() && w.pending == 0 && w.active == 0
    ensures ps.heap.members == old(ps.heap.members) - {w} && ps.heap.heap == old(ps.heap.heap)
    ensures Owed(ps.loop.hist, w) == Nothing
  {
    hide Loop.Valid, Loop.Counted, WatcherHeap.Valid, Clear, DebtOk;
    ps.Stop(w);
    ps.loop.ClearedIs(w);
  }

  /** `ev_periodic_again` */
  method PeriodicAgain(ps: TimeSet, w: Watcher, cb: Watcher -> real)
    requires ps.kind == Periodic && ps.Valid() && w in ps.loop.all && w.kind == Periodic && w.interval >= 0.0
    modifies ps.loop`pendings, ps.loop`hist, ps.loop`activecnt, ps.loop`running
    modifies w`pending, w`active, w`at, w`priority, ps.heap, ps.heap.heap, ps.heap.members`active
    ensures ps.Valid() && w.pending == 0 && w.active != 0 && ps.heap.members == old(ps.heap.members) + {w}
    ensures ScheduledAt(RuleOf(w), w.offset, ps.now, cb(w), w.at)
  {
    hide TimeSet.Valid, ScheduledAt;
    PeriodicStop(ps, w);
    PeriodicStart(ps, w, cb);
  }

  /** `periodics_reify`: the outer loop needs at most one turn. Every due periodic is fired
      exactly once, in order, and none is due afterwards. */
  method PeriodicsReify(ps: TimeSet, ghost rules: Rules, cb: Watcher -> real)
    returns (ghost fired: seq<Watcher>, ghost nexts: Nexts)
    requires ps.kind == Periodic && ps.Valid() && ps.loop.rfeeds == [] && ps.Sane(rules, cb)
    modifies ps.loop`pendings, ps.loop`pendingpri, ps.loop`hist, ps.loop`activecnt, ps.loop`running, ps.loop`rfeeds
    modifies ps.heap, ps.heap.heap, ps.loop.all`pending, ps.heap.members`active, ps.heap.members`at
    ensures ps.Valid() && ps.loop.rfeeds == []
    ensures Fired(old(ps.heap.Times()), ps.heap.Times(), nexts, ps.now, fired)
    ensures Due(ps.heap.Times(), ps.now) == {}
    ensures NextsOk(old(ps.heap.Times()), rules, ps.now, cb, nexts, fired)
    ensures Firable(old(ps.loop.Abs()), ps.loop.dummy, nexts, fired) && Known(old(ps.loop.Abs()), fired)
    ensures ps.loop.Abs() == Reified(old(ps.loop.Abs()), ps.loop.dummy, nexts, fired, EV_PERIODIC)
  {
    hide TimeSet.Valid, Fired, TimeSet.Sane, NextsOk, Reified, Firable, Known, Due, Loop.Abs, WatcherHeap.Times;
    fired, nexts := [], map[];
    ps.NothingFired(rules, cb, EV_PERIODIC);
    ps.RootIsDue();
    ghost var again := true;
    while ps.heap.cnt > 0 && ps.heap.heap[HEAP0].at < ps.now
      invariant ps.Valid() && ps.loop.rfeeds == [] && HEAP0 + ps.heap.cnt <= ps.heap.heap.Length
      invariant (ps.heap.cnt > 0 && ps.heap.heap[HEAP0].at < ps.now) <==> Due(ps.heap.Times(), ps.now) != {}
      invariant again ==>
        && ps.Sane(rules, cb) && ps.heap.heap == old(ps.heap.heap) && ps.heap.members == old(ps.heap.members)
        && ps.heap.Times() == old(ps.heap.Times()) && ps.loop.Abs() == old(ps.loop.Abs())
      invariant !again ==> Due(ps.heap.Times(), ps.now) == {}
      invariant Fired(old(ps.heap.Times()), ps.heap.Times(), nexts, ps.now, fired)
      invariant NextsOk(old(ps.heap.Times()), rules, ps.now, cb, nexts, fired)
      invariant Firable(old(ps.loop.Abs()), ps.loop.dummy, nexts, fired) && Known(old(ps.loop.Abs()), fired)
      invariant ps.loop.Abs() == Reified(old(ps.loop.Abs()), ps.loop.dummy, nexts, fired, EV_PERIODIC)
      decreases again
    {
      fired, nexts := ps.ReifyDue(rules, cb, EV_PERIODIC);
      ps.RootIsDue();
      again := false;
    }
  }

  /** The loop of `periodics_reschedule`, which recalculates every time in place. */
  method RecalculateAll(ps: TimeSet, ghost rules: Rules, cb: Watcher -> real)
    requires ps.kind == Periodic && ps.Valid() && ps.Ruled(rules)
    modifies ps.heap.heap, ps.heap.members`at
    ensures HEAP0 + ps.heap.cnt <= ps.heap.heap.Length && ps.heap.Stored(ps.heap.Times())
    ensures forall w :: w in ps.heap.members ==> w in rules && ScheduledAt(rules[w], old(w.at), ps.now, cb(w), w.at)
  {
    hide Loop.Valid, Loop.Counted, WatcherHeap.Valid, WatcherHeap.Stored, WatcherHeap.Times, ScheduledAt;
    ps.heap.Fits();
    var i := HEAP0;
    while i < ps.heap.cnt + HEAP0
      invariant HEAP0 <= i <= ps.heap.cnt + HEAP0 <= ps.heap.heap.Length
      invariant ps.heap.Stored(ps.heap.Times()) && ps.Ruled(rules)
      invariant forall w :: w in ps.heap.members && w.active >= i ==> w.at == old(w.at)
      invariant forall w :: w in ps.heap.members && w.active < i ==> ScheduledAt(rules[w], old(w.at), ps.now, cb(w), w.at)
    {
      ps.heap.CacheIs(i);
      var w := ps.heap.heap[i].w;
      assert rules[w] == RuleOf(w);
      var at := Schedule(w, w.at, ps.now, cb(w));
      ps.heap.SetTime(i, at);
      i := i + 1;
    }
  }

  /** `periodics_reschedule`: after a time jump every periodic gets a new time, and the heap is
      rebuilt. Here `reschedule_cb` may answer with any time, even one in the past. */
  method PeriodicsReschedule(ps: TimeSet, ghost rules: Rules, cb: Watcher -> real)
    requires ps.kind == Periodic && ps.Valid() && ps.Ruled(rules)
    modifies ps.heap.heap, ps.heap.members`at, ps.heap.members`active
    ensures ps.Valid()
    ensures forall w :: w in ps.heap.members ==> w in rules && ScheduledAt(rules[w], old(w.at), ps.now, cb(w), w.at)
  {
    hide Loop.Valid, Loop.Counted, WatcherHeap.Valid, WatcherHeap.Stored, WatcherHeap.Times, ScheduledAt, TimeSet.Ruled;
    ps.loop.InactiveIs(ps.loop.dummy);
    RecalculateAll(ps, rules, cb);
    ps.heap.Rebuild();
    ps.heap.AllActive();
    ps.loop.CountedKept();
  }
}
