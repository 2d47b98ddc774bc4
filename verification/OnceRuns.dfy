/** Whole runs of a loop that holds a request made with `ev_once`. */
module OnceRuns {
  import opened Events
  import opened Watchers
  import opened Queues
  import opened ReverseFeed
  import opened Dispatch
  import opened WatcherHeaps
  import opened Expiry
  import opened TimeSets
  import opened Timers
  import opened Interest
  import opened FdTables
  import opened Onces
  import Delivery

  /** What happens while the loop runs. */
  datatype Happening =
    | Ready(fd: int, revents: bv32) // the backend reports events
    | Expire                        // timers_reify
    | Call                          // the pending watcher that is next is invoked
    | Starts(w: Watcher)            // a callback starts some other watcher
    | Stops(w: Watcher)             // or stops it
    | Feeds(w: Watcher, events: bv32) // or feeds it events

  /** A watcher that is not fired and was not pending is not pending afterwards. */
  lemma UnfiredIdle(s: Queues, dummy: Watcher, nexts: Nexts, fired: seq<Watcher>, events: bv32, w: Watcher)
    requires Firable(s, dummy, nexts, fired) && Known(s, fired) && NoRepeats(fired) && w !in fired
    requires w in s.slot && s.slot[w] == 0
    ensures var r := Reified(s, dummy, nexts, fired, events); w in r.slot && r.slot[w] == 0
  {
    assert DebtOk(s, w);
    var mid := Stopped(s, dummy, nexts, fired);
    StoppedOwed(s, dummy, nexts, fired, w);
    FeedBackOwed(mid, dummy, fired, events, w);
    assert DebtOk(FeedBack(mid, dummy, fired, events), w);
  }

  /** A request that is served is never next. */
  lemma ServedIsNotNext(ol: OnceLoop, o: Once)
    requires ol.Valid() && ol.Armed(o) && o.freed
    ensures !ol.OnTop(o)
  {
    ol.NowIdle(o);
  }

  /** `fd_event` */
  method Deliver(ol: OnceLoop, o: Once, fd: int, revents: bv32)
    requires ol.Valid() && ol.Armed(o)
    modifies ol.loop`pendings, ol.loop`pendingpri, ol.loop`hist, ol.table.members`pending
    ensures ol.Valid() && ol.Armed(o)
  {
    hide Loop.Valid, Loop.Counted, Loop.Abs, FdTable.ValidFrom, WatcherHeap.Valid, Delivery.FedTo;
    ol.MembersAre();
    if 0 <= fd < |ol.table.anfds| {
      ol.table.FdEvent(fd, revents);
      ol.table.LoopIsValid(0);
    }
  }

  /** What the source demands of the timers in the heap. */
  ghost predicate Forward(heap: WatcherHeap)
    reads heap`members, heap.members`repeat
  {
    forall w :: w in heap.members ==> w.repeat >= 0.0
  }

  /** What `timers_reify` finds. */
  lemma BeforeExpire(ol: OnceLoop, o: Once, rules: Rules)
    requires ol.Valid() && ol.Armed(o) && Forward(ol.timers.heap)
    requires forall w :: w in ol.timers.heap.members ==> w in rules && rules[w] == RuleOf(w)
    ensures ol.timers.Valid() && ol.timers.Sane(rules, NoCb) && ol.timers.kind == Timer && ol.timers.loop == ol.loop == ol.table.loop
    ensures TablesOk(ol.table.Abs(), 0) && ol.loop.running <= ol.loop.all && ol.timers.heap.members <= ol.loop.all
    ensures forall w :: w in ol.loop.all ==> (w.active == 0 <==> w !in ol.loop.running)
    ensures forall w :: w in ol.timers.heap.members ==> w.kind == Timer
    ensures forall w :: w in ol.table.members <==> w in ol.loop.running && w.kind == Io
    ensures forall w :: w in ol.table.members ==> w.active == 1 && 0 <= w.Pri() < NUMPRI
    ensures o.freed ==>
      o.io !in ol.timers.heap.members && o.to !in ol.timers.heap.members && ol.loop.Slot()[o.io] == ol.loop.Slot()[o.to] == 0
  {
    hide Loop.Valid, TablesOk, WatcherHeap.Valid;
    ol.MembersAre();
  }

  lemma FiredFromHeap(start: Times, times: Times, nexts: Nexts, now: real, fired: seq<Watcher>)
    requires Fired(start, times, nexts, now, fired)
    ensures NoRepeats(fired) && times.Keys <= start.Keys && forall w :: w in fired ==> w in start
  {
  }

  lemma ServedStaysIdle(s: Queues, dummy: Watcher, nexts: Nexts, fired: seq<Watcher>, start: Times, o: Once)
    requires Firable(s, dummy, nexts, fired) && Known(s, fired) && NoRepeats(fired) && forall w :: w in fired ==> w in start
    requires o.io in s.slot && o.to in s.slot && s.slot[o.io] == s.slot[o.to] == 0 && o.io !in start && o.to !in start
    ensures var r := Reified(s, dummy, nexts, fired, EV_TIMER);
      o.io in r.slot && o.to in r.slot && r.slot[o.io] == r.slot[o.to] == 0
  {
    hide Firable, Known, NoRepeats, Reified;
    UnfiredIdle(s, dummy, nexts, fired, EV_TIMER, o.io);
    UnfiredIdle(s, dummy, nexts, fired, EV_TIMER, o.to);
  }

  /** `timers_reify` */
  method Expire(ol: OnceLoop, o: Once)
    requires ol.Valid() && ol.Armed(o) && ol.loop.rfeeds == [] && Forward(ol.timers.heap)
    modifies ol.loop`pendings, ol.loop`pendingpri, ol.loop`hist, ol.loop`activecnt, ol.loop`running, ol.loop`rfeeds
    modifies ol.timers.heap, ol.timers.heap.heap, ol.loop.all`pending, ol.timers.heap.members`active, ol.timers.heap.members`at
    ensures ol.Valid() && ol.Armed(o) && ol.loop.rfeeds == []
    ensures ol.timers.heap.members <= old(ol.timers.heap.members) && ol.timers.heap.heap == old(ol.timers.heap.heap)
  {
    hide Loop.Abs, Loop.Valid, Loop.Counted, OnceLoop.Valid, TimeSet.Valid, TimeSet.Sane, Forward, FdTable.Abs, FdTable.ValidFrom,
         TablesOk;
    ghost var rules: Rules := map w | w in ol.timers.heap.members :: RuleOf(w);
    BeforeExpire(ol, o, rules);
    ExpireTimers(ol.timers, o, rules);
    ol.Whole();
  }

  /** The part that is about the timers. */
  method ExpireTimers(ts: TimeSet, o: Once, ghost rules: Rules)
    requires ts.kind == Timer && ts.Valid() && ts.loop.rfeeds == [] && ts.Sane(rules, NoCb)
    requires o.freed ==>
      && o.io in ts.loop.all && o.to in ts.loop.all && o.io !in ts.heap.members && o.to !in ts.heap.members
      && ts.loop.Slot()[o.io] == ts.loop.Slot()[o.to] == 0
    modifies ts.loop`pendings, ts.loop`pendingpri, ts.loop`hist, ts.loop`activecnt, ts.loop`running, ts.loop`rfeeds
    modifies ts.heap, ts.heap.heap, ts.loop.all`pending, ts.heap.members`active, ts.heap.members`at
    ensures ts.Valid() && ts.loop.rfeeds == [] && ts.heap.members <= old(ts.heap.members) && ts.heap.heap == old(ts.heap.heap)
    ensures o.freed ==> o.io.pending == o.to.pending == 0
  {
    hide Loop.Valid, Loop.Counted, TimeSet.Valid, TimeSet.Sane, Reified, Firable, Known, NoRepeats, Fired, Due, NextsOk, Loop.Prio;
    ghost var s, start := ts.loop.Abs(), ts.heap.Times();
    assert start.Keys == ts.heap.members;
    ghost var fired, nexts := TimersReify(ts, rules);
    assert ts.heap.Times().Keys == ts.heap.members;
    FiredFromHeap(start, ts.heap.Times(), nexts, ts.now, fired);
    if o.freed {
      ServedStaysIdle(s, ts.loop.dummy, nexts, fired, start, o);
      assert ts.loop.Abs().slot == ts.loop.Slot();
      assert o.io.pending == ts.loop.Slot()[o.io] && o.to.pending == ts.loop.Slot()[o.to];
    }
  }

  lemma Priorities(loop: Loop)
    requires loop.Valid()
    ensures |loop.pendings| == NUMPRI
  {
  }

  /** The dispatcher's search for the next pending watcher. */
  method FindNext(loop: Loop) returns (found: bool)
    requires |loop.pendings| == NUMPRI
    modifies loop`pendingpri
    ensures 0 <= loop.pendingpri < NUMPRI && EmptyFrom(loop.pendings, loop.pendingpri + 1)
    ensures found <==> loop.pendings[loop.pendingpri] != []
    ensures !found ==> EmptyFrom(loop.pendings, 0)
  {
    loop.pendingpri := NUMPRI - 1;
    while loop.pendings[loop.pendingpri] == [] && loop.pendingpri > 0
      invariant 0 <= loop.pendingpri < NUMPRI && EmptyFrom(loop.pendings, loop.pendingpri + 1)
      decreases loop.pendingpri
    {
      loop.pendingpri := loop.pendingpri - 1;
    }
    found := loop.pendings[loop.pendingpri] != [];
  }

  /** A callback that is not the request's. */
  method CallOther(ol: OnceLoop, o: Once)
    requires ol.Valid() && ol.Armed(o) && !ol.OnTop(o)
    requires 0 <= ol.loop.pendingpri < |ol.loop.pendings| == NUMPRI && EmptyFrom(ol.loop.pendings, ol.loop.pendingpri + 1)
    requires ol.loop.pendings[ol.loop.pendingpri] != []
    modifies ol.loop`pendings, ol.loop`hist, ol.loop.all`pending, ol.loop.dummy`pending
    ensures ol.Valid() && ol.Armed(o)
  {
    hide OnceLoop.Valid, Loop.Valid;
    ghost var s := ol.loop.Abs();
    assert o.io.pending == s.slot[o.io] && o.to.pending == s.slot[o.to];
    var p := ol.TakeTop();
    assert o.io.pending == ol.loop.Abs().slot[o.io] && o.to.pending == ol.loop.Abs().slot[o.to];
  }

  /** `EV_CB_INVOKE` on the next pending watcher. The callback of the request gets exactly what
      both its watchers are owed; what other callbacks do is a matter of further happenings. */
  method CallNext(ol: OnceLoop, o: Once)
    requires ol.Valid() && ol.Armed(o)
    modifies o, ol.table`anfds, ol.table`fdchanges, ol.table`lists, ol.table`members, ol.table.members`next
    modifies ol.loop`pendings, ol.loop`pendingpri, ol.loop`hist, ol.loop`activecnt, ol.loop`running
    modifies o.io`active, o.to`active, o.to`at, ol.loop.all`pending, ol.loop.dummy`pending
    modifies ol.timers.heap, ol.timers.heap.heap, ol.timers.heap.members`active
    ensures ol.Valid() && ol.Armed(o)
    ensures ol.timers.heap.members <= old(ol.timers.heap.members) && ol.timers.heap.heap == old(ol.timers.heap.heap)
    ensures old(o.freed) ==> o.freed && o.calls == old(o.calls)
    ensures o.freed && !old(o.freed) ==>
      && o.calls == [Both(EventsOf(Owed(old(ol.loop.hist), o.io)), EventsOf(Owed(old(ol.loop.hist), o.to)))]
      && forall bit :: Has(o.calls[0], bit) <==>
           Has(EventsOf(Owed(old(ol.loop.hist), o.io)), bit) || Has(EventsOf(Owed(old(ol.loop.hist), o.to)), bit)
  {
    hide OnceLoop.Valid, Loop.Valid, Both, Owed, Has;
    ol.MembersAre();
    Priorities(ol.loop);
    var found := FindNext(ol.loop);
    if found {
      if ol.OnTop(o) {
        if o.freed {
          ServedIsNotNext(ol, o);
        } else {
          ol.InvokeOnce(o);
        }
      } else {
        CallOther(ol, o);
      }
    }
  }

  /** The two watchers of a request are known to the library alone. */
  ghost predicate Private(o: Once, all: set<Watcher>, h: Happening) {
    (h.Starts? || h.Stops? || h.Feeds?) ==> h.w in all && h.w != o.io && h.w != o.to
  }

  /** A callback stops a watcher that is not the request's. */
  method StopOther(ol: OnceLoop, o: Once, w: Watcher)
    requires ol.Valid() && ol.Armed(o) && w in ol.loop.all && w != o.io && w != o.to
    modifies ol.table`anfds, ol.table`fdchanges, ol.table`lists, ol.table`members, ol.table.members`next
    modifies ol.loop`pendings, ol.loop`hist, ol.loop`activecnt, ol.loop`running, w`active, w`pending, w`at
    modifies ol.timers.heap, ol.timers.heap.heap, ol.timers.heap.members`active
    ensures ol.Valid() && ol.Armed(o)
    ensures ol.timers.heap.members <= old(ol.timers.heap.members) && ol.timers.heap.heap == old(ol.timers.heap.heap)
  {
    hide OnceLoop.Valid, Loop.Valid, Loop.Abs, Clear, DebtOk;
    ol.MembersAre();
    if w.kind == Io {
      ol.StopIo(w);
    } else if w.kind == Timer {
      ol.StopTimer(w);
    }
  }

  /** Or starts one, if it is as the source demands. */
  method StartOther(ol: OnceLoop, o: Once, w: Watcher)
    requires ol.Valid() && ol.Armed(o) && Forward(ol.timers.heap) && w in ol.loop.all && w != o.io && w != o.to
    modifies ol.table`anfds, ol.table`fdchanges, ol.table`lists, ol.table`members
    modifies ol.loop`activecnt, ol.loop`running, w`active, w`priority, w`next, w`events, w`at
    modifies ol.timers.heap, ol.timers.heap.heap, ol.timers.heap.members`active
    ensures ol.Valid() && ol.Armed(o) && Forward(ol.timers.heap)
    ensures ol.timers.heap.heap == old(ol.timers.heap.heap) || fresh(ol.timers.heap.heap)
  {
    hide OnceLoop.Valid, Loop.Valid, SameDirections, Flagged, Fdset;
    ol.MembersAre();
    if w.active == 0 && w.kind == Io && w.fd >= 0 && w.events & !(IOFDSET | DIRECTIONS) == 0 {
      ol.StartIo(w);
    } else if w.active == 0 && w.kind == Timer && w.repeat >= 0.0 {
      ol.StartTimer(w);
    }
  }

  /** Or feeds one that has a valid priority. */
  method FeedOther(ol: OnceLoop, o: Once, w: Watcher, events: bv32)
    requires ol.Valid() && ol.Armed(o) && w in ol.loop.all && w != o.io && w != o.to
    modifies ol.loop`pendings, ol.loop`pendingpri, ol.loop`hist, w`pending
    ensures ol.Valid() && ol.Armed(o)
  {
    hide Loop.Valid, Loop.Counted, Loop.Abs, WatcherHeap.Valid, TablesOk, FdTable.Abs, Feed;
    ol.MembersAre();
    if 0 <= w.Pri() < NUMPRI {
      ol.loop.FeedEvent(w, events);
    }
  }

  /** One of these. */
  method Happen(ol: OnceLoop, o: Once, h: Happening)
    requires ol.Valid() && ol.Armed(o) && ol.loop.rfeeds == [] && Forward(ol.timers.heap) && Private(o, ol.loop.all, h)
    modifies o, ol.table, ol.timers.heap, ol.timers.heap.heap, ol.loop.all, ol.loop.dummy`pending
    modifies ol.loop`pendings, ol.loop`pendingpri, ol.loop`hist, ol.loop`activecnt, ol.loop`running, ol.loop`rfeeds
    ensures ol.Valid() && ol.Armed(o) && ol.loop.rfeeds == [] && Forward(ol.timers.heap)
    ensures ol.timers.heap.heap == old(ol.timers.heap.heap) || fresh(ol.timers.heap.heap)
    ensures old(o.freed) ==> o.freed && o.calls == old(o.calls)
  {
    hide OnceLoop.Valid, Loop.Valid, Both, Owed;
    ol.MembersAre();
    match h
    case Ready(fd, revents) => Deliver(ol, o, fd, revents);
    case Expire => Expire(ol, o);
    case Call => CallNext(ol, o);
    case Starts(w) => StartOther(ol, o, w);
    case Stops(w) => StopOther(ol, o, w);
    case Feeds(w, events) => FeedOther(ol, o, w, events);
  }

  /** However the run goes, the callback of the request has been called at most once, and exactly
      once if it is served; a request that is served is never called again. */
  method Run(ol: OnceLoop, o: Once, happenings: seq<Happening>)
    requires ol.Valid() && ol.Armed(o) && ol.loop.rfeeds == [] && Forward(ol.timers.heap)
    requires forall i :: 0 <= i < |happenings| ==> Private(o, ol.loop.all, happenings[i])
    modifies o, ol.table, ol.timers.heap, ol.timers.heap.heap, ol.loop.all, ol.loop.dummy`pending
    modifies ol.loop`pendings, ol.loop`pendingpri, ol.loop`hist, ol.loop`activecnt, ol.loop`running, ol.loop`rfeeds
    ensures ol.Valid() && ol.Armed(o) && ol.loop.rfeeds == [] && Forward(ol.timers.heap)
    ensures |o.calls| <= 1 && (o.freed <==> o.calls != [])
    ensures old(o.freed) ==> o.freed && o.calls == old(o.calls)
  {
    hide OnceLoop.Valid, Forward, Private;
    for i := 0 to |happenings|
      invariant ol.Valid() && ol.Armed(o) && ol.loop.rfeeds == [] && Forward(ol.timers.heap)
      invariant ol.timers.heap.heap == old(ol.timers.heap.heap) || fresh(ol.timers.heap.heap)
      invariant old(o.freed) ==> o.freed && o.calls == old(o.calls)
    {
      Happen(ol, o, happenings[i]);
    }
  }
}
