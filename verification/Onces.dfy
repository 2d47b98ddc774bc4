/** `ev_once`: an io watcher and a timer that share one callback. */
module Onces {
  import opened Events
  import opened Watchers
  import opened Queues
  import opened Dispatch
  import opened WatcherHeaps
  import opened TimeSets
  import opened Timers
  import opened Interest
  import opened FdTables

  /** `struct ev_once` */
  class Once {
    const io: Watcher
    const to: Watcher
    var freed: bool
    var calls: seq<bv32> // what the callback was called with

    constructor ()
      ensures io.kind == Io && to.kind == Timer && fresh(io) && fresh(to)
      ensures io.active == to.active == 0 && io.pending == to.pending == 0
      ensures !freed && calls == []
    {
      io := new Watcher(Io);
      to := new Watcher(Timer);
      freed, calls := false, [];
    }
  }

  function Both(a: bv32, b: bv32): bv32 { Join(a, b) }

  lemma BothHas(a: bv32, b: bv32, bit: bv32)
    ensures Has(Both(a, b), bit) <==> Has(a, bit) || Has(b, bit)
  {
    HasJoin(a, b, bit);
  }

  lemma BothCommutes(a: bv32, b: bv32)
    ensures Both(a, b) == Both(b, a)
  {
  }

  /** Taking the top of a stack delivers exactly what its watcher was owed. */
  lemma PopOwed(s: Queues, dummy: Watcher, p: nat, x: Watcher)
    requires Ok(s, dummy) && p < NUMPRI && s.q[p] != [] && s.q[p][|s.q[p]| - 1].w != dummy
    ensures var top := s.q[p][|s.q[p]| - 1];
      && Owed(s.hist, top.w) == Debt(p, top.events)
      && Owed(Pop(s, dummy, p).hist, x) == if x == top.w then Nothing else Owed(s.hist, x)
  {
    var top := s.q[p][|s.q[p]| - 1];
    assert SlotOk(s, dummy, p, |s.q[p]| - 1) && DebtOk(s, top.w);
    OwedAppend(s.hist, Invoked(top.w, p, top.events), x);
  }

  /** A watcher that is not pending is in no slot. */
  lemma InNoSlot(s: Queues, dummy: Watcher, w: Watcher, p: nat, i: nat)
    requires Ok(s, dummy) && w in s.slot && s.slot[w] == 0 && p < NUMPRI && i < |s.q[p]|
    ensures s.q[p][i].w != w
  {
    assert SlotOk(s, dummy, p, i);
  }

  /** What `ev_io_set` stores: the descriptor may be a new file. */
  function IoMask(events: bv8): bv8 { events | IOFDSET }

  lemma IoMaskIs(events: bv8)
    ensures Hits(IoMask(events), IOFDSET)
    ensures IoMask(events) & !(IOFDSET | DIRECTIONS) == events & !(IOFDSET | DIRECTIONS)
  {
  }

  lemma SameDirectionsTrans(events: bv8, mid: bv8, after: bv8)
    requires mid == IoMask(events) && SameDirections(mid, after)
    ensures SameDirections(events, after)
  {
  }

  class OnceLoop {
    const loop: Loop
    const table: FdTable
    const timers: TimeSet

    ghost predicate Valid()
      reads table, table.members`next, table.members`fd, table.members`events, table.members`active, table.members`priority
      reads loop`pendings, loop`all, loop`hist, loop`activecnt, loop`running, loop`refs
      reads loop.all`pending, loop.all`priority, loop.all`active, loop.dummy`pending
      reads timers.heap, timers.heap.heap, timers.heap.members`active, timers.heap.members`at, timers.heap.members`priority
    {
      && table.loop == loop && timers.loop == loop && timers.kind == Timer
      && table.ValidFrom(0) && timers.Valid()
    }

    constructor (loop: Loop)
      requires loop.Valid() && loop.Counted() && loop.running == {}
      ensures Valid() && this.loop == loop
    {
      hide FdTable.ValidFrom, TimeSet.Valid, Loop.Valid, Loop.Counted;
      this.loop := loop;
      table := new FdTable(loop);
      timers := new TimeSet(loop, Timer);
    }

    /** Stopping the io watcher does not disturb the timers. */
    method StopIo(w: Watcher)
      requires Valid() && w in loop.all && w.kind == Io
      modifies table`anfds, table`fdchanges, table`lists, table`members, table.members`next
      modifies loop`pendings, loop`hist, loop`activecnt, loop`running, w`active, w`pending
      ensures Valid() && w.active == 0 && w.pending == 0
      ensures DebtOk(old(loop.Abs()), w) && w != loop.dummy
      ensures loop.Abs() == Clear(old(loop.Abs()), loop.dummy, w)
      ensures loop.running == old(loop.running) - {w}
    {
      hide Loop.Valid, Loop.Counted, Loop.Abs, FdTable.ValidFrom, WatcherHeap.Valid, Clear, DebtOk;
      StopTableIo(w);
    }

    method StopTableIo(w: Watcher)
      requires table.loop == loop && table.ValidFrom(0) && w in loop.all && w.kind == Io
      modifies table`anfds, table`fdchanges, table`lists, table`members, table.members`next
      modifies loop`pendings, loop`hist, loop`activecnt, loop`running, w`active, w`pending
      ensures table.ValidFrom(0) && loop.Valid() && loop.Counted() && w.active == 0 && w.pending == 0
      ensures DebtOk(old(loop.Abs()), w) && w != loop.dummy
      ensures loop.Abs() == Clear(old(loop.Abs()), loop.dummy, w)
      ensures loop.running == old(loop.running) - {w}
    {
      hide Loop.Valid, Loop.Counted, Loop.Abs, FdTable.ValidFrom, Clear, DebtOk, FdTable.Abs, FdTable.Linked,
           FdTable.Nexts, Dropped, SameCaches;
      table.LoopIsValid(0);
      loop.InactiveIs(w);
      var _ := table.IoStop(w, 0);
      table.LoopIsValid(0);
    }

    /** The parts of a valid loop, ... */
    lemma Parts()
      requires Valid()
      ensures timers.Valid() && timers.kind == Timer && timers.loop == loop == table.loop && TablesOk(table.Abs(), 0)
      ensures forall w :: w in table.members ==> w in loop.all && w.kind == Io && w.active == 1 && 0 <= w.Pri() < NUMPRI
      ensures forall w :: w in loop.all && w.kind == Io && w.active != 0 ==> w in table.members
      ensures forall w :: w in timers.heap.members ==> w.kind == Timer
    {
      hide Loop.Valid, TablesOk, FdTable.Abs, WatcherHeap.Valid;
      MembersAre();
    }

    /** ... and back. */
    lemma Whole()
      requires timers.Valid() && timers.kind == Timer && timers.loop == loop == table.loop && TablesOk(table.Abs(), 0)
      requires forall w :: w in table.members ==> w in loop.all && w.kind == Io && w.active == 1 && 0 <= w.Pri() < NUMPRI
      requires forall w :: w in loop.all && w.kind == Io && w.active != 0 ==> w in table.members
      ensures Valid()
    {
      hide Loop.Valid, TablesOk, FdTable.Abs, WatcherHeap.Valid;
    }

    /** Stopping the timer does not disturb the descriptors. */
    method StopTimer(w: Watcher)
      requires Valid() && w in loop.all && w.kind == Timer
      modifies loop`pendings, loop`hist, loop`activecnt, loop`running
      modifies w`pending, w`active, w`at, timers.heap, timers.heap.heap, timers.heap.members`active
      ensures Valid() && w.active == 0 && w.pending == 0
      ensures DebtOk(old(loop.Abs()), w) && w != loop.dummy
      ensures loop.Abs() == Clear(old(loop.Abs()), loop.dummy, w)
      ensures loop.running == old(loop.running) - {w}
      ensures timers.heap.members <= old(timers.heap.members) && timers.heap.heap == old(timers.heap.heap)
    {
      hide Loop.Valid, Loop.Counted, Loop.Abs, TimeSet.Valid, OnceLoop.Valid, FdTable.ValidFrom, Clear, DebtOk, TablesOk, FdTable.Abs;
      Parts();
      TimerStop(timers, w);
      Whole();
    }

    /** The watchers of a request: as long as it is not served the callback has not been called;
        afterwards it has been called once, and neither watcher is active or pending. */
    ghost predicate Armed(o: Once)
      reads o, o.io`active, o.io`pending, o.to`active, o.to`pending, loop`all
    {
      && o.io in loop.all && o.to in loop.all && o.io.kind == Io && o.to.kind == Timer
      && (!o.freed ==> o.calls == [])
      && (o.freed ==> |o.calls| == 1 && o.io.active == o.to.active == 0 && o.io.pending == o.to.pending == 0)
    }

    /** `once_cb` */
    method OnceCb(o: Once, revents: bv32)
      requires Valid() && Armed(o) && !o.freed
      modifies o, table`anfds, table`fdchanges, table`lists, table`members, table.members`next
      modifies loop`pendings, loop`hist, loop`activecnt, loop`running, o.io`active, o.io`pending
      modifies o.to`pending, o.to`active, o.to`at, timers.heap, timers.heap.heap, timers.heap.members`active
      ensures Valid() && Armed(o) && o.freed && o.calls == [revents]
      ensures timers.heap.members <= old(timers.heap.members) && timers.heap.heap == old(timers.heap.heap)
    {
      hide OnceLoop.Valid, Clear, DebtOk, Loop.Abs, Loop.Counted, TimeSet.Valid, FdTable.ValidFrom;
      StopIo(o.io);
      MembersAre();
      StopTimer(o.to);
      o.freed := true;
      o.calls := o.calls + [revents];
    }

    /** The lists hold io watchers and the heap holds timers. */
    lemma MembersAre()
      requires Valid()
      ensures loop.Valid() && loop.running <= loop.all
      ensures forall w :: w in table.members <==> w in loop.running && w.kind == Io
      ensures forall w :: w in timers.heap.members <==> w in loop.running && w.kind == Timer
      ensures forall w :: w in loop.all ==> (w.active == 0 <==> w !in loop.running)
    {
      table.LoopIsValid(0);
      timers.LoopIsValid();
    }

    /** `once_cb_io` */
    method OnceCbIo(o: Once, revents: bv32)
      requires Valid() && Armed(o) && !o.freed
      modifies o, table`anfds, table`fdchanges, table`lists, table`members, table.members`next
      modifies loop`pendings, loop`hist, loop`activecnt, loop`running, o.io`active, o.io`pending
      modifies o.to`pending, o.to`active, o.to`at, timers.heap, timers.heap.heap, timers.heap.members`active
      ensures Valid() && Armed(o) && o.freed
      ensures timers.heap.members <= old(timers.heap.members) && timers.heap.heap == old(timers.heap.heap)
      ensures o.calls == [Both(revents, EventsOf(Owed(old(loop.hist), o.to)))]
    {
      hide Clear, DebtOk, Loop.Abs, Loop.Counted, TimeSet.Valid, FdTable.ValidFrom, Both;
      var events := Forget(o.to);
      OnceCb(o, Both(revents, events));
    }

    /** `once_cb_to` */
    method OnceCbTo(o: Once, revents: bv32)
      requires Valid() && Armed(o) && !o.freed
      modifies o, table`anfds, table`fdchanges, table`lists, table`members, table.members`next
      modifies loop`pendings, loop`hist, loop`activecnt, loop`running, o.io`active, o.io`pending
      modifies o.to`pending, o.to`active, o.to`at, timers.heap, timers.heap.heap, timers.heap.members`active
      ensures Valid() && Armed(o) && o.freed
      ensures timers.heap.members <= old(timers.heap.members) && timers.heap.heap == old(timers.heap.heap)
      ensures o.calls == [Both(revents, EventsOf(Owed(old(loop.hist), o.io)))]
    {
      hide Clear, DebtOk, Loop.Abs, Loop.Counted, TimeSet.Valid, FdTable.ValidFrom, Both;
      var events := Forget(o.io);
      OnceCb(o, Both(revents, events));
    }

    /** `ev_clear_pending` disturbs neither part. */
    method Forget(w: Watcher) returns (events: bv32)
      requires Valid() && w in loop.all
      modifies loop`pendings, loop`hist, w`pending
      ensures Valid() && w.pending == 0 && events == EventsOf(Owed(old(loop.hist), w))
    {
      hide Loop.Valid, Loop.Counted, WatcherHeap.Valid, FdTable.ValidFrom, Owed;
      events := table.Forget(w, 0);
      table.LoopIsValid(0);
    }

    /** The entry that is invoked next is one of the two. */
    predicate OnTop(o: Once)
      reads loop`pendings, loop`pendingpri
    {
      && 0 <= loop.pendingpri < |loop.pendings| == NUMPRI && loop.pendings[loop.pendingpri] != []
      && var top := loop.pendings[loop.pendingpri][|loop.pendings[loop.pendingpri]| - 1].w;
         top == o.io || top == o.to
    }

    /** The dispatcher takes one of the two watchers off the top of a queue and invokes it: the
        callback gets exactly what both watchers were owed. */
    method InvokeOnce(o: Once)
      requires Valid() && Armed(o) && !o.freed
      requires 0 <= loop.pendingpri < |loop.pendings| == NUMPRI && EmptyFrom(loop.pendings, loop.pendingpri + 1)
      requires loop.pendings[loop.pendingpri] != []
      requires OnTop(o)
      modifies o, table`anfds, table`fdchanges, table`lists, table`members, table.members`next
      modifies loop`pendings, loop`hist, loop`activecnt, loop`running, o.io`active, loop.all`pending, loop.dummy`pending
      modifies o.to`active, o.to`at, timers.heap, timers.heap.heap, timers.heap.members`active
      ensures Valid() && Armed(o) && o.freed
      ensures timers.heap.members <= old(timers.heap.members) && timers.heap.heap == old(timers.heap.heap)
      ensures o.calls == [Both(EventsOf(Owed(old(loop.hist), o.io)), EventsOf(Owed(old(loop.hist), o.to)))]
      ensures forall bit :: Has(o.calls[0], bit) <==>
        Has(EventsOf(Owed(old(loop.hist), o.io)), bit) || Has(EventsOf(Owed(old(loop.hist), o.to)), bit)
      ensures Idle(o)
    {
      hide Clear, DebtOk, Pop, Both, Ok, Loop.Counted, TimeSet.Valid, FdTable.ValidFrom, OnceLoop.Valid, Has, Owed;
      MembersAre();
      forall bit
        ensures var a, b := EventsOf(Owed(loop.hist, o.io)), EventsOf(Owed(loop.hist, o.to));
          Has(Both(a, b), bit) <==> Has(a, bit) || Has(b, bit)
      {
        BothHas(EventsOf(Owed(loop.hist, o.io)), EventsOf(Owed(loop.hist, o.to)), bit);
      }
      var p := PopFor(o);
      if p.w == o.io {
        OnceCbIo(o, p.events);
      } else {
        OnceCbTo(o, p.events);
        BothCommutes(p.events, EventsOf(Owed(old(loop.hist), o.io)));
      }
      NowIdle(o);
    }

    /** Neither watcher is in a list, in the heap or in a slot. */
    ghost predicate Idle(o: Once)
      reads o, table`members, timers.heap`members, loop`pendings
    {
      && o.io !in table.members && o.to !in timers.heap.members
      && forall p, i :: 0 <= p < |loop.pendings| && 0 <= i < |loop.pendings[p]| ==>
           loop.pendings[p][i].w != o.io && loop.pendings[p][i].w != o.to
    }

    lemma NowIdle(o: Once)
      requires Valid() && Armed(o) && o.freed
      ensures Idle(o)
    {
      MembersAre();
      hide OnceLoop.Valid;
      forall p, i | 0 <= p < |loop.pendings| && 0 <= i < |loop.pendings[p]|
        ensures loop.pendings[p][i].w != o.io && loop.pendings[p][i].w != o.to
      {
        assert o.io in loop.Slot() && o.to in loop.Slot();
        InNoSlot(loop.Abs(), loop.dummy, o.io, p, i);
        InNoSlot(loop.Abs(), loop.dummy, o.to, p, i);
      }
    }

    /** The first two statements of the inner loop of `ev_invoke_pending`, here. */
    method PopFor(o: Once) returns (p: Pending)
      requires Valid() && Armed(o) && !o.freed
      requires 0 <= loop.pendingpri < |loop.pendings| == NUMPRI && EmptyFrom(loop.pendings, loop.pendingpri + 1)
      requires loop.pendings[loop.pendingpri] != []
      requires OnTop(o)
      modifies loop`pendings, loop`hist, loop.all`pending, loop.dummy`pending
      ensures Valid() && Armed(o) && (p.w == o.io || p.w == o.to)
      ensures Owed(old(loop.hist), p.w) == Debt(loop.pendingpri, p.events)
      ensures p.w != o.io ==> Owed(loop.hist, o.io) == Owed(old(loop.hist), o.io)
      ensures p.w != o.to ==> Owed(loop.hist, o.to) == Owed(old(loop.hist), o.to)
    {
      table.LoopIsValid(0);
      hide Loop.Counted, Loop.Valid, WatcherHeap.Valid, FdTable.ValidFrom, Owed, Pop, Ok, Loop.Slot, Loop.Prio;
      TopOwed(o);
      hide OnceLoop.Valid;
      p := TakeTop();
    }

    method TakeTop() returns (p: Pending)
      requires Valid() && 0 <= loop.pendingpri < |loop.pendings| == NUMPRI && EmptyFrom(loop.pendings, loop.pendingpri + 1)
      requires loop.pendings[loop.pendingpri] != []
      modifies loop`pendings, loop`hist, loop.all`pending, loop.dummy`pending
      ensures Valid() && loop.Abs() == Pop(old(loop.Abs()), loop.dummy, loop.pendingpri)
      ensures p == old(loop.pendings[loop.pendingpri][|loop.pendings[loop.pendingpri]| - 1])
    {
      hide Loop.Counted, Loop.Valid, Loop.Abs, WatcherHeap.Valid, FdTable.ValidFrom, Pop;
      p := table.TakeTop(0);
      table.LoopIsValid(0);
    }

    lemma TopOwed(o: Once)
      requires loop.Valid() && o.io in loop.all && o.to in loop.all
      requires 0 <= loop.pendingpri < |loop.pendings| == NUMPRI && loop.pendings[loop.pendingpri] != []
      requires OnTop(o)
      ensures var q := loop.pendings[loop.pendingpri]; var top := q[|q| - 1];
        && Owed(loop.hist, top.w) == Debt(loop.pendingpri, top.events)
        && (top.w != o.io ==> Owed(Pop(loop.Abs(), loop.dummy, loop.pendingpri).hist, o.io) == Owed(loop.hist, o.io))
        && (top.w != o.to ==> Owed(Pop(loop.Abs(), loop.dummy, loop.pendingpri).hist, o.to) == Owed(loop.hist, o.to))
    {
      NotDummy(o);
      hide Owed, Pop, Ok;
      PopOwed(loop.Abs(), loop.dummy, loop.pendingpri, o.io);
      PopOwed(loop.Abs(), loop.dummy, loop.pendingpri, o.to);
    }

    lemma NotDummy(o: Once)
      requires loop.Valid() && o.io in loop.all && o.to in loop.all
      ensures o.io != loop.dummy && o.to != loop.dummy
    {
      assert o.io in loop.Slot() && o.to in loop.Slot();
    }

    /** `ev_once` starts what it is asked for. */
    method EvOnce(fd: int, events: bv8, timeout: real) returns (o: Once)
      requires Valid() && (fd >= 0 ==> events & !(IOFDSET | DIRECTIONS) == 0)
      modifies table`anfds, table`fdchanges, table`lists, table`members
      modifies loop`all, loop`activecnt, loop`running, timers.heap, timers.heap.heap, timers.heap.members`active
      ensures Valid() && fresh(o) && Armed(o) && !o.freed
      ensures o.io in table.members <==> fd >= 0
      ensures fd >= 0 ==> o.io.fd == fd && SameDirections(events, o.io.events) && Flagged(table.anfds, fd) && Fdset(table.anfds, fd)
      ensures o.to in timers.heap.members <==> timeout >= 0.0
      ensures timeout >= 0.0 ==> o.to.at == timers.now + timeout && o.to.repeat == 0.0
    {
      hide OnceLoop.Valid, SameDirections, Flagged, Fdset, Hits, IoMask;
      o := NewOnce();
      if fd >= 0 {
        IoMaskIs(events);
        IoSet(o.io, fd, events);
        StartIo(o.io);
        SameDirectionsTrans(events, IoMask(events), o.io.events);
      }
      if timeout >= 0.0 {
        o.to.at, o.to.repeat := timeout, 0.0;
        StartTimer(o.to);
      }
    }

    /** `ev_io_set` */
    method IoSet(w: Watcher, fd: int, events: bv8)
      modifies w`fd, w`events
      ensures w.fd == fd && w.events == IoMask(events)
    {
      w.fd, w.events := fd, IoMask(events);
    }

    /** `ev_malloc` and both `ev_init` */
    method NewOnce() returns (o: Once)
      requires Valid()
      modifies loop`all
      ensures Valid() && fresh(o) && fresh(o.io) && fresh(o.to) && Armed(o) && !o.freed
      ensures o.io.active == o.to.active == 0 && o.io !in table.members && o.to !in timers.heap.members
    {
      hide OnceLoop.Valid;
      MembersAre();
      o := new Once();
      Adopt(o.io);
      Adopt(o.to);
      MembersAre();
    }

    ghost method Adopt(w: Watcher)
      requires Valid() && w !in loop.all && w != loop.dummy && w.active == 0 && w.pending == 0
      modifies loop`all
      ensures Valid() && loop.all == old(loop.all) + {w}
    {
      hide Loop.Valid, Loop.Counted, Loop.Abs, WatcherHeap.Valid, TablesOk, FdTable.Abs;
      table.LoopIsValid(0);
      loop.Adopt(w);
    }

    method StartIo(w: Watcher)
      requires Valid() && w in loop.all && w.kind == Io && w.active == 0 && w.fd >= 0
      requires w.events & !(IOFDSET | DIRECTIONS) == 0
      modifies table`anfds, table`fdchanges, table`lists, table`members
      modifies loop`activecnt, loop`running, w`active, w`priority, w`next, w`events
      ensures Valid() && w in table.members && SameDirections(old(w.events), w.events)
      ensures Flagged(table.anfds, w.fd) && (Hits(old(w.events), IOFDSET) ==> Fdset(table.anfds, w.fd))
      ensures timers.heap.members == old(timers.heap.members)
    {
      hide Loop.Valid, Loop.Counted, Loop.Abs, FdTable.ValidFrom, WatcherHeap.Valid, FdTable.Abs,
           FdTable.Linked, FdTable.Nexts, Added, Grown, SameCaches, SameDirections, Flagged, Fdset, Hits;
      var _ := table.IoStart(w, 0);
      table.LoopIsValid(0);
    }

    method StartTimer(w: Watcher)
      requires Valid() && w in loop.all && w.kind == Timer && w.active == 0 && w.repeat >= 0.0
      modifies loop`activecnt, loop`running, w`active, w`priority, w`at
      modifies timers.heap, timers.heap.heap, timers.heap.members`active
      ensures Valid() && timers.heap.members == old(timers.heap.members) + {w} && w.at == old(w.at) + timers.now
      ensures table.members == old(table.members)
      ensures timers.heap.heap == old(timers.heap.heap) || fresh(timers.heap.heap)
    {
      hide Loop.Valid, Loop.Counted, Loop.Abs, TimeSet.Valid, WatcherHeap.Valid, TablesOk, FdTable.Abs;
      TimerStart(timers, w);
      timers.LoopIsValid();
    }
  }
}
