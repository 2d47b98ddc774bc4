/** How long `ev_run` sleeps and polls, and what it then tells `time_update` about it. */
module Blocking {
  import opened FourHeap
  import opened WatcherHeaps
  import opened TimeSets

  const MAX_BLOCKTIME := 59.743
  const MAX_BLOCKTIME2 := 1500001.07
  const MIN_TIMEJUMP := 1.0

  /** The settings that enter the calculation; `timerfd` says that there is a descriptor that
      reports time jumps. */
  datatype Settings = Settings(io_blocktime: real, timeout_blocktime: real, backend_mintime: real, timerfd: bool) {
    predicate Valid() { io_blocktime >= 0.0 && timeout_blocktime >= 0.0 && backend_mintime >= 0.0 }

    /** The longest wait when nothing is scheduled. */
    function Longest(): real { if timerfd then MAX_BLOCKTIME2 else MAX_BLOCKTIME }
  }

  /** The time really spent: `ev_sleep` ignores a negative sleep. */
  function Total(waittime: real, sleeptime: real): real { waittime + Max(sleeptime, 0.0) }

  /** Nothing active is kept waiting for longer than until its time, or than the two minimums
      that the settings ask for. */
  ghost predicate InTime(ts: TimeSet, c: Settings, total: real)
    reads ts, ts.heap, ts.heap.members`at
  {
    forall w :: w in ts.heap.members ==> total <= Max(w.at - ts.now, Max(c.timeout_blocktime, c.backend_mintime))
  }

  /** The time from now until the root is due bounds the wait. */
  method UntilRoot(ts: TimeSet, waittime: real) returns (r: real)
    requires ts.heap.Valid()
    ensures r <= waittime && forall w :: w in ts.heap.members ==> r <= w.at - ts.now
    ensures r == waittime || exists w :: w in ts.heap.members && r == w.at - ts.now
  {
    hide WatcherHeap.Valid;
    ts.heap.Earliest();
    r := waittime;
    if ts.heap.cnt > 0 {
      var to := ts.heap.heap[HEAP0].at - ts.now;
      if r > to {
        r := to;
      }
    }
  }

  /** The calculation of `waittime` before some of it is split off. */
  method Waittime(timers: TimeSet, periodics: TimeSet, c: Settings) returns (waittime: real)
    requires timers.heap.Valid() && periodics.heap.Valid() && c.Valid()
    ensures 0.0 <= waittime <= Max(c.Longest(), Max(c.timeout_blocktime, c.backend_mintime))
    ensures InTime(timers, c, waittime) && InTime(periodics, c, waittime)
    ensures waittime >= c.timeout_blocktime && (waittime == 0.0 || waittime >= c.backend_mintime)
    ensures
      || waittime >= c.Longest()
      || (exists w :: w in timers.heap.members && waittime >= w.at - timers.now)
      || (exists w :: w in periodics.heap.members && waittime >= w.at - periodics.now)
  {
    hide WatcherHeap.Valid;
    waittime := MAX_BLOCKTIME;
    if c.timerfd {
      waittime := MAX_BLOCKTIME2;
    }
    waittime := UntilRoot(timers, waittime);
    waittime := UntilRoot(periodics, waittime);
    if waittime < c.timeout_blocktime {
      waittime := c.timeout_blocktime;
    }
    if waittime < c.backend_mintime {
      waittime := if waittime <= 0.0 then 0.0 else c.backend_mintime;
    }
  }

  /** The calculation of `waittime` and `sleeptime` in `ev_run`. `elapsed` is
      `mn_now - prev_mn_now`, `mayBlock` says that no flag, idle watcher or skipped pipe write
      forbids blocking. */
  method BlockingTime(timers: TimeSet, periodics: TimeSet, c: Settings, elapsed: real, mayBlock: bool)
    returns (waittime: real, sleeptime: real)
    requires timers.heap.Valid() && periodics.heap.Valid() && c.Valid()
    ensures !mayBlock ==> waittime == sleeptime == 0.0
    ensures waittime >= 0.0 && Total(waittime, sleeptime) <= Max(c.Longest(), Max(c.timeout_blocktime, c.backend_mintime))
    ensures mayBlock ==> InTime(timers, c, Total(waittime, sleeptime)) && InTime(periodics, c, Total(waittime, sleeptime))
    ensures mayBlock ==>
      // it collects timeouts as long as it should, and is not shorter than the backend can wait
      && Total(waittime, sleeptime) >= c.timeout_blocktime
      && (Total(waittime, sleeptime) == 0.0 || Total(waittime, sleeptime) >= c.backend_mintime)
    ensures mayBlock ==>
      // it does not wake up before there is something to do
      || Total(waittime, sleeptime) >= c.Longest()
      || (exists w :: w in timers.heap.members && Total(waittime, sleeptime) >= w.at - timers.now)
      || (exists w :: w in periodics.heap.members && Total(waittime, sleeptime) >= w.at - periodics.now)
    ensures mayBlock ==>
      sleeptime == if c.io_blocktime == 0.0 then 0.0
                   else Min(c.io_blocktime - elapsed, Total(waittime, sleeptime) - c.backend_mintime)
  {
    waittime, sleeptime := 0.0, 0.0;
    if mayBlock {
      waittime := Waittime(timers, periodics, c);
      if c.io_blocktime != 0.0 {
        sleeptime := c.io_blocktime - elapsed;
        if sleeptime > waittime - c.backend_mintime {
          sleeptime := waittime - c.backend_mintime;
        }
        if sleeptime > 0.0 {
          waittime := waittime - sleeptime;
        }
      }
    }
  }

  function Min(a: real, b: real): real { if a <= b then a else b }

  // ---------- the time-jump test that follows ----------

  /** The test of `time_update` without a monotonic clock. */
  predicate JumpDetected(mn_now: real, rt_now: real, max_block: real) {
    mn_now > rt_now || rt_now > mn_now + max_block + MIN_TIMEJUMP
  }

  /** A clock that was set by `jump` while the loop spent `total` of the `max_block` it can have
      caused: the jump is found exactly if it goes back behind the start, or forward by more than
      `MIN_TIMEJUMP` and what was not used of `max_block`. */
  lemma JumpExactlyWhen(mn_now: real, total: real, jump: real, max_block: real)
    requires 0.0 <= total <= max_block
    ensures jump < -total ==> JumpDetected(mn_now, mn_now + total + jump, max_block)
    ensures jump > MIN_TIMEJUMP + (max_block - total) ==> JumpDetected(mn_now, mn_now + total + jump, max_block)
    ensures -total <= jump <= MIN_TIMEJUMP + (max_block - total) ==> !JumpDetected(mn_now, mn_now + total + jump, max_block)
  {
  }

  /** `ev_run` passes `waittime + sleeptime` as the longest block it can have caused. That is the
      time spent exactly when `sleeptime` is not negative. A clock that advanced by just the time
      spent is taken for a jump exactly when the loop may block, `io_blocktime` is set and the
      callbacks have overrun it by more than `MIN_TIMEJUMP`. Every backend's `backend_mintime` is
      far below that. */
  lemma FalseJumpExactlyWhen(c: Settings, elapsed: real, mayBlock: bool, waittime: real, sleeptime: real, mn_now: real)
    requires c.Valid() && waittime >= 0.0 && c.backend_mintime <= MIN_TIMEJUMP
    requires !mayBlock ==> waittime == sleeptime == 0.0
    requires mayBlock ==>
      sleeptime == if c.io_blocktime == 0.0 then 0.0
                   else Min(c.io_blocktime - elapsed, Total(waittime, sleeptime) - c.backend_mintime)
    ensures JumpDetected(mn_now, mn_now + Total(waittime, sleeptime), waittime + sleeptime)
      <==> mayBlock && c.io_blocktime != 0.0 && elapsed - c.io_blocktime > MIN_TIMEJUMP
  {
  }

  /** Callbacks that ran for two seconds with an `io_blocktime` of a tenth: the undisturbed clock is
      taken to have jumped, and every timer would be moved by the time spent. */
  lemma FalseJump()
    ensures var c := Settings(0.1, 0.0, 0.001, false); var sleeptime := 0.1 - 2.0;
      && sleeptime == Min(c.io_blocktime - 2.0, Total(MAX_BLOCKTIME, sleeptime) - c.backend_mintime)
      && JumpDetected(100.0, 100.0 + Total(MAX_BLOCKTIME, sleeptime), MAX_BLOCKTIME + sleeptime)
  {
  }

  /** One iteration with an undisturbed clock, from the calculation to the test: whether the test
      reports a jump. */
  method Iterate(timers: TimeSet, periodics: TimeSet, c: Settings, elapsed: real, mayBlock: bool, mn_now: real)
    returns (jump: bool)
    requires timers.heap.Valid() && periodics.heap.Valid() && c.Valid() && c.backend_mintime <= MIN_TIMEJUMP
    ensures jump <==> mayBlock && c.io_blocktime != 0.0 && elapsed - c.io_blocktime > MIN_TIMEJUMP
  {
    hide WatcherHeap.Valid;
    var waittime, sleeptime := BlockingTime(timers, periodics, c, elapsed, mayBlock);
    FalseJumpExactlyWhen(c, elapsed, mayBlock, waittime, sleeptime, mn_now);
    jump := JumpDetected(mn_now, mn_now + Total(waittime, sleeptime), waittime + sleeptime);
  }
}
