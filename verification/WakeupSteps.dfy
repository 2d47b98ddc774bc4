/** How far the loop thread is from serving a mark that it is on the way to, in steps of its own. */
module WakeupSteps {
  import opened Wakeup

  /** Nothing but the loop thread's own steps stands between mark `w` of `src` and its watcher. */
  predicate OnTheWay(s: State, src: Source, w: nat) {
    && w < |s.Chan(src).sent| && s.Chan(src).sent[w]
    && (w < ScanLimit(s.loop, src)
        || (s.Chan(src).flag && (BeforeTest(s.loop, src) || (s.loop.Polling? && s.pipe > 0)
                                 || (s.queued && (s.loop.ClearWanted? || s.loop.TestSkipped? || s.loop.Running?)))))
  }

  /** How many steps the loop thread takes at most from the test of `src` to mark `w`. */
  function FromTest(s: State, src: Source, w: nat): int { 2 * (|s.Chan(src).sent| - w) + 2 }

  /** And from the first of the two tests. */
  function FromTests(s: State, src: Source, w: nat): int {
    FromTest(s, src, w) + if src.Sig? then 0 else 2 * |s.sig.sent| + 3
  }

  /** And from where it stands. */
  function Distance(s: State, src: Source, w: nat): int {
    match s.loop
    case Running => FromTests(s, src, w) + 3
    case CheckSkipped => 0
    case Polling(_) => FromTests(s, src, w) + 6
    case ClearWanted => FromTests(s, src, w) + 5
    case TestSkipped => FromTests(s, src, w) + 4
    case PcbRead => FromTests(s, src, w) + 2
    case PcbClearSkipped => FromTests(s, src, w) + 1
    case PcbTest(x) => if x == src then FromTest(s, src, w) else FromTests(s, src, w)
    case PcbClearFlag(x) => (if x == src then FromTest(s, src, w) else FromTests(s, src, w)) - 1
    case PcbScan(x, i) => if x == src then 2 * (i - w) else FromTest(s, src, w) + 2 * i + 1
    case PcbTake(x, i) => if x == src then 2 * (i - w) + 1 else FromTest(s, src, w) + 2 * i + 2
  }

  predicate OfLoop(a: Action) { a.Run? || a.Pipecb? || a.Scan? }

  /** The backend reports the pipe when it is readable. */
  predicate Reports(s: State, a: Action) { s.loop.Polling? && a.Run? ==> a.report }

  /** The step that serves the mark. */
  predicate Serves(s: State, a: Action, src: Source, w: nat) { a.Scan? && s.loop == PcbTake(src, w) }

  /** The loop thread is never stuck. */
  lemma LoopCanGoOn(s: State)
    requires LoopSane(s)
    ensures exists a :: Enabled(s, a) && OfLoop(a) && Reports(s, a)
  {
    assert Enabled(s, Run(false, true)) || Enabled(s, Pipecb) || Enabled(s, Scan);
    assert Reports(s, Run(false, true));
  }

  /** What a sender leaves alone. */
  predicate LeavesAlone(s: State, s': State, x: Source) {
    && s'.loop == s.loop && s'.queued == s.queued && s'.pipe >= s.pipe
    && (s.Chan(x).flag ==> s'.Chan(x).flag) && |s'.Chan(x).sent| == |s.Chan(x).sent|
    && forall v :: 0 <= v < |s.Chan(x).sent| && s.Chan(x).sent[v] ==> s'.Chan(x).sent[v]
  }

  lemma SenderLeavesAlone(c: Config, s: State, t: nat, x: Source)
    requires t < |s.senders| && s.senders[t] != Idle
    ensures LeavesAlone(s, SenderStep(c, s, t), x)
  {
    SenderIs(c, s, t, x);
    match s.senders[t]
    case WritePipe =>
    case CheckFlag(_) =>
    case SetFlag(_) =>
    case SetSkipped =>
    case CheckWanted =>
    case ClearSkipped =>
  }

  lemma WayStays(s: State, s': State, src: Source, w: nat)
    requires LeavesAlone(s, s', src) && LeavesAlone(s, s', Sig) && OnTheWay(s, src, w)
    ensures OnTheWay(s', src, w) && Distance(s', src, w) == Distance(s, src, w)
  {
    hide BeforeTest, ScanLimit;
  }

  lemma SendersLeaveTheWay(c: Config, s: State, a: Action, src: Source, w: nat)
    requires Enabled(s, a) && !OfLoop(a) && OnTheWay(s, src, w)
    ensures OnTheWay(Apply(c, s, a), src, w) && Distance(Apply(c, s, a), src, w) == Distance(s, src, w)
  {
    hide OnTheWay, Distance, SenderStep, StartSend;
    match a
    case Start(t, x, v) =>
      assert LeavesAlone(s, StartSend(s, t, x, v), src) && LeavesAlone(s, StartSend(s, t, x, v), Sig) by { StartLeavesAlone(s, t, x, v); }
      WayStays(s, StartSend(s, t, x, v), src, w);
    case Send(t) =>
      SenderLeavesAlone(c, s, t, src);
      SenderLeavesAlone(c, s, t, Sig);
      WayStays(s, SenderStep(c, s, t), src, w);
  }

  lemma StartLeavesAlone(s: State, t: nat, x: Source, v: nat)
    requires Enabled(s, Start(t, x, v))
    ensures LeavesAlone(s, StartSend(s, t, x, v), Sig) && LeavesAlone(s, StartSend(s, t, x, v), Async)
  {
  }

  lemma RunComesCloser(s: State, noWait: bool, report: bool, src: Source, w: nat)
    requires !InPipecb(s.loop) && OnTheWay(s, src, w) && (s.loop.Polling? ==> report)
    ensures OnTheWay(RunStep(s, noWait, report), src, w)
    ensures 0 <= Distance(RunStep(s, noWait, report), src, w) < Distance(s, src, w)
  {
  }

  lemma ReadComesCloser(c: Config, s: State, src: Source, w: nat)
    requires (s.loop.PcbRead? || s.loop.PcbClearSkipped?) && OnTheWay(s, src, w)
    ensures OnTheWay(PipecbStep(c, s), src, w)
    ensures 0 <= Distance(PipecbStep(c, s), src, w) < Distance(s, src, w)
  {
    hide AfterRead;
  }

  lemma OwnTestComesCloser(c: Config, s: State, w: nat)
    requires s.loop.PcbTest? && OnTheWay(s, s.loop.src, w)
    ensures OnTheWay(PipecbStep(c, s), s.loop.src, w)
    ensures 0 <= Distance(PipecbStep(c, s), s.loop.src, w) < Distance(s, s.loop.src, w)
  {
    hide AfterRead;
  }

  lemma OtherTestComesCloser(c: Config, s: State, w: nat)
    requires s.loop == PcbTest(Sig) && OnTheWay(s, Async, w)
    ensures OnTheWay(PipecbStep(c, s), Async, w)
    ensures 0 <= Distance(PipecbStep(c, s), Async, w) < Distance(s, Async, w)
  {
    hide AfterRead;
  }

  lemma OwnFlagComesCloser(c: Config, s: State, w: nat)
    requires s.loop.PcbClearFlag? && OnTheWay(s, s.loop.src, w)
    ensures OnTheWay(PipecbStep(c, s), s.loop.src, w)
    ensures 0 <= Distance(PipecbStep(c, s), s.loop.src, w) < Distance(s, s.loop.src, w)
  {
    hide AfterRead;
  }

  lemma OtherFlagComesCloser(c: Config, s: State, w: nat)
    requires s.loop == PcbClearFlag(Sig) && OnTheWay(s, Async, w)
    ensures OnTheWay(PipecbStep(c, s), Async, w)
    ensures 0 <= Distance(PipecbStep(c, s), Async, w) < Distance(s, Async, w)
  {
    hide AfterRead;
  }

  /** The signals come before the asyncs. */
  lemma SignalsFirst(s: State, src: Source, w: nat)
    requires (s.loop.PcbTest? || s.loop.PcbClearFlag?) && OnTheWay(s, src, w) && s.loop.src != src
    ensures s.loop.src == Sig && src == Async
  {
  }

  lemma PipecbComesCloser(c: Config, s: State, src: Source, w: nat)
    requires InPipecb(s.loop) && !InScan(s.loop) && OnTheWay(s, src, w)
    ensures OnTheWay(PipecbStep(c, s), src, w)
    ensures 0 <= Distance(PipecbStep(c, s), src, w) < Distance(s, src, w)
  {
    hide OnTheWay, Distance, PipecbStep;
    if s.loop.PcbRead? || s.loop.PcbClearSkipped? {
      ReadComesCloser(c, s, src, w);
    } else if s.loop.src != src {
      SignalsFirst(s, src, w);
      if s.loop.PcbTest? {
        OtherTestComesCloser(c, s, w);
      } else {
        OtherFlagComesCloser(c, s, w);
      }
    } else if s.loop.PcbTest? {
      OwnTestComesCloser(c, s, w);
    } else {
      OwnFlagComesCloser(c, s, w);
    }
  }

  lemma OwnScanComesCloser(s: State, src: Source, w: nat)
    requires InScan(s.loop) && LoopSane(s) && OnTheWay(s, src, w) && s.loop != PcbTake(src, w) && s.loop.src == src
    ensures OnTheWay(ScanStep(s), src, w)
    ensures 0 <= Distance(ScanStep(s), src, w) < Distance(s, src, w)
  {
    ScanChannel(s, src);
    assert !s.loop.PcbScan? || s.loop.i > 0;
    hide ScanStep;
  }

  /** The scan of the signals comes before that of the asyncs. */
  lemma OtherScanComesCloser(s: State, src: Source, w: nat)
    requires InScan(s.loop) && LoopSane(s) && OnTheWay(s, src, w) && s.loop.src != src
    ensures OnTheWay(ScanStep(s), src, w)
    ensures 0 <= Distance(ScanStep(s), src, w) < Distance(s, src, w)
  {
    ScanChannel(s, src);
    assert s.loop.src == Sig && src == Async;
    ScanChannel(s, Sig);
  }

  lemma ScanComesCloser(s: State, src: Source, w: nat)
    requires InScan(s.loop) && LoopSane(s) && OnTheWay(s, src, w) && s.loop != PcbTake(src, w)
    ensures OnTheWay(ScanStep(s), src, w)
    ensures 0 <= Distance(ScanStep(s), src, w) < Distance(s, src, w)
  {
    hide OnTheWay, Distance, ScanStep;
    if s.loop.src == src {
      OwnScanComesCloser(s, src, w);
    } else {
      OtherScanComesCloser(s, src, w);
    }
  }

  /** Each of its own steps serves the mark or brings the loop thread closer to it, and no step of
      another thread takes it back. */
  lemma StepTowards(c: Config, s: State, a: Action, src: Source, w: nat)
    requires Enabled(s, a) && Reports(s, a) && OnTheWay(s, src, w) && !Serves(s, a, src, w)
    ensures OnTheWay(Apply(c, s, a), src, w)
    ensures OfLoop(a) ==> 0 <= Distance(Apply(c, s, a), src, w) < Distance(s, src, w)
    ensures !OfLoop(a) ==> Distance(Apply(c, s, a), src, w) == Distance(s, src, w)
  {
    hide OnTheWay, Distance, RunStep, PipecbStep, ScanStep;
    if !OfLoop(a) {
      SendersLeaveTheWay(c, s, a, src, w);
    } else {
      match a
      case Run(noWait, report) =>
        RunComesCloser(s, noWait, report, src, w);
      case Pipecb => PipecbComesCloser(c, s, src, w);
      case Scan => ScanComesCloser(s, src, w);
    }
  }

  /** And the backend reports the pipe whenever it polls. */
  ghost predicate Takes(c: Config, run: seq<State>, acts: seq<Action>) {
    Goes(c, run, acts) && forall i {:trigger acts[i]} :: 0 <= i < |acts| ==> Reports(run[i], acts[i])
  }

  function LoopSteps(acts: seq<Action>): nat {
    if acts == [] then 0 else (if OfLoop(acts[0]) then 1 else 0) + LoopSteps(acts[1..])
  }

  /** However the threads are scheduled and whatever is sent meanwhile: once the loop thread has
      taken as many steps as the distance says, the mark has been served. */
  lemma {:induction false} MarkIsServed(c: Config, run: seq<State>, acts: seq<Action>, src: Source, w: nat)
    requires Takes(c, run, acts) && OnTheWay(run[0], src, w) && Distance(run[0], src, w) <= LoopSteps(acts)
    ensures exists k :: 0 <= k < |acts| && Serves(run[k], acts[k], src, w)
    decreases |acts|
  {
    hide OnTheWay, Distance, Apply, Enabled;
    assert Distance(run[0], src, w) > 0 by { DistanceIsPositive(run[0], src, w); }
    var a := acts[0];
    if !Serves(run[0], a, src, w) {
      StepTowards(c, run[0], a, src, w);
      assert Takes(c, run[1..], acts[1..]) by {
        forall i {:trigger acts[1..][i]} | 0 <= i < |acts| - 1
          ensures Enabled(run[1..][i], acts[1..][i]) && Reports(run[1..][i], acts[1..][i])
          ensures run[1..][i + 1] == Apply(c, run[1..][i], acts[1..][i])
        {
          assert acts[1..][i] == acts[i + 1];
        }
      }
      MarkIsServed(c, run[1..], acts[1..], src, w);
      var k :| 0 <= k < |acts| - 1 && Serves(run[1..][k], acts[1..][k], src, w);
      assert Serves(run[k + 1], acts[k + 1], src, w);
    }
  }

  lemma DistanceIsPositive(s: State, src: Source, w: nat)
    requires OnTheWay(s, src, w)
    ensures Distance(s, src, w) > 0
  {
  }

  /** A loop that sleeps although a mark is set, with no sender in the middle of a call, serves
      the mark within so many steps of its own, whatever is sent meanwhile. */
  lemma WokenLoopServes(c: Config, before: seq<State>, acts0: seq<Action>, run: seq<State>, acts: seq<Action>, src: Source, w: nat)
    requires c.capacity > 0 && Goes(c, before, acts0) && Init(before[0]) && Takes(c, run, acts) && run[0] == before[|acts0|]
    requires run[0].loop == Polling(true) && AllIdle(run[0]) && w < |run[0].Chan(src).sent| && run[0].Chan(src).sent[w]
    requires LoopSteps(acts) >= 8 + 2 * (|run[0].Chan(src).sent| - w) + if src.Sig? then 0 else 2 * |run[0].sig.sent| + 3
    ensures exists k :: 0 <= k < |acts| && Serves(run[k], acts[k], src, w)
  {
    hide OnTheWay, Distance, Inv, Init, LoopSteps, Serves;
    RunKeeps(c, before, acts0, |acts0|);
    SleeperIsOnTheWay(run[0], src, w);
    hide Goes, Takes;
    MarkIsServed(c, run, acts, src, w);
  }

  lemma SleeperIsOnTheWay(s: State, src: Source, w: nat)
    requires Inv(s) && s.loop == Polling(true) && AllIdle(s) && w < |s.Chan(src).sent| && s.Chan(src).sent[w]
    ensures OnTheWay(s, src, w)
    ensures Distance(s, src, w) == 8 + 2 * (|s.Chan(src).sent| - w) + if src.Sig? then 0 else 2 * |s.sig.sent| + 3
  {
    if s.pipe == 0 {
      QuietMeansDelivered(s, src);
    }
    assert MarkCovered(s, src, w) by { assert ChannelOk(s, src); }
  }
}
