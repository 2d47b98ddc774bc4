/** From the send to the service: over whole runs of the wake-up, nothing that was sent is lost, and
    nothing is served that was not sent. */
module WakeupRuns {
  import opened Wakeup
  import opened WakeupSteps

  predicate Marked(s: State, src: Source, w: nat) {
    w < |s.Chan(src).sent| && s.Chan(src).sent[w]
  }

  /** Only serving a mark takes it away, and only sending it sets it. */
  lemma MarkChanges(c: Config, s: State, a: Action, src: Source, w: nat)
    requires Enabled(s, a)
    ensures Marked(s, src, w) && !Serves(s, a, src, w) ==> Marked(Apply(c, s, a), src, w)
    ensures Marked(Apply(c, s, a), src, w) ==> (Marked(s, src, w) && !Serves(s, a, src, w)) || Sends(a, src, w)
    ensures Sends(a, src, w) ==> Marked(Apply(c, s, a), src, w)
  {
    hide StartSend, SenderStep, RunStep, PipecbStep, ScanStep;
    match a
    case Start(t, x, v) => StartMarks(s, t, x, v, src, w);
    case Send(t) => SenderIs(c, s, t, src);
    case Run(_, _) =>
    case Pipecb => PipecbLeavesMarks(c, s, src);
    case Scan => ScanMarks(s, src, w);
  }

  lemma StartMarks(s: State, t: nat, x: Source, v: nat, src: Source, w: nat)
    requires Enabled(s, Start(t, x, v))
    ensures Marked(StartSend(s, t, x, v), src, w) <==> Marked(s, src, w) || (src == x && w == v)
  {
  }

  lemma PipecbLeavesMarks(c: Config, s: State, src: Source)
    requires InPipecb(s.loop) && !InScan(s.loop)
    ensures PipecbStep(c, s).Chan(src).sent == s.Chan(src).sent
  {
  }

  lemma ScanMarks(s: State, src: Source, w: nat)
    requires InScan(s.loop) && LoopSane(s)
    ensures Marked(ScanStep(s), src, w) <==> Marked(s, src, w) && s.loop != PcbTake(src, w)
  {
    ScanChannel(s, src);
  }

  /** A mark stays until it is served. */
  lemma {:induction false} MarkStays(c: Config, run: seq<State>, acts: seq<Action>, k: nat, j: nat, src: Source, w: nat)
    requires Goes(c, run, acts) && k <= j <= |acts| && Marked(run[k], src, w)
    requires forall i {:trigger acts[i]} :: k <= i < j ==> !Serves(run[i], acts[i], src, w)
    ensures Marked(run[j], src, w)
    decreases j - k
  {
    hide Marked, Serves, Apply, Enabled;
    if k < j {
      var a := acts[k];
      MarkChanges(c, run[k], a, src, w);
      MarkStays(c, run, acts, k + 1, j, src, w);
    }
  }

  predicate Sends(a: Action, src: Source, w: nat) { a.Start? && a.src == src && a.w == w }

  /** The mark was sent in step `k`, and not served between that and `j`. */
  ghost predicate SentAt(run: seq<State>, acts: seq<Action>, k: nat, j: nat, src: Source, w: nat) {
    && k < j <= |acts| <= |run| && Sends(acts[k], src, w)
    && forall i {:trigger acts[i]} :: k < i < j ==> !Serves(run[i], acts[i], src, w)
  }

  /** A mark that is set was sent, and has not been served since. */
  lemma {:induction false} MarkWasSent(c: Config, run: seq<State>, acts: seq<Action>, j: nat, src: Source, w: nat)
    requires Goes(c, run, acts) && Init(run[0]) && j <= |acts| && Marked(run[j], src, w)
    ensures exists k :: 0 <= k < j && SentAt(run, acts, k, j, src, w)
    decreases j
  {
    hide Serves, Apply, Enabled;
    if j > 0 {
      var a := acts[j - 1];
      MarkChanges(c, run[j - 1], a, src, w);
      if Sends(a, src, w) {
        assert SentAt(run, acts, j - 1, j, src, w);
      } else {
        hide Marked;
        MarkWasSent(c, run, acts, j - 1, src, w);
        var k :| 0 <= k < j - 1 && SentAt(run, acts, k, j - 1, src, w);
        assert SentAt(run, acts, k, j, src, w);
      }
    }
  }

  /** What is about to be served is marked. */
  predicate TakeOk(s: State) { s.loop.PcbTake? ==> Marked(s, s.loop.src, s.loop.i) }

  lemma TakeStaysOk(c: Config, s: State, a: Action)
    requires TakeOk(s) && Enabled(s, a)
    ensures TakeOk(Apply(c, s, a))
  {
    var s' := Apply(c, s, a);
    if s'.loop.PcbTake? {
      if a.Scan? {
        ScanChannel(s, s.loop.src);
      } else {
        assert s'.loop == s.loop;
        MarkChanges(c, s, a, s.loop.src, s.loop.i);
      }
    }
  }

  lemma {:induction false} RunTakesMarks(c: Config, run: seq<State>, acts: seq<Action>, j: nat)
    requires Goes(c, run, acts) && Init(run[0]) && j <= |acts|
    ensures TakeOk(run[j])
    decreases j
  {
    hide TakeOk, Apply, Enabled;
    if j == 0 {
      assert TakeOk(run[0]) by { InitTakes(run[0]); }
    } else {
      var a := acts[j - 1];
      RunTakesMarks(c, run, acts, j - 1);
      TakeStaysOk(c, run[j - 1], a);
    }
  }

  lemma InitTakes(s: State)
    requires Init(s)
    ensures TakeOk(s)
  {
  }

  /** A mark set while the loop sleeps reaches it: once the senders have run to completion,
      in any order, with the loop still asleep, the pipe is readable. */
  lemma SleepingLoopIsWoken(c: Config, run: seq<State>, acts: seq<Action>, k: nat, src: Source, w: nat)
    requires c.capacity > 0 && Goes(c, run, acts) && Init(run[0]) && k <= |acts| && Marked(run[k], src, w)
    requires forall i {:trigger run[i]} :: k <= i <= |acts| ==> run[i].loop == Polling(true)
    requires AllIdle(run[|acts|])
    ensures run[|acts|].pipe > 0
  {
    MarkStays(c, run, acts, k, |acts|, src, w);
    RunKeeps(c, run, acts, |acts|);
    if run[|acts|].pipe == 0 {
      QuietMeansDelivered(run[|acts|], src);
    }
  }

  /** Nothing is served that was not sent since it was last served. */
  lemma ServedWasSent(c: Config, run: seq<State>, acts: seq<Action>, j: nat, src: Source, w: nat)
    requires Goes(c, run, acts) && Init(run[0]) && j < |acts| && Serves(run[j], acts[j], src, w)
    ensures exists k :: 0 <= k < j && SentAt(run, acts, k, j, src, w)
  {
    RunTakesMarks(c, run, acts, j);
    hide Goes, Init;
    MarkWasSent(c, run, acts, j, src, w);
  }

  // ---------- and how long that takes ----------

  /** No sender stands between marking something of `src` and setting its flag, or between a flag
      and the wake-up. */
  ghost predicate Settled(s: State, src: Source) { !WillWake(s.senders) && !WillFlag(s.senders, src) }

  ghost predicate AboutToWrite(senders: seq<Sender>) { SomeAt(senders, ClearSkipped) || SomeAt(senders, WritePipe) }

  /** The loop thread has still to poll, but then it will be woken. */
  ghost predicate SoonWoken(s: State, src: Source, w: nat) {
    && Marked(s, src, w) && s.Chan(src).flag && !InPipecb(s.loop)
    && (s.pipe > 0 || AboutToWrite(s.senders)
        || (s.skipped && (s.loop.ClearWanted? || s.loop.TestSkipped?)))
  }

  /** How many steps the loop thread takes to the next poll, and past it. */
  function ToPoll(pc: LoopPc): int {
    match pc
    case ClearWanted => 5
    case TestSkipped => 4
    case Running => 3
    case CheckSkipped => 2
    case Polling(_) => 1
    case _ => 0
  }

  /** The same when it may have to run `pipecb` to its end before. */
  function ToNextPoll(s: State): int {
    var n, m := |s.sig.sent|, |s.async.sent|;
    match s.loop
    case Polling(_) => 0
    case CheckSkipped => 1
    case Running => if s.queued then 2 * m + 2 * n + 11 else 2
    case PcbScan(x, i) => if x.Sig? then 2 * m + 6 + 2 * i else 3 + 2 * i
    case PcbTake(x, i) => if x.Sig? then 2 * m + 7 + 2 * i else 4 + 2 * i
    case PcbClearFlag(x) => if x.Sig? then 2 * m + 2 * n + 7 else 2 * m + 4
    case PcbTest(x) => if x.Sig? then 2 * m + 2 * n + 8 else 2 * m + 5
    case PcbClearSkipped => 2 * m + 2 * n + 9
    case PcbRead => 2 * m + 2 * n + 10
    case TestSkipped => 2 * m + 2 * n + 12
    case ClearWanted => 2 * m + 2 * n + 13
  }

  /** How many steps of its own the loop thread takes at most to serve the mark. */
  ghost function Budget(s: State, src: Source, w: nat): int {
    if OnTheWay(s, src, w) then Distance(s, src, w)
    else if SoonWoken(s, src, w) then FromTests(s, src, w) + 6 + ToPoll(s.loop)
    else FromTests(s, src, w) + 12 + ToNextPoll(s)
  }

  lemma DistanceBound(s: State, src: Source, w: nat)
    requires OnTheWay(s, src, w) && LoopSane(s)
    ensures 0 < Distance(s, src, w) <= FromTests(s, src, w) + 6
  {
  }

  lemma SizesStay(c: Config, s: State, a: Action)
    requires Enabled(s, a)
    ensures |Apply(c, s, a).sig.sent| == |s.sig.sent| && |Apply(c, s, a).async.sent| == |s.async.sent|
  {
    hide SenderStep, RunStep, PipecbStep, ScanStep;
    match a
    case Start(_, _, _) =>
    case Send(_) =>
    case Run(_, _) =>
    case Pipecb =>
      PipecbLeavesMarks(c, s, Sig);
      PipecbLeavesMarks(c, s, Async);
    case Scan =>
      ScanChannel(s, Sig);
      ScanChannel(s, Async);
  }

  lemma StartLeavesSoonWoken(s: State, t: nat, x: Source, v: nat, src: Source, w: nat)
    requires Enabled(s, Start(t, x, v)) && SoonWoken(s, src, w)
    ensures SoonWoken(StartSend(s, t, x, v), src, w) && StartSend(s, t, x, v).loop == s.loop
  {
    StartMarks(s, t, x, v, src, w);
    SomeAtMoved(s.senders, t, CheckFlag(x));
    hide Marked, SomeAt;
  }

  lemma SenderLeavesSoonWoken(c: Config, s: State, t: nat, src: Source, w: nat)
    requires c.capacity > 0 && Enabled(s, Send(t)) && SoonWoken(s, src, w)
    ensures SoonWoken(SenderStep(c, s, t), src, w)
  {
    SenderIs(c, s, t, src);
    var s' := SenderStep(c, s, t);
    SomeAtMoved(s.senders, t, s'.senders[t]);
    WakeUpStays(c, s, t);
    hide SomeAt, SenderStep, AboutToWrite;
  }

  /** A wake-up is put off by a sender only if that sender goes on to write. */
  lemma WakeUpStays(c: Config, s: State, t: nat)
    requires c.capacity > 0 && Enabled(s, Send(t))
    ensures var s' := SenderStep(c, s, t);
      && (s.pipe > 0 || AboutToWrite(s.senders) ==> s'.pipe > 0 || AboutToWrite(s'.senders))
      && (s.skipped ==> s'.skipped || AboutToWrite(s'.senders))
  {
    SomeAtMoved(s.senders, t, SenderStep(c, s, t).senders[t]);
    hide SomeAt;
    match s.senders[t]
    case ClearSkipped =>
    case WritePipe =>
    case _ =>
  }

  lemma SoonWokenStays(c: Config, s: State, a: Action, src: Source, w: nat)
    requires c.capacity > 0 && Enabled(s, a) && !OfLoop(a) && SoonWoken(s, src, w)
    ensures SoonWoken(Apply(c, s, a), src, w) && Apply(c, s, a).loop == s.loop
  {
    hide SoonWoken, StartSend;
    match a
    case Start(t, x, v) => StartLeavesSoonWoken(s, t, x, v, src, w);
    case Send(t) => SenderLeavesSoonWoken(c, s, t, src, w);
  }

  lemma SoonWokenComesCloser(s: State, noWait: bool, report: bool, src: Source, w: nat)
    requires SoonWoken(s, src, w) && !OnTheWay(s, src, w) && (s.loop.Polling? ==> Settled(s, src))
    ensures var s' := RunStep(s, noWait, report);
      OnTheWay(s', src, w) || (SoonWoken(s', src, w) && ToPoll(s'.loop) < ToPoll(s.loop))
  {
    hide SomeAt;
  }

  lemma RunNearsPoll(s: State, noWait: bool, report: bool)
    requires LoopOk(s) && !InPipecb(s.loop) && !s.loop.Polling?
    ensures 0 <= ToNextPoll(RunStep(s, noWait, report)) < ToNextPoll(s)
  {
  }

  lemma PipecbNearsPoll(c: Config, s: State)
    requires LoopOk(s) && InPipecb(s.loop) && !InScan(s.loop)
    ensures 0 <= ToNextPoll(PipecbStep(c, s)) < ToNextPoll(s)
  {
    hide SomeAt, AfterRead;
  }

  lemma ScanNearsPoll(s: State)
    requires LoopOk(s) && InScan(s.loop)
    ensures 0 <= ToNextPoll(ScanStep(s)) < ToNextPoll(s)
  {
    ScanMoves(s);
    hide ScanStep, LoopOk;
  }

  lemma ScanMoves(s: State)
    requires LoopOk(s) && InScan(s.loop)
    ensures var s' := ScanStep(s);
      && |s'.sig.sent| == |s.sig.sent| && |s'.async.sent| == |s.async.sent| && !s'.queued && LoopSane(s)
      && s'.loop ==
           if s.loop.PcbTake? then PcbScan(s.loop.src, s.loop.i)
           else if s.loop.i == 0 then NextSource(s.loop.src)
           else if s.Chan(s.loop.src).sent[s.loop.i - 1] then PcbTake(s.loop.src, s.loop.i - 1)
           else PcbScan(s.loop.src, s.loop.i - 1)
  {
    hide SomeAt;
  }

  lemma ToNextPollFalls(c: Config, s: State, a: Action)
    requires LoopOk(s) && Enabled(s, a) && OfLoop(a) && !s.loop.Polling?
    ensures 0 <= ToNextPoll(Apply(c, s, a)) < ToNextPoll(s)
  {
    hide LoopOk, ToNextPoll, RunStep, PipecbStep, ScanStep;
    match a
    case Run(noWait, report) => RunNearsPoll(s, noWait, report);
    case Pipecb => PipecbNearsPoll(c, s);
    case Scan => ScanNearsPoll(s);
  }

  /** A poll with settled senders finds a readable pipe, or a wake-up that was skipped. */
  lemma PollTurns(s: State, noWait: bool, report: bool, src: Source, w: nat)
    requires Inv(s) && s.loop.Polling? && Settled(s, src) && Marked(s, src, w) && !OnTheWay(s, src, w)
    ensures SoonWoken(RunStep(s, noWait, report), src, w)
  {
    assert ChannelOk(s, src);
    assert MarkCovered(s, src, w);
    hide SomeAt;
  }

  lemma BudgetHolds(c: Config, s: State, a: Action, src: Source, w: nat)
    requires c.capacity > 0 && Inv(s) && Marked(s, src, w) && Enabled(s, a) && !OfLoop(a)
    ensures Budget(Apply(c, s, a), src, w) <= Budget(s, src, w)
  {
    var s' := Apply(c, s, a);
    StepKeeps(c, s, a);
    SizesStay(c, s, a);
    SendersLeaveLoop(c, s, a);
    if OnTheWay(s, src, w) {
      SendersLeaveTheWay(c, s, a, src, w);
    } else if OnTheWay(s', src, w) {
      DistanceBound(s', src, w);
      ToNextPollIsThere(s);
    } else if SoonWoken(s, src, w) {
      SoonWokenStays(c, s, a, src, w);
    } else {
      ToNextPollIsThere(s);
    }
    hide OnTheWay, Distance, SoonWoken, Inv, Apply, Marked;
  }

  lemma ToNextPollIsThere(s: State)
    ensures 0 <= ToNextPoll(s) <= 2 * |s.async.sent| + 2 * |s.sig.sent| + 13 || s.loop.PcbScan? || s.loop.PcbTake?
    ensures LoopSane(s) ==> 0 <= ToNextPoll(s) <= 2 * |s.async.sent| + 2 * |s.sig.sent| + 13
    ensures 0 <= ToPoll(s.loop) <= 5 && 0 <= ToNextPoll(s)
  {
  }

  lemma SendersLeaveLoop(c: Config, s: State, a: Action)
    requires Enabled(s, a) && !OfLoop(a)
    ensures Apply(c, s, a).loop == s.loop && Apply(c, s, a).queued == s.queued
  {
  }

  lemma BudgetFalls(c: Config, s: State, a: Action, src: Source, w: nat)
    requires c.capacity > 0 && Inv(s) && Marked(s, src, w) && Enabled(s, a) && OfLoop(a) && !Serves(s, a, src, w)
    requires Reports(s, a) && (s.loop.Polling? ==> Settled(s, src))
    ensures Budget(Apply(c, s, a), src, w) < Budget(s, src, w)
  {
    var s' := Apply(c, s, a);
    StepKeeps(c, s, a);
    SizesStay(c, s, a);
    ToNextPollIsThere(s);
    ToNextPollIsThere(s');
    if OnTheWay(s', src, w) {
      DistanceBound(s', src, w);
    }
    if OnTheWay(s, src, w) {
      StepTowards(c, s, a, src, w);
    } else if SoonWoken(s, src, w) {
      assert a.Run?;
      SoonWokenComesCloser(s, a.noWait, a.report, src, w);
    } else if s.loop.Polling? {
      PollTurns(s, a.noWait, a.report, src, w);
    } else {
      ToNextPollFalls(c, s, a);
    }
    hide OnTheWay, Distance, Inv, Marked;
  }

  /** The largest budget. */
  function Bound(s: State, src: Source, w: nat): int { FromTests(s, src, w) + 2 * |s.async.sent| + 2 * |s.sig.sent| + 25 }

  lemma BudgetBound(s: State, src: Source, w: nat)
    requires LoopSane(s) && Marked(s, src, w)
    ensures 0 < Budget(s, src, w) <= Bound(s, src, w)
  {
    ToNextPollIsThere(s);
    if OnTheWay(s, src, w) {
      DistanceBound(s, src, w);
    }
    hide OnTheWay, Distance, SoonWoken, ToNextPoll, ToPoll;
  }

  /** The senders are settled whenever the loop thread polls. */
  ghost predicate SettledPolls(run: seq<State>, acts: seq<Action>, src: Source) {
    forall i {:trigger acts[i]} :: 0 <= i < |acts| && i < |run| && OfLoop(acts[i]) && run[i].loop.Polling? ==> Settled(run[i], src)
  }

  /** In step `j` the mark is served, and after step `k` it has stayed up to there. */
  ghost predicate ServedAt(run: seq<State>, acts: seq<Action>, k: int, j: nat, src: Source, w: nat) {
    && -1 <= k < j < |acts| <= |run| && Serves(run[j], acts[j], src, w)
    && forall i {:trigger run[i]} :: k < i <= j ==> Marked(run[i], src, w)
  }

  lemma {:induction false} ServedInTime(c: Config, run: seq<State>, acts: seq<Action>, src: Source, w: nat)
    requires c.capacity > 0 && Takes(c, run, acts) && SettledPolls(run, acts, src)
    requires Inv(run[0]) && Marked(run[0], src, w) && Budget(run[0], src, w) <= LoopSteps(acts)
    ensures exists j :: 0 <= j < |acts| && ServedAt(run, acts, -1, j, src, w)
    decreases |acts|
  {
    hide Inv, Marked, Budget, Apply, Enabled, Settled, Serves, Reports;
    InvIsSane(run[0]);
    BudgetBound(run[0], src, w);
    var a := acts[0];
    if Serves(run[0], a, src, w) {
      assert ServedAt(run, acts, -1, 0, src, w);
    } else {
      MarkChanges(c, run[0], a, src, w);
      StepKeeps(c, run[0], a);
      if OfLoop(a) {
        BudgetFalls(c, run[0], a, src, w);
      } else {
        BudgetHolds(c, run[0], a, src, w);
      }
      RestTakes(c, run, acts, src);
      ServedInTime(c, run[1..], acts[1..], src, w);
      var j :| 0 <= j < |acts| - 1 && ServedAt(run[1..], acts[1..], -1, j, src, w);
      ServedLater(run, acts, j, src, w);
    }
  }

  lemma InvIsSane(s: State)
    requires Inv(s)
    ensures LoopSane(s)
  {
  }

  lemma RestTakes(c: Config, run: seq<State>, acts: seq<Action>, src: Source)
    requires Takes(c, run, acts) && SettledPolls(run, acts, src) && acts != []
    ensures Takes(c, run[1..], acts[1..]) && SettledPolls(run[1..], acts[1..], src)
  {
    hide Enabled, Reports, Apply, Settled;
    forall i {:trigger acts[1..][i]} | 0 <= i < |acts| - 1
      ensures Enabled(run[1..][i], acts[1..][i]) && Reports(run[1..][i], acts[1..][i])
      ensures run[1..][i + 1] == Apply(c, run[1..][i], acts[1..][i])
      ensures OfLoop(acts[1..][i]) && run[1..][i].loop.Polling? ==> Settled(run[1..][i], src)
    {
      assert acts[1..][i] == acts[i + 1];
    }
  }

  lemma ServedLater(run: seq<State>, acts: seq<Action>, j: nat, src: Source, w: nat)
    requires |run| == |acts| + 1 && acts != [] && Marked(run[0], src, w) && ServedAt(run[1..], acts[1..], -1, j, src, w)
    ensures ServedAt(run, acts, -1, j + 1, src, w)
  {
    hide Marked, Serves;
    forall i {:trigger run[i]} | 0 <= i <= j + 1
      ensures Marked(run[i], src, w)
    {
      if i > 0 {
        assert run[1..][i - 1] == run[i];
      }
    }
  }

  /** The main result: whenever something is sent, in any run and whatever else is sent meanwhile,
      the mark stays until it is served; and it is served by the time the loop thread has taken
      so many steps of its own, provided no sender is stuck in the middle of its call whenever
      the loop polls. */
  lemma SentIsServed(c: Config, run: seq<State>, acts: seq<Action>, k: nat, src: Source, w: nat)
    requires c.capacity > 0 && Takes(c, run, acts) && Init(run[0]) && k < |acts| && Sends(acts[k], src, w)
    requires SettledPolls(run[k + 1..], acts[k + 1..], src)
    requires Bound(run[k + 1], src, w) <= LoopSteps(acts[k + 1..])
    ensures exists j :: k < j < |acts| && ServedAt(run, acts, k, j, src, w)
  {
    var a := acts[k];
    assert Marked(run[k + 1], src, w) by { MarkChanges(c, run[k], a, src, w); }
    RunKeeps(c, run, acts, k + 1);
    TailTakes(c, run, acts, k + 1);
    hide Inv, Init, Marked, Takes, SettledPolls;
    InvIsSane(run[k + 1]);
    BudgetBound(run[k + 1], src, w);
    hide Budget, Bound;
    ServedInTime(c, run[k + 1..], acts[k + 1..], src, w);
    var j :| 0 <= j < |acts| - k - 1 && ServedAt(run[k + 1..], acts[k + 1..], -1, j, src, w);
    assert |run| == |acts| + 1;
    ServedInTail(run, acts, k + 1, j, src, w);
  }

  lemma ServedInTail(run: seq<State>, acts: seq<Action>, k: nat, j: nat, src: Source, w: nat)
    requires |run| == |acts| + 1 && k <= |acts| && ServedAt(run[k..], acts[k..], -1, j, src, w)
    ensures ServedAt(run, acts, k - 1, k + j, src, w)
  {
    hide Marked, Serves;
    forall i {:trigger run[i]} | k <= i <= k + j
      ensures Marked(run[i], src, w)
    {
      assert run[k..][i - k] == run[i];
    }
  }

  lemma TailTakes(c: Config, run: seq<State>, acts: seq<Action>, k: nat)
    requires Takes(c, run, acts) && k <= |acts|
    ensures Takes(c, run[k..], acts[k..])
  {
    hide Enabled, Reports, Apply;
    forall i {:trigger acts[k..][i]} | 0 <= i < |acts| - k
      ensures Enabled(run[k..][i], acts[k..][i]) && Reports(run[k..][i], acts[k..][i])
      ensures run[k..][i + 1] == Apply(c, run[k..][i], acts[k..][i])
    {
      assert acts[k..][i] == acts[k + i];
    }
  }

  /** Senders that have returned are settled. */
  lemma IdleIsSettled(s: State, src: Source)
    requires AllIdle(s)
    ensures Settled(s, src)
  {
  }

  // ---------- and then it sleeps again ----------

  /** A read that was reported takes something out of the pipe; of an eventfd it takes all. */
  lemma ReadDrains(c: Config, s: State)
    requires s.loop == PcbRead && s.gotRead && s.pipe > 0 && (c.eventfd || c.chunk > 0)
    ensures PipecbStep(c, s).pipe < s.pipe && (c.eventfd || s.pipe <= c.chunk ==> PipecbStep(c, s).pipe == 0)
  {
  }

  /** A loop with nothing to deliver and nothing that keeps it awake is asleep two steps later, and
      stays so until a sender comes. */
  lemma QuietLoopSleeps(s: State, report: bool)
    requires s.loop == Running && !s.queued && !s.skipped
    ensures var s' := RunStep(RunStep(s, false, report), false, report); s' == s.(wanted := true, loop := Polling(true))
  {
  }
}
