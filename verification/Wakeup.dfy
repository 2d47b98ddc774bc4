/** The cross-thread wake-up of libev: `ev_async_send` and `ev_feed_signal` on any number
    of threads (or signal handlers) against the one thread that runs `ev_run` and `pipecb`.

    Every shared-memory access of the C code is one step, and the steps of all threads
    interleave freely (sequential consistency). */
module Wakeup {

  /** The two users of the pipe: `sig_pending` with `signals[i].pending`, and
      `async_pending` with `asyncs[i]->sent`. */
  datatype Source = Sig | Async

  /** One user of the pipe: its summary flag and one mark for each watcher or signal. */
  datatype Channel = Channel(flag: bool, sent: seq<bool>)

  /** Where a sender stands: each constructor names the access it makes next. */
  datatype Sender =
    | Idle
    | CheckFlag(src: Source)
    | SetFlag(src: Source)
    | SetSkipped
    | CheckWanted
    | ClearSkipped
    | WritePipe

  /** Where the loop thread stands. `Running` is everything outside the region in which
      `pipe_write_wanted` is set and outside `pipecb`. */
  datatype LoopPc =
    | Running
    | CheckSkipped
    | Polling(mayBlock: bool)
    | ClearWanted
    | TestSkipped
    | PcbRead
    | PcbClearSkipped
    | PcbTest(src: Source)
    | PcbClearFlag(src: Source)
    | PcbScan(src: Source, i: nat)
    | PcbTake(src: Source, i: nat)

  /** `pipe` counts the bytes in the pipe (or the eventfd counter); `queued` says that
      `pipe_w` is pending, and `gotRead` that `EV_READ` is among its events. */
  datatype State = State(
    sig: Channel,
    async: Channel,
    skipped: bool,
    wanted: bool,
    pipe: nat,
    queued: bool,
    gotRead: bool,
    loop: LoopPc,
    senders: seq<Sender>)
  {
    function Chan(src: Source): Channel { if src.Sig? then sig else async }

    function WithChan(src: Source, c: Channel): State {
      if src.Sig? then this.(sig := c) else this.(async := c)
    }

    /** `WithChan` followed by a move of the loop thread. */
    function Put(src: Source, c: Channel, pc: LoopPc): State {
      if src.Sig? then this.(sig := c, loop := pc) else this.(async := c, loop := pc)
    }

    function At(pc: LoopPc): State { this.(loop := pc) }

    function Moved(t: nat, pc: Sender): State
      requires t < |senders|
    {
      this.(senders := senders[t := pc])
    }
  }

  /** `capacity` is what the pipe holds before `write` fails; `chunk` is how much one `read`
      takes out: 4 bytes of a pipe, everything of an eventfd. */
  datatype Config = Config(capacity: nat, chunk: nat, eventfd: bool)

  ghost predicate Init(s: State) {
    && !s.sig.flag && !s.async.flag
    && (forall i :: 0 <= i < |s.sig.sent| ==> !s.sig.sent[i])
    && (forall i :: 0 <= i < |s.async.sent| ==> !s.async.sent[i])
    && !s.skipped && !s.wanted && s.pipe == 0 && !s.queued && !s.gotRead
    && s.loop == Running
    && AllIdle(s)
  }

  /** A thread enters `ev_async_send` (or `ev_feed_signal`) for watcher `w`: it marks it. */
  function StartSend(s: State, t: nat, src: Source, w: nat): State
    requires t < |s.senders| && w < |s.Chan(src).sent|
  {
    var c := s.Chan(src).(sent := s.Chan(src).sent[w := true]);
    var senders := s.senders[t := CheckFlag(src)];
    if src.Sig? then s.(sig := c, senders := senders) else s.(async := c, senders := senders)
  }

  /** The steps of `evpipe_write`. */
  function SenderStep(c: Config, s: State, t: nat): State
    requires t < |s.senders| && s.senders[t] != Idle
    ensures var r := SenderStep(c, s, t); r.sig.sent == s.sig.sent && r.async.sent == s.async.sent && r.loop == s.loop
  {
    match s.senders[t]
    case CheckFlag(src) => s.Moved(t, if s.Chan(src).flag then Idle else SetFlag(src))
    case SetFlag(src) => s.WithChan(src, s.Chan(src).(flag := true)).Moved(t, SetSkipped)
    case SetSkipped => s.(skipped := true).Moved(t, CheckWanted)
    case CheckWanted => s.Moved(t, if s.wanted then ClearSkipped else Idle)
    case ClearSkipped => s.(skipped := false).Moved(t, WritePipe)
    case WritePipe => s.(pipe := if s.pipe < c.capacity then s.pipe + 1 else s.pipe).Moved(t, Idle)
  }

  predicate InPipecb(pc: LoopPc) {
    pc.PcbRead? || pc.PcbClearSkipped? || pc.PcbTest? || pc.PcbClearFlag? || pc.PcbScan? || pc.PcbTake?
  }

  /** The steps of `ev_run`. `noWait` stands for the other reasons not to block; `report`
      says that the backend, if it can, reports the pipe's descriptor as readable.
      `ev_run` polls only after `ev_invoke_pending` has emptied the queues. */
  function RunStep(s: State, noWait: bool, report: bool): State
    requires !InPipecb(s.loop)
    ensures var r := RunStep(s, noWait, report); r.sig == s.sig && r.async == s.async && r.senders == s.senders
  {
    match s.loop
    case Running => if s.queued then s.(queued := false, loop := PcbRead) else s.(wanted := true, loop := CheckSkipped)
    case CheckSkipped => s.At(Polling(!(noWait || s.skipped)))
    case Polling(_) =>
      if report && s.pipe > 0 then s.(queued := true, gotRead := true, loop := ClearWanted) else s.At(ClearWanted)
    case ClearWanted => s.(wanted := false, loop := TestSkipped)
    case TestSkipped => s.(queued := s.queued || s.skipped, loop := Running)
  }

  predicate InScan(pc: LoopPc) { pc.PcbScan? || pc.PcbTake? }

  /** The steps of `pipecb` up to and including the store that clears a flag. */
  function PipecbStep(c: Config, s: State): State
    requires InPipecb(s.loop) && !InScan(s.loop)
    ensures PipecbStep(c, s).senders == s.senders
  {
    match s.loop
    case PcbRead => s.(pipe := AfterRead(c, s), gotRead := false, loop := PcbClearSkipped)
    case PcbClearSkipped => s.(skipped := false, loop := PcbTest(Sig))
    case PcbTest(src) => s.At(if s.Chan(src).flag then PcbClearFlag(src) else NextSource(src))
    case PcbClearFlag(src) =>
      s.Put(src, s.Chan(src).(flag := false), PcbScan(src, |s.Chan(src).sent|))
  }

  /** The steps of the two scan loops of `pipecb`. */
  function ScanStep(s: State): State
    requires InScan(s.loop) && LoopSane(s)
    ensures ScanStep(s).senders == s.senders
  {
    match s.loop
    case PcbScan(src, i) =>
      if i == 0 then s.At(NextSource(src))
      else if s.Chan(src).sent[i - 1] then s.At(PcbTake(src, i - 1))
      else s.At(PcbScan(src, i - 1))
    case PcbTake(src, i) =>
      s.Put(src, s.Chan(src).(sent := s.Chan(src).sent[i := false]), PcbScan(src, i))
  }

  /** The scan stays inside the array it scans. */
  predicate LoopSane(s: State) {
    && (s.loop.PcbScan? ==> s.loop.i <= |s.Chan(s.loop.src).sent|)
    && (s.loop.PcbTake? ==> s.loop.i < |s.Chan(s.loop.src).sent|)
  }

  function AfterRead(c: Config, s: State): nat {
    if !s.gotRead then s.pipe
    else if c.eventfd || s.pipe <= c.chunk then 0
    else s.pipe - c.chunk
  }

  function NextSource(src: Source): LoopPc {
    if src.Sig? then PcbTest(Async) else Running
  }

  /** One step of one thread. */
  datatype Action =
    | Start(t: nat, src: Source, w: nat)
    | Send(t: nat)
    | Run(noWait: bool, report: bool)
    | Pipecb
    | Scan

  predicate Enabled(s: State, a: Action) {
    match a
    case Start(t, src, w) => t < |s.senders| && s.senders[t] == Idle && w < |s.Chan(src).sent|
    case Send(t) => t < |s.senders| && s.senders[t] != Idle
    case Run(_, _) => !InPipecb(s.loop)
    case Pipecb => InPipecb(s.loop) && !InScan(s.loop)
    case Scan => InScan(s.loop) && LoopSane(s)
  }

  function Apply(c: Config, s: State, a: Action): State
    requires Enabled(s, a)
  {
    match a
    case Start(t, src, w) => StartSend(s, t, src, w)
    case Send(t) => SenderStep(c, s, t)
    case Run(noWait, report) => RunStep(s, noWait, report)
    case Pipecb => PipecbStep(c, s)
    case Scan => ScanStep(s)
  }

  // ---------- the inductive invariant ----------

  ghost predicate SomeAt(senders: seq<Sender>, pc: Sender) {
    exists t :: 0 <= t < |senders| && senders[t] == pc
  }

  /** `pipecb` still has the test of `src` ahead of it. */
  predicate BeforeTest(pc: LoopPc, src: Source) {
    pc == PcbRead || pc == PcbClearSkipped || pc == PcbTest(src) || pc == PcbClearFlag(src)
    || (src == Async && InPipecb(pc) && !pc.PcbRead? && !pc.PcbClearSkipped? && pc.src == Sig)
  }

  /** The scan of `src` in progress still looks at every mark below this one. */
  function ScanLimit(pc: LoopPc, src: Source): nat {
    if pc.PcbScan? && pc.src == src then pc.i
    else if pc.PcbTake? && pc.src == src then pc.i + 1
    else 0
  }

  /** A sender is about to write to the pipe, or to set `pipe_write_skipped` for good. */
  ghost predicate WillWake(senders: seq<Sender>) {
    SomeAt(senders, SetSkipped) || SomeAt(senders, ClearSkipped) || SomeAt(senders, WritePipe)
  }

  ghost predicate WillFlag(senders: seq<Sender>, src: Source) {
    SomeAt(senders, CheckFlag(src)) || SomeAt(senders, SetFlag(src))
  }

  /** Somebody is committed to bringing `pipecb` to the test of `src`. */
  ghost predicate Covered(s: State, src: Source) {
    s.skipped || s.pipe > 0 || s.queued || WillWake(s.senders) || BeforeTest(s.loop, src)
  }

  /** Somebody is committed to looking at mark `w` of `src`. */
  ghost predicate MarkCovered(s: State, src: Source, w: nat) {
    s.Chan(src).flag || WillFlag(s.senders, src) || w < ScanLimit(s.loop, src)
  }

  ghost predicate ChannelOk(s: State, src: Source) {
    && (s.Chan(src).flag ==> Covered(s, src))
    && (forall w: nat ::
          w < |s.Chan(src).sent| && s.Chan(src).sent[w] ==> MarkCovered(s, src, w))
  }

  ghost predicate LoopOk(s: State) { LoopSane(s) && FlagsOk(s) }

  /** What the loop thread can rely on where it stands. */
  ghost predicate FlagsOk(s: State) {
    match s.loop
    case Running => true
    case CheckSkipped => s.wanted && !s.queued
    case Polling(mayBlock) =>
      && s.wanted && !s.queued
      && (mayBlock && s.skipped ==> SomeAt(s.senders, CheckWanted) || SomeAt(s.senders, ClearSkipped))
    case ClearWanted => true
    case TestSkipped => true
    case _ => !s.queued // in pipecb
  }

  ghost predicate Inv(s: State) {
    LoopOk(s) && forall x {:trigger ChannelOk(s, x)} :: ChannelOk(s, x)
  }

  /** Every atomic step keeps the invariant. */
  lemma StepKeeps(c: Config, s: State, a: Action)
    requires c.capacity > 0 && Inv(s) && Enabled(s, a)
    ensures Inv(Apply(c, s, a))
  {
    match a
    case Start(t, src, w) => StartSendKeeps(s, t, src, w);
    case Send(t) => SenderStepKeeps(c, s, t);
    case Run(noWait, report) => RunStepKeeps(s, noWait, report);
    case Pipecb => PipecbKeeps(c, s);
    case Scan => ScanKeeps(s);
  }

  // ---------- whole runs ----------

  /** `run` is what the actions make of its first state. */
  ghost predicate Goes(c: Config, run: seq<State>, acts: seq<Action>) {
    && |run| == |acts| + 1
    && forall i {:trigger acts[i]} :: 0 <= i < |acts| ==> Enabled(run[i], acts[i]) && run[i + 1] == Apply(c, run[i], acts[i])
  }

  /** The invariant holds throughout. */
  lemma {:induction false} RunKeeps(c: Config, run: seq<State>, acts: seq<Action>, j: nat)
    requires c.capacity > 0 && Goes(c, run, acts) && Init(run[0]) && j <= |acts|
    ensures Inv(run[j])
    decreases j
  {
    if j > 0 {
      hide Inv, Init, Enabled, Apply;
      var a := acts[j - 1];
      RunKeeps(c, run, acts, j - 1);
      StepKeeps(c, run[j - 1], a);
    }
  }

  ghost predicate AllIdle(s: State) {
    forall t :: 0 <= t < |s.senders| ==> s.senders[t] == Idle
  }

  /** The loop thread sits in the backend with permission to block, nothing in the pipe can
      wake it, and no sender is in the middle of a call. */
  ghost predicate AsleepAndQuiet(s: State) {
    s.loop == Polling(true) && s.pipe == 0 && AllIdle(s)
  }

  ghost predicate NothingToDeliver(s: State, src: Source) {
    && !s.Chan(src).flag
    && forall w :: 0 <= w < |s.Chan(src).sent| ==> !s.Chan(src).sent[w]
  }

  lemma QuietMeansDelivered(s: State, src: Source)
    requires Inv(s) && AsleepAndQuiet(s)
    ensures NothingToDeliver(s, src)
  {
    assert ChannelOk(s, src);
  }

  /** No lost wake-up: whenever the loop sleeps undisturbed, no flag and no mark is set. */
  lemma NoLostWakeup(c: Config, run: seq<State>, acts: seq<Action>)
    requires c.capacity > 0 && Goes(c, run, acts) && Init(run[0]) && AsleepAndQuiet(run[|acts|])
    ensures forall src :: NothingToDeliver(run[|acts|], src)
  {
    RunKeeps(c, run, acts, |acts|);
    forall src
      ensures NothingToDeliver(run[|acts|], src)
    {
      QuietMeansDelivered(run[|acts|], src);
    }
  }

  // ---------- the steps, one by one ----------

  /** Moving one sender leaves the others where they were. */
  lemma SomeAtMoved(s: seq<Sender>, t: nat, pc: Sender)
    requires t < |s|
    ensures SomeAt(s[t := pc], pc)
    ensures forall x :: x != s[t] && SomeAt(s, x) ==> SomeAt(s[t := pc], x)
  {
    assert s[t := pc][t] == pc;
    forall x | x != s[t] && SomeAt(s, x)
      ensures SomeAt(s[t := pc], x)
    {
      var u :| 0 <= u < |s| && s[u] == x;
      assert s[t := pc][u] == x;
    }
  }

  lemma StartSendKeepsChannel(s: State, t: nat, src: Source, w: nat, x: Source)
    requires ChannelOk(s, x) && Enabled(s, Start(t, src, w))
    ensures ChannelOk(StartSend(s, t, src, w), x)
  {
    SomeAtMoved(s.senders, t, CheckFlag(src));
    var s' := StartSend(s, t, src, w);
    forall v: nat | v < |s'.Chan(x).sent| && s'.Chan(x).sent[v]
      ensures MarkCovered(s', x, v)
    {
      assert (x == src && v == w) || (s.Chan(x).sent[v] && MarkCovered(s, x, v));
    }
  }

  lemma StartSendKeeps(s: State, t: nat, src: Source, w: nat)
    requires Inv(s) && Enabled(s, Start(t, src, w))
    ensures Inv(StartSend(s, t, src, w))
  {
    SomeAtMoved(s.senders, t, CheckFlag(src));
    StartSendKeepsChannel(s, t, src, w, Sig);
    StartSendKeepsChannel(s, t, src, w, Async);
  }

  lemma SenderKeepsMark(c: Config, s: State, t: nat, x: Source, v: nat)
    requires t < |s.senders| && s.senders[t] != Idle
    requires v < |s.Chan(x).sent| && MarkCovered(s, x, v)
    ensures MarkCovered(SenderStep(c, s, t), x, v)
  {
    var s' := SenderStep(c, s, t);
    SenderIs(c, s, t, x);
    hide SenderStep, ScanLimit;
    SomeAtMoved(s.senders, t, s'.senders[t]);
  }

  /** What a step of a sender means for one channel. */
  lemma SenderIs(c: Config, s: State, t: nat, x: Source)
    requires t < |s.senders| && s.senders[t] != Idle
    ensures var s' := SenderStep(c, s, t);
      && |s'.senders| == |s.senders| && s'.senders == s.senders[t := s'.senders[t]]
      && s'.loop == s.loop && s'.Chan(x).sent == s.Chan(x).sent
      && (s.Chan(x).flag || s.senders[t] == SetFlag(x) ==> s'.Chan(x).flag)
      && (s.senders[t] == CheckFlag(x) ==> s'.Chan(x).flag || s'.senders[t] == SetFlag(x))
  {
    match s.senders[t]
    case CheckFlag(_) =>
    case SetFlag(_) =>
    case _ =>
  }

  /** Clearing `pipe_write_skipped` may undo another sender's store, but the sender that
      does so goes on to write to the pipe. */
  lemma SenderKeepsCover(c: Config, s: State, t: nat, x: Source)
    requires c.capacity > 0 && t < |s.senders| && s.senders[t] != Idle
    requires s.Chan(x).flag ==> Covered(s, x)
    ensures SenderStep(c, s, t).Chan(x).flag ==> Covered(SenderStep(c, s, t), x)
  {
    SomeAtMoved(s.senders, t, SenderStep(c, s, t).senders[t]);
  }

  lemma SenderKeepsLoop(c: Config, s: State, t: nat)
    requires LoopOk(s) && t < |s.senders| && s.senders[t] != Idle
    ensures LoopOk(SenderStep(c, s, t))
  {
    SomeAtMoved(s.senders, t, SenderStep(c, s, t).senders[t]);
  }

  lemma SenderStepKeeps(c: Config, s: State, t: nat)
    requires Inv(s) && c.capacity > 0 && t < |s.senders| && s.senders[t] != Idle
    ensures Inv(SenderStep(c, s, t))
  {
    SenderKeepsLoop(c, s, t);
    SenderChannel(c, s, t, Sig);
    SenderChannel(c, s, t, Async);
  }

  lemma SenderChannel(c: Config, s: State, t: nat, x: Source)
    requires ChannelOk(s, x) && c.capacity > 0 && t < |s.senders| && s.senders[t] != Idle
    ensures ChannelOk(SenderStep(c, s, t), x)
  {
    SenderKeepsCover(c, s, t, x);
    forall v: nat | v < |s.Chan(x).sent| && s.Chan(x).sent[v]
      ensures MarkCovered(SenderStep(c, s, t), x, v)
    {
      SenderKeepsMark(c, s, t, x, v);
    }
  }

  lemma RunStepKeepsChannel(s: State, noWait: bool, report: bool, x: Source)
    requires !InPipecb(s.loop) && ChannelOk(s, x)
    ensures ChannelOk(RunStep(s, noWait, report), x)
  {
    var s' := RunStep(s, noWait, report);
    assert s'.Chan(x) == s.Chan(x) && ScanLimit(s.loop, x) == ScanLimit(s'.loop, x) == 0;
    forall v: nat | v < |s'.Chan(x).sent| && s'.Chan(x).sent[v]
      ensures MarkCovered(s', x, v)
    {
      assert MarkCovered(s, x, v);
    }
  }

  lemma RunStepKeeps(s: State, noWait: bool, report: bool)
    requires Inv(s) && !InPipecb(s.loop)
    ensures Inv(RunStep(s, noWait, report))
  {
    RunStepKeepsChannel(s, noWait, report, Sig);
    RunStepKeepsChannel(s, noWait, report, Async);
  }

  lemma PipecbKeepsChannel(c: Config, s: State, x: Source)
    requires InPipecb(s.loop) && !InScan(s.loop) && ChannelOk(s, x)
    ensures ChannelOk(PipecbStep(c, s), x)
  {
    var s' := PipecbStep(c, s);
    assert s'.Chan(x).sent == s.Chan(x).sent;
    forall v: nat | v < |s.Chan(x).sent| && s.Chan(x).sent[v]
      ensures MarkCovered(s', x, v)
    {
      assert MarkCovered(s, x, v);
    }
  }

  lemma PipecbKeeps(c: Config, s: State)
    requires Inv(s) && InPipecb(s.loop) && !InScan(s.loop)
    ensures Inv(PipecbStep(c, s))
  {
    PipecbKeepsChannel(c, s, Sig);
    PipecbKeepsChannel(c, s, Async);
  }

  lemma ScanKeepsMark(s: State, x: Source, v: nat)
    requires InScan(s.loop) && LoopSane(s) && v < |s.Chan(x).sent|
    requires s.Chan(x).sent[v] ==> MarkCovered(s, x, v)
    ensures v < |ScanStep(s).Chan(x).sent|
    ensures ScanStep(s).Chan(x).sent[v] ==> MarkCovered(ScanStep(s), x, v)
  {
    ScanIs(s, x);
    hide WillFlag, ScanStep;
  }

  /** What a scan step means for one channel. */
  lemma ScanIs(s: State, x: Source)
    requires InScan(s.loop) && LoopSane(s)
    ensures var s' := ScanStep(s);
      && s'.senders == s.senders && |s'.Chan(x).sent| == |s.Chan(x).sent| && s'.Chan(x).flag == s.Chan(x).flag
      && (forall v :: 0 <= v < |s.Chan(x).sent| && s'.Chan(x).sent[v] ==>
            s.Chan(x).sent[v] && (v < ScanLimit(s.loop, x) ==> v < ScanLimit(s'.loop, x)))
  {
    var s' := ScanStep(s);
    ScanChannel(s, x);
    hide ScanStep;
    if s.loop.src != x {
      assert ScanLimit(s.loop, x) == 0;
    }
  }

  lemma ScanChannel(s: State, x: Source)
    requires InScan(s.loop) && LoopSane(s)
    ensures var s' := ScanStep(s);
      && s'.senders == s.senders
      && (s.loop.src != x || s.loop.PcbScan? ==> s'.Chan(x) == s.Chan(x))
      && (s.loop.src == x && s.loop.PcbTake? ==>
            s'.Chan(x) == s.Chan(x).(sent := s.Chan(x).sent[s.loop.i := false]) && s'.loop == PcbScan(x, s.loop.i))
      && (s.loop.src == x && s.loop.PcbScan? && s.loop.i > 0 ==>
            s'.loop == if s.Chan(x).sent[s.loop.i - 1] then PcbTake(x, s.loop.i - 1) else PcbScan(x, s.loop.i - 1))
  {
  }

  lemma ScanKeepsChannel(s: State, x: Source)
    requires InScan(s.loop) && LoopSane(s) && ChannelOk(s, x)
    ensures ChannelOk(ScanStep(s), x)
  {
    var s' := ScanStep(s);
    assert |s'.Chan(x).sent| == |s.Chan(x).sent| && s'.Chan(x).flag == s.Chan(x).flag;
    forall v: nat | v < |s'.Chan(x).sent| && s'.Chan(x).sent[v]
      ensures MarkCovered(s', x, v)
    {
      ScanKeepsMark(s, x, v);
    }
  }

  lemma ScanKeeps(s: State)
    requires Inv(s) && InScan(s.loop)
    ensures Inv(ScanStep(s))
  {
    ScanKeepsChannel(s, Sig);
    ScanKeepsChannel(s, Async);
    assert LoopOk(ScanStep(s));
    hide ChannelOk, LoopOk, ScanStep;
  }
}
