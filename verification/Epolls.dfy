/** The epoll backend, one descriptor at a time: what libev caches about the kernel's
    registration, which it never deletes on its own initiative, against a model of what the
    kernel holds. */
module Epolls {
  import opened Events

  /** The kernel's registration of a descriptor: its mask in `EV_` terms, and the generation
      in its user data. */
  datatype Reg = Reg(mask: bv8, gen: Gen)

  datatype Entry = Absent | Present(reg: Reg)

  datatype Op = ADD | MOD | DEL

  datatype Errno = NONE | ENOENT | EEXIST | OTHER

  /** What happens to one call of `epoll_ctl`: nothing special, the descriptor is closed by
      someone just before it, or the kernel fails for another reason. */
  datatype Fate = Normal | Vanish | Fault

  datatype Answer = Answer(errno: Errno, entry: Entry)

  /** `epoll_ctl` on a descriptor that epoll accepts. */
  function Ctl(op: Op, entry: Entry, reg: Reg, fate: Fate): Answer {
    if fate == Fault then Answer(OTHER, entry)
    else
      var e := if fate == Vanish then Absent else entry;
      match op
      case ADD => if e.Present? then Answer(EEXIST, e) else Answer(NONE, Present(reg))
      case MOD => if e.Present? then Answer(NONE, Present(reg)) else Answer(ENOENT, e)
      case DEL => if e.Present? then Answer(NONE, Absent) else Answer(ENOENT, e)
  }

  /** `events`, `emask` and `egen` of an `ANFD`, and the kernel's entry. */
  datatype Line = Line(events: bv8, emask: bv8, egen: Gen, entry: Entry)

  const FRESH := Line(0, 0, 0, Absent)

  /** What `epoll_modify` came to: it ignored a deletion, it registered the new mask, it kept
      an old registration, or it gave up and killed the descriptor. */
  datatype Outcome = Ignored | Registered | Kept | Failed

  /** `epoll_modify` once `emask` and `egen` are set: `reg` is what it wants to register, `mod`
      whether it tries MOD first, `same` whether the cached mask was the new one already. */
  function Negotiate(entry: Entry, reg: Reg, mod: bool, same: bool, f1: Fate, f2: Fate): (Outcome, Entry) {
    var a := Ctl(if mod then MOD else ADD, entry, reg, f1);
    match a.errno
    case NONE => (Registered, a.entry)
    case ENOENT =>
      var b := Ctl(ADD, a.entry, reg, f2);
      (if b.errno == NONE then Registered else Failed, b.entry)
    case EEXIST =>
      if same then (Kept, a.entry)
      else
        var b := Ctl(MOD, a.entry, reg, f2);
        (if b.errno == NONE then Registered else Failed, b.entry)
    case OTHER => (Failed, a.entry)
  }

  /** `++egen` and `--egen`, which wrap around. */
  function Later(gen: Gen): Gen { (gen + 1) % GENERATIONS }

  function Earlier(gen: Gen): Gen { (gen - 1) % GENERATIONS }

  lemma EarlierLater(gen: Gen)
    ensures Earlier(Later(gen)) == gen
  {
  }

  /** `epoll_modify`; `f1` and `f2` are the fates of its first and second system call. */
  function Modify(l: Line, nev: bv8, f1: Fate, f2: Fate): (Outcome, Line) {
    if nev == 0 then (Ignored, l.(events := 0))
    else
      var gen := Later(l.egen);
      var (outcome, entry) := Negotiate(l.entry, Reg(nev, gen), l.events != 0 && l.emask != nev, l.emask == nev, f1, f2);
      (outcome, Line(nev, nev, if outcome == Registered then gen else Earlier(gen), entry))
  }

  /** What `epoll_poll` does with one event of generation `gen`: whether it is delivered,
      whether the kernel state must be recreated, and the line afterwards. */
  datatype Notice = Notice(deliver: bool, recreate: bool, line: Line)

  predicate Unwanted(got: bv8, want: bv8) { got & !want != 0 }

  function Notify(l: Line, gen: Gen, got: bv8, fate: Fate): Notice {
    if l.egen != gen then Notice(false, true, l)
    else if !Unwanted(got, l.events) then Notice(true, false, l)
    else
      var a := Ctl(if l.events != 0 then MOD else DEL, l.entry, Reg(l.events, gen), fate);
      Notice(a.errno == NONE, a.errno != NONE, l.(emask := l.events, entry := a.entry))
  }

  /** Everything that can happen to a descriptor. */
  datatype Step =
    | Changed(nev: bv8, f1: Fate, f2: Fate)    // backend_modify
    | Notified(gen: Gen, got: bv8, fate: Fate) // an event in epoll_poll
    | Closed                                    // by the program, behind libev's back

  function Do(l: Line, s: Step): Line {
    match s
    case Changed(nev, f1, f2) => Modify(l, nev, f1, f2).1
    case Notified(gen, got, fate) => Notify(l, gen, got, fate).line
    case Closed => l.(entry := Absent)
  }

  function Run(steps: seq<Step>): Line {
    if steps == [] then FRESH else Do(Run(steps[..|steps| - 1]), steps[|steps| - 1])
  }

  // ---------- generations ----------

  /** How often the descriptor has been registered. */
  function Registrations(steps: seq<Step>): nat {
    if steps == [] then 0
    else
      var n := |steps| - 1;
      var s := steps[n];
      Registrations(steps[..n]) + if s.Changed? && Modify(Run(steps[..n]), s.nev, s.f1, s.f2).0 == Registered then 1 else 0
  }

  /** Every successful registration starts a new generation, and nothing else does. */
  lemma {:induction false} GenerationCounts(steps: seq<Step>)
    ensures Run(steps).egen == Registrations(steps) % GENERATIONS
  {
    if steps != [] {
      var n := |steps| - 1;
      GenerationCounts(steps[..n]);
      GenerationStep(Run(steps[..n]), steps[n]);
      hide Run, Modify, Do, Later;
    }
  }

  lemma GenerationStep(l: Line, s: Step)
    ensures Do(l, s).egen ==
      if s.Changed? && Modify(l, s.nev, s.f1, s.f2).0 == Registered then (l.egen + 1) % GENERATIONS else l.egen
  {
    EarlierLater(l.egen);
    hide Negotiate, Ctl, Earlier, Unwanted;
  }

  /** An event whose registration was replaced since is dropped, unless exactly a multiple of 2^32
      registrations lie in between. */
  lemma ReplacedIsStale(steps: seq<Step>, k: nat, got: bv8, fate: Fate)
    requires k <= |steps| && (Registrations(steps) - Registrations(steps[..k])) % GENERATIONS != 0
    ensures !Notify(Run(steps), Run(steps[..k]).egen, got, fate).deliver
  {
    hide Run, Registrations, Unwanted, Ctl;
    GenerationCounts(steps);
    GenerationCounts(steps[..k]);
    if Registrations(steps) % GENERATIONS == Registrations(steps[..k]) % GENERATIONS {
      SameGeneration(Registrations(steps), Registrations(steps[..k]));
    }
  }

  lemma SameGeneration(m: nat, n: nat)
    requires m % GENERATIONS == n % GENERATIONS
    ensures (m - n) % GENERATIONS == 0
  {
    var q, r := m / GENERATIONS, n / GENERATIONS;
    assert m - n == GENERATIONS * (q - r);
  }

  /** An event is delivered exactly if it is of the current generation and everything in it is
      wanted, or else the call that corrects the registration succeeds. Then the kernel holds
      what is wanted. */
  lemma DeliveredExactly(l: Line, gen: Gen, got: bv8, fate: Fate)
    requires got & DIRECTIONS == got
    ensures var n := Notify(l, gen, got, fate);
      var spurious := (got & EV_READ != 0 && l.events & EV_READ == 0) || (got & EV_WRITE != 0 && l.events & EV_WRITE == 0);
      && (n.deliver <==> gen == l.egen && (spurious ==> l.entry.Present? && fate == Normal))
      && (gen == l.egen && !spurious ==> n.line == l)
      && (n.deliver && spurious ==>
            n.line == l.(emask := l.events, entry := if l.events == 0 then Absent else Present(Reg(l.events, gen))))
  {
    UnwantedIs(got, l.events);
    hide Unwanted;
  }

  lemma UnwantedIs(got: bv8, want: bv8)
    requires got & DIRECTIONS == got
    ensures Unwanted(got, want) <==> (got & EV_READ != 0 && want & EV_READ == 0) || (got & EV_WRITE != 0 && want & EV_WRITE == 0)
  {
  }

  // ---------- what libev believes about the kernel ----------

  /** A registration that is there is the one libev remembers. */
  predicate Agreed(l: Line) {
    l.entry.Present? ==> l.entry.reg == Reg(l.emask, l.egen)
  }

  /** The kernel reports exactly what the watchers want. */
  predicate Served(l: Line) {
    l.events != 0 ==> l.entry.Present? && l.entry.reg.mask == l.events
  }

  /** The step changes libev's cache, but the kernel call that should follow suit fails and
      leaves an old registration with another mask behind. */
  predicate Breaks(l: Line, s: Step) {
    match s
    case Changed(nev, f1, f2) =>
      && nev != 0 && l.entry.Present? && l.emask != nev
      && (f1 == Fault || (f1 == Normal && l.events == 0 && f2 == Fault))
    case Notified(gen, got, fate) =>
      && gen == l.egen && Unwanted(got, l.events)
      && l.entry.Present? && l.emask != l.events && fate == Fault
    case Closed => false
  }

  /** Nothing unusual happens in this step. */
  predicate Quiet(s: Step) {
    match s
    case Changed(_, f1, f2) => f1 == Normal && f2 == Normal
    case Notified(_, _, fate) => fate == Normal
    case Closed => false
  }

  lemma ChangeAgrees(l: Line, nev: bv8, f1: Fate, f2: Fate)
    requires Agreed(l)
    ensures Agreed(Modify(l, nev, f1, f2).1) <==> !Breaks(l, Changed(nev, f1, f2))
  {
    EarlierLater(l.egen);
    hide Earlier, Later;
    var reg, mod, same := Reg(nev, Later(l.egen)), l.events != 0 && l.emask != nev, l.emask == nev;
    if l.entry == Absent {
    } else {
      NegotiatePresent(l.entry, reg, mod, same, f1, f2);
    }
    hide Negotiate;
  }

  lemma NegotiatePresent(entry: Entry, reg: Reg, mod: bool, same: bool, f1: Fate, f2: Fate)
    requires entry.Present? && !(mod && same)
    ensures var (outcome, entry') := Negotiate(entry, reg, mod, same, f1, f2);
      if f1 == Fault then outcome == Failed && entry' == entry
      else if f1 == Normal && mod then outcome == Registered && entry' == Present(reg)
      else if f1 == Normal && same then outcome == Kept && entry' == entry
      else if f1 == Normal && f2 == Fault then outcome == Failed && entry' == entry
      else (outcome, entry') in {(Registered, Present(reg)), (Failed, Absent)}
  {
  }

  /** Ignored deletions, kept registrations, failures and closed descriptors all leave libev's
      view correct, except exactly the steps that `Breaks` describes. */
  lemma StepAgrees(l: Line, s: Step)
    requires Agreed(l)
    ensures Agreed(Do(l, s)) <==> !Breaks(l, s)
  {
    EarlierLater(l.egen);
    hide Earlier, Later, Unwanted;
    if s.Changed? {
      ChangeAgrees(l, s.nev, s.f1, s.f2);
    }
  }

  /** Whatever was believed before, a successful registration sets things right. */
  lemma RegisteringRepairs(l: Line, nev: bv8, f1: Fate, f2: Fate)
    requires Modify(l, nev, f1, f2).0 == Registered
    ensures nev != 0 && Modify(l, nev, f1, f2).1 == Line(nev, nev, Later(l.egen), Present(Reg(nev, Later(l.egen))))
  {
  }

  /** A change either fails or has its effect. */
  lemma ChangeServes(l: Line, nev: bv8, f1: Fate, f2: Fate)
    requires Agreed(l)
    ensures var (outcome, l') := Modify(l, nev, f1, f2);
      && l'.events == nev
      && (outcome == Ignored <==> nev == 0)
      && (outcome != Failed ==> Agreed(l') && Served(l'))
  {
    EarlierLater(l.egen);
    hide Earlier, Later;
  }

  /** A change whose calls meet with nothing unusual never fails, whatever libev believed. */
  lemma NormalSucceeds(l: Line, nev: bv8)
    ensures Modify(l, nev, Normal, Normal).0 != Failed
  {
    hide Earlier, Later;
  }

  /** Without failures and closings no change fails, and the kernel serves the watchers. */
  lemma StepServes(l: Line, s: Step)
    requires Agreed(l) && Served(l) && Quiet(s)
    ensures Agreed(Do(l, s)) && Served(Do(l, s))
    ensures s.Changed? ==> Modify(l, s.nev, s.f1, s.f2).0 != Failed
  {
    EarlierLater(l.egen);
    hide Earlier, Later;
  }

  lemma RunStep(steps: seq<Step>, k: nat)
    requires k < |steps|
    ensures Run(steps[..k + 1]) == Do(Run(steps[..k]), steps[k])
  {
    assert steps[..k + 1][..k] == steps[..k];
  }

  /** In any run, libev's view is correct all the time exactly when no step breaks it. */
  lemma {:induction false} RunAgrees(steps: seq<Step>)
    ensures (forall k {:trigger steps[..k]} :: 0 <= k <= |steps| ==> Agreed(Run(steps[..k])))
       <==> (forall k {:trigger steps[k]} :: 0 <= k < |steps| ==> !Breaks(Run(steps[..k]), steps[k]))
  {
    hide Agreed, Breaks;
    if forall k {:trigger steps[..k]} :: 0 <= k <= |steps| ==> Agreed(Run(steps[..k])) {
      forall k | 0 <= k < |steps|
        ensures !Breaks(Run(steps[..k]), steps[k])
      {
        RunStep(steps, k);
        assert Agreed(Run(steps[..k])) && Agreed(Run(steps[..k + 1]));
        StepAgrees(Run(steps[..k]), steps[k]);
      }
    }
    if forall k {:trigger steps[k]} :: 0 <= k < |steps| ==> !Breaks(Run(steps[..k]), steps[k]) {
      forall k | 0 <= k <= |steps|
        ensures Agreed(Run(steps[..k]))
      {
        AgreesAt(steps, k);
      }
    }
  }

  lemma {:induction false} AgreesAt(steps: seq<Step>, k: nat)
    requires k <= |steps|
    requires forall j {:trigger steps[j]} :: 0 <= j < |steps| ==> !Breaks(Run(steps[..j]), steps[j])
    ensures Agreed(Run(steps[..k]))
  {
    if k > 0 {
      AgreesAt(steps, k - 1);
      RunStep(steps, k - 1);
      StepAgrees(Run(steps[..k - 1]), steps[k - 1]);
    }
  }

  /** In a run without failures and closings every descriptor with watchers is registered with
      exactly the mask they want. */
  lemma {:induction false} RunServes(steps: seq<Step>)
    requires forall k :: 0 <= k < |steps| ==> Quiet(steps[k])
    ensures Agreed(Run(steps)) && Served(Run(steps))
  {
    if steps != [] {
      RunServes(steps[..|steps| - 1]);
      StepServes(Run(steps[..|steps| - 1]), steps[|steps| - 1]);
    }
  }

  /** An event of another generation changes nothing but asks for a new kernel state; one that
      is delivered is of the current generation, and any part of it that was not wanted has
      led to a registration for what is. */
  lemma StaleIsDropped(l: Line, gen: Gen, got: bv8, fate: Fate)
    ensures var n := Notify(l, gen, got, fate);
      && (gen != l.egen ==> !n.deliver && n.line == l)
      && n.deliver == !n.recreate
      && (n.deliver && Unwanted(got, l.events) ==>
            n.line.entry == if l.events == 0 then Absent else Present(Reg(l.events, gen)))
      && (Agreed(l) && Breaks(l, Notified(gen, got, fate)) ==> n.recreate)
  {
  }

  /** After a broken step libev can believe a registration to be kept that the kernel never
      made: a failed change from reading to both, the deletion that follows when the watchers
      are killed, and a new request for both. Writing is then never reported. */
  lemma FailureIsRemembered()
    ensures var before := Run([Changed(EV_READ, Normal, Normal), Changed(EV_READ | EV_WRITE, Fault, Normal), Changed(0, Normal, Normal)]);
      var (outcome, after) := Modify(before, EV_READ | EV_WRITE, Normal, Normal);
      outcome == Kept && after.events == EV_READ | EV_WRITE && after.entry == Present(Reg(EV_READ, 1))
  {
    var s1, s2, s3 := Changed(EV_READ, Normal, Normal), Changed(EV_READ | EV_WRITE, Fault, Normal), Changed(0, Normal, Normal);
    var steps := [s1, s2, s3];
    assert steps[..2] == [s1, s2] && [s1, s2][..1] == [s1] && [s1][..0] == [];
    assert Run([s1]) == Line(1, 1, 1, Present(Reg(1, 1)));
    assert Run([s1, s2]) == Line(3, 3, 1, Present(Reg(1, 1)));
    assert Run(steps) == Line(0, 3, 1, Present(Reg(1, 1)));
  }
}
