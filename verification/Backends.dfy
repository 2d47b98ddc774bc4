/** Reification: `fd_reify` with the select, poll and epoll backends, and with a backend whose
    `backend_modify` queues further changes. */
module Backends {
  import opened Events
  import opened Watchers
  import opened Queues
  import opened Dispatch
  import opened Interest
  import opened Delivery
  import opened FdTables
  import SelectSets
  import PollSets
  import Epolls

  datatype BackendKind = Select | Poll | Epoll | Other

  /** A change that the backend itself asks for. */
  datatype Request = Request(fd: int, flags: bv8)

  /** What the outside world does during one `backend_modify`: the fates of two system calls,
      or what a backend of kind `Other` requests. */
  datatype Weather = Weather(f1: Epolls.Fate, f2: Epolls.Fate, requests: seq<Request>)

  /** `struct epoll_event`: which of EPOLLIN and EPOLLOUT are set, and whether EPOLLERR or EPOLLHUP
      is. */
  datatype EpollEvent = EpollEvent(fd: int, gen: Gen, input: bool, output: bool, error: bool)

  function Got(e: EpollEvent): bv8 {
    (if e.output || e.error then EV_WRITE else 0) | (if e.input || e.error then EV_READ else 0)
  }

  /** What an event does to the queues: if it is delivered, and its descriptor is not flagged, it
      is fed to exactly the watchers that want it. */
  ghost predicate EventFed(anfds: seq<ANFD>, lists: seq<seq<Watcher>>, masks: map<Watcher, bv8>, dummy: Watcher,
                           e: EpollEvent, deliver: bool, s: Queues, s': Queues) {
    if deliver && 0 <= e.fd < |lists| && !Flagged(anfds, e.fd)
    then FedTo(s', s, dummy, lists[e.fd], masks, Got(e) as bv32, |lists[e.fd]|)
    else s' == s
  }

  /** What the event says, bit by bit. */
  predicate EventHas(e: EpollEvent, bit: bv32) {
    (bit == EV_READ as bv32 && (e.input || e.error)) || (bit == EV_WRITE as bv32 && (e.output || e.error))
  }

  lemma GotHas(e: EpollEvent, bit: bv32)
    requires Single(bit)
    ensures Has(Got(e) as bv32, bit) <==> EventHas(e, bit)
  {
    var r, w := e.input || e.error, e.output || e.error;
    assert Got(e) == if r then if w then 3 else 1 else if w then 2 else 0;
  }

  /** What watcher `x` is owed has gained exactly this bit's share of a delivered event on an
      unflagged descriptor whose list is `list`. */
  ghost predicate Tells(anfds: seq<ANFD>, lists: seq<seq<Watcher>>, masks: map<Watcher, bv8>, e: EpollEvent, deliver: bool,
                        hist: seq<Op>, hist': seq<Op>, x: Watcher, bit: bv32) {
    Has(EventsOf(Owed(hist', x)), bit) <==>
      || Has(EventsOf(Owed(hist, x)), bit)
      || (deliver && 0 <= e.fd < |lists| && !Flagged(anfds, e.fd)
          && x in lists[e.fd] && x in masks && Has(masks[x] as bv32, bit) && EventHas(e, bit))
  }

  lemma FedTells(anfds: seq<ANFD>, lists: seq<seq<Watcher>>, masks: map<Watcher, bv8>, dummy: Watcher,
                 e: EpollEvent, deliver: bool, s: Queues, s': Queues, x: Watcher, bit: bv32)
    requires EventFed(anfds, lists, masks, dummy, e, deliver, s, s') && ListsDistinct(lists) && Single(bit)
    ensures Tells(anfds, lists, masks, e, deliver, s.hist, s'.hist, x, bit)
  {
    hide Single, Has, Owed, FedTo, Flagged, Got, EventHas;
    if deliver && 0 <= e.fd < |lists| && !Flagged(anfds, e.fd) {
      assert NoDup(lists[e.fd]);
      FedToBits(s', s, dummy, lists[e.fd], masks, Got(e) as bv32, x, bit);
      GotHas(e, bit);
    }
  }

  /** The same for all watchers and bits. */
  ghost predicate AllTell(anfds: seq<ANFD>, lists: seq<seq<Watcher>>, masks: map<Watcher, bv8>, e: EpollEvent, deliver: bool,
                          hist: seq<Op>, hist': seq<Op>, all: set<Watcher>) {
    forall x, bit {:trigger Tells(anfds, lists, masks, e, deliver, hist, hist', x, bit)} :: x in all && Single(bit) ==> Tells(anfds, lists, masks, e, deliver, hist, hist', x, bit)
  }

  lemma FedTellsAll(anfds: seq<ANFD>, lists: seq<seq<Watcher>>, masks: map<Watcher, bv8>, dummy: Watcher,
                    e: EpollEvent, deliver: bool, s: Queues, s': Queues, all: set<Watcher>)
    requires EventFed(anfds, lists, masks, dummy, e, deliver, s, s') && ListsDistinct(lists)
    ensures AllTell(anfds, lists, masks, e, deliver, s.hist, s'.hist, all)
  {
    hide EventFed, ListsDistinct, Tells, Single;
    forall x, bit | x in all && Single(bit)
      ensures Tells(anfds, lists, masks, e, deliver, s.hist, s'.hist, x, bit)
    {
      FedTells(anfds, lists, masks, dummy, e, deliver, s, s', x, bit);
    }
  }

  lemma EventsTell(anfds: seq<ANFD>, lists: seq<seq<Watcher>>, masks: map<Watcher, bv8>, dummy: Watcher,
                   steps: map<int, seq<Epolls.Step>>, events: seq<EpollEvent>, fates: seq<Epolls.Fate>,
                   delivered: seq<bool>, states: seq<Queues>, all: set<Watcher>)
    requires EventsUpTo(anfds, lists, masks, dummy, steps, events, fates, delivered, states) && ListsDistinct(lists)
    requires |delivered| == |events|
    ensures forall j :: 0 <= j < |events| ==> EventAt(anfds, lists, masks, dummy, steps, events, fates, delivered, states, j)
    ensures forall j {:trigger events[j]} :: 0 <= j < |events| ==>
      AllTell(anfds, lists, masks, events[j], delivered[j], states[j].hist, states[j + 1].hist, all)
  {
    hide EventFed, NoticeOf, ListsDistinct, AllTell;
    forall j | 0 <= j < |events|
      ensures AllTell(anfds, lists, masks, events[j], delivered[j], states[j].hist, states[j + 1].hist, all)
    {
      assert EventAt(anfds, lists, masks, dummy, steps, events, fates, delivered, states, j);
      FedTellsAll(anfds, lists, masks, dummy, events[j], delivered[j], states[j], states[j + 1], all);
    }
  }

  lemma EventFedSame(anfds: seq<ANFD>, anfds': seq<ANFD>, lists: seq<seq<Watcher>>, masks: map<Watcher, bv8>, dummy: Watcher,
                     e: EpollEvent, deliver: bool, s: Queues, s': Queues)
    requires EventFed(anfds', lists, masks, dummy, e, deliver, s, s') && SameFlags(anfds, anfds')
    ensures EventFed(anfds, lists, masks, dummy, e, deliver, s, s')
  {
    hide FedTo, Got;
    assert Flagged(anfds', e.fd) <==> Flagged(anfds, e.fd);
  }

  /** The steps after the first `n` events. */
  function Notices(steps: map<int, seq<Epolls.Step>>, events: seq<EpollEvent>, fates: seq<Epolls.Fate>, n: nat)
    : map<int, seq<Epolls.Step>>
    requires n <= |events| == |fates|
  {
    if n == 0 then steps
    else
      var before, e := Notices(steps, events, fates, n - 1), events[n - 1];
      before[e.fd := StepsOf(before, e.fd) + [Epolls.Notified(e.gen, Got(e), fates[n - 1])]]
  }

  /** What the specification says about event `j`. */
  function NoticeOf(steps: map<int, seq<Epolls.Step>>, events: seq<EpollEvent>, fates: seq<Epolls.Fate>, j: nat): Epolls.Notice
    requires j < |events| == |fates|
  {
    Epolls.Notify(Epolls.Run(StepsOf(Notices(steps, events, fates, j), events[j].fd)), events[j].gen, Got(events[j]), fates[j])
  }

  /** Event `j` of a poll is delivered if it should be, and then fed to its watchers; `states` are
      the queues between the events. */
  ghost predicate EventAt(anfds: seq<ANFD>, lists: seq<seq<Watcher>>, masks: map<Watcher, bv8>, dummy: Watcher,
                          steps: map<int, seq<Epolls.Step>>, events: seq<EpollEvent>, fates: seq<Epolls.Fate>,
                          delivered: seq<bool>, states: seq<Queues>, j: nat) {
    && j < |delivered| <= |events| == |fates| && |states| == |delivered| + 1
    && EventFed(anfds, lists, masks, dummy, events[j], delivered[j], states[j], states[j + 1])
    && delivered[j] == NoticeOf(steps, events, fates, j).deliver
  }

  ghost predicate EventsUpTo(anfds: seq<ANFD>, lists: seq<seq<Watcher>>, masks: map<Watcher, bv8>, dummy: Watcher,
                             steps: map<int, seq<Epolls.Step>>, events: seq<EpollEvent>, fates: seq<Epolls.Fate>,
                             delivered: seq<bool>, states: seq<Queues>) {
    && |delivered| <= |events| == |fates| && |states| == |delivered| + 1
    && forall j :: 0 <= j < |delivered| ==> EventAt(anfds, lists, masks, dummy, steps, events, fates, delivered, states, j)
  }

  lemma NoEvents(anfds: seq<ANFD>, lists: seq<seq<Watcher>>, masks: map<Watcher, bv8>, dummy: Watcher,
                 steps: map<int, seq<Epolls.Step>>, events: seq<EpollEvent>, fates: seq<Epolls.Fate>, s: Queues)
    requires |fates| == |events|
    ensures EventsUpTo(anfds, lists, masks, dummy, steps, events, fates, [], [s])
  {
  }

  lemma NextEvent(anfds: seq<ANFD>, lists: seq<seq<Watcher>>, masks: map<Watcher, bv8>, dummy: Watcher,
                  steps: map<int, seq<Epolls.Step>>, events: seq<EpollEvent>, fates: seq<Epolls.Fate>,
                  delivered: seq<bool>, states: seq<Queues>, deliver: bool, s: Queues)
    requires EventsUpTo(anfds, lists, masks, dummy, steps, events, fates, delivered, states) && |delivered| < |events|
    requires EventFed(anfds, lists, masks, dummy, events[|delivered|], deliver, states[|delivered|], s)
    requires deliver == NoticeOf(steps, events, fates, |delivered|).deliver
    ensures EventsUpTo(anfds, lists, masks, dummy, steps, events, fates, delivered + [deliver], states + [s])
  {
    hide EventFed, NoticeOf;
    var delivered', states' := delivered + [deliver], states + [s];
    forall j | 0 <= j < |delivered'|
      ensures EventAt(anfds, lists, masks, dummy, steps, events, fates, delivered', states', j)
    {
      if j < |delivered| {
        assert EventAt(anfds, lists, masks, dummy, steps, events, fates, delivered, states, j);
      }
    }
  }

  /** Whatever agreement between libev and the kernel there was is still there. */
  ghost predicate AgreementKept(anfds: seq<ANFD>, kernel: map<int, Epolls.Reg>, anfds': seq<ANFD>, kernel': map<int, Epolls.Reg>) {
    forall fd {:trigger LineOf(anfds', kernel', fd)} ::
      Epolls.Agreed(LineOf(anfds, kernel, fd)) ==> Epolls.Agreed(LineOf(anfds', kernel', fd))
  }

  function EntryOf(kernel: map<int, Epolls.Reg>, fd: int): Epolls.Entry {
    if fd in kernel then Epolls.Present(kernel[fd]) else Epolls.Absent
  }

  function LineOf(anfds: seq<ANFD>, kernel: map<int, Epolls.Reg>, fd: int): Epolls.Line {
    var c := CachedAt(anfds, fd);
    Epolls.Line(c.events, c.emask, c.egen, EntryOf(kernel, fd))
  }

  function StepsOf(steps: map<int, seq<Epolls.Step>>, fd: int): seq<Epolls.Step> {
    if fd in steps then steps[fd] else []
  }

  /** Every descriptor but `but` is where its own steps have brought it. */
  ghost predicate InStep(anfds: seq<ANFD>, kernel: map<int, Epolls.Reg>, steps: map<int, seq<Epolls.Step>>, but: int) {
    forall fd {:trigger StepsOf(steps, fd)} :: 0 <= fd != but ==> LineOf(anfds, kernel, fd) == Epolls.Run(StepsOf(steps, fd))
  }

  /** Nothing unusual has happened to any descriptor. */
  ghost predicate AllQuiet(steps: map<int, seq<Epolls.Step>>) {
    forall fd, k :: 0 <= k < |StepsOf(steps, fd)| ==> Epolls.Quiet(StepsOf(steps, fd)[k])
  }

  /** Then the next change that nothing unusual happens to does not fail either. */
  lemma QuietSucceeds(steps: map<int, seq<Epolls.Step>>, fd: int, nev: bv8)
    requires AllQuiet(steps)
    ensures Epolls.Modify(Epolls.Run(StepsOf(steps, fd)), nev, Epolls.Normal, Epolls.Normal).0 != Epolls.Failed
    ensures AllQuiet(steps[fd := StepsOf(steps, fd) + [Epolls.Changed(nev, Epolls.Normal, Epolls.Normal)]])
  {
    var s := Epolls.Changed(nev, Epolls.Normal, Epolls.Normal);
    Epolls.RunServes(StepsOf(steps, fd));
    Epolls.StepServes(Epolls.Run(StepsOf(steps, fd)), s);
    hide Epolls.Run, Epolls.Modify, Epolls.Agreed, Epolls.Served;
    var steps' := steps[fd := StepsOf(steps, fd) + [s]];
    forall x, k | 0 <= k < |StepsOf(steps', x)|
      ensures Epolls.Quiet(StepsOf(steps', x)[k])
    {
      if x != fd || k < |StepsOf(steps, x)| {
        assert StepsOf(steps', x)[k] == StepsOf(steps, x)[k];
      }
    }
  }

  lemma RunAppend(steps: seq<Epolls.Step>, s: Epolls.Step)
    ensures Epolls.Run(steps + [s]) == Epolls.Do(Epolls.Run(steps), s)
  {
    assert (steps + [s])[..|steps|] == steps;
  }

  /** A step of `fd` that leaves the others alone. */
  lemma InStepNext(anfds: seq<ANFD>, kernel: map<int, Epolls.Reg>, steps: map<int, seq<Epolls.Step>>,
                   anfds': seq<ANFD>, kernel': map<int, Epolls.Reg>, fd: int, s: Epolls.Step, line: Epolls.Line)
    requires InStep(anfds, kernel, steps, fd) && line == Epolls.Run(StepsOf(steps, fd))
    requires 0 <= fd && forall x :: x != fd ==> CachedAt(anfds', x) == CachedAt(anfds, x) && EntryOf(kernel', x) == EntryOf(kernel, x)
    requires LineOf(anfds', kernel', fd) == Epolls.Do(line, s)
    ensures InStep(anfds', kernel', steps[fd := StepsOf(steps, fd) + [s]], -1)
  {
    RunAppend(StepsOf(steps, fd), s);
    hide CachedAt, EntryOf, Epolls.Do, Epolls.Run;
    var steps' := steps[fd := StepsOf(steps, fd) + [s]];
    forall x {:trigger StepsOf(steps', x)} | 0 <= x
      ensures LineOf(anfds', kernel', x) == Epolls.Run(StepsOf(steps', x))
    {
      if x != fd {
        assert StepsOf(steps', x) == StepsOf(steps, x);
      }
    }
  }

  lemma InStepSame(anfds: seq<ANFD>, anfds': seq<ANFD>, kernel: map<int, Epolls.Reg>, steps: map<int, seq<Epolls.Step>>, but: int)
    requires InStep(anfds, kernel, steps, but) && SameCaches(anfds, anfds')
    ensures InStep(anfds', kernel, steps, but)
  {
    forall fd {:trigger StepsOf(steps, fd)} | 0 <= fd != but
      ensures LineOf(anfds', kernel, fd) == Epolls.Run(StepsOf(steps, fd))
    {
      assert CachedAt(anfds', fd) == CachedAt(anfds, fd);
    }
  }

  /** When the backend must be told: the interest has changed, or the descriptor may be a new one
      under an old number. */
  predicate Tell(a: ANFD, events: bv8) { a.events != events || Hits(a.reify, IOFDSET) }

  lemma QuietServes(steps: map<int, seq<Epolls.Step>>, fd: int)
    requires AllQuiet(steps)
    ensures Epolls.Served(Epolls.Run(StepsOf(steps, fd)))
  {
    Epolls.RunServes(StepsOf(steps, fd));
  }

  // ---------- what a backend asks for ----------

  predicate Asks(requests: seq<Request>, x: int) {
    exists k {:trigger requests[k]} :: 0 <= k < |requests| && requests[k].fd == x
  }

  /** Asks for `x` as a new file under an old number. */
  predicate Resets(requests: seq<Request>, x: int) {
    exists k {:trigger requests[k]} :: 0 <= k < |requests| && requests[k].fd == x && Hits(requests[k].flags, IOFDSET)
  }

  /** Flagged is what was flagged, but for `but`, and what is asked for. */
  ghost predicate Requested(a: seq<ANFD>, b: seq<ANFD>, but: int, requests: seq<Request>) {
    && (forall x {:trigger Flagged(b, x)} :: Flagged(b, x) <==> (x != but && Flagged(a, x)) || Asks(requests, x))
    && (forall x {:trigger Fdset(b, x)} :: Fdset(b, x) <==> (x != but && Fdset(a, x)) || Resets(requests, x))
  }

  lemma RequestedNext(a: seq<ANFD>, b: seq<ANFD>, c: seq<ANFD>, requests: seq<Request>, j: nat)
    requires j < |requests| && Requested(a, b, -1, requests[..j]) && FlaggedWith(b, c, requests[j].fd, requests[j].flags)
    ensures Requested(a, c, -1, requests[..j + 1])
  {
    hide Flagged, Fdset, Hits;
    var now, next := requests[..j], requests[..j + 1];
    assert forall k {:trigger next[k]} :: 0 <= k < j ==> next[k] == now[k];
    assert next[j] == requests[j];
    forall x
      ensures Asks(next, x) <==> Asks(now, x) || x == requests[j].fd
      ensures Resets(next, x) <==> Resets(now, x) || (x == requests[j].fd && Hits(requests[j].flags, IOFDSET))
    {
      AsksNext(now, next, requests[j], x);
    }
    hide Asks, Resets;
    forall x {:trigger Flagged(c, x)}
      ensures Flagged(c, x) <==> (x != -1 && Flagged(a, x)) || Asks(next, x)
    {
      assert Flagged(b, x) <==> (x != -1 && Flagged(a, x)) || Asks(now, x);
    }
    forall x {:trigger Fdset(c, x)}
      ensures Fdset(c, x) <==> (x != -1 && Fdset(a, x)) || Resets(next, x)
    {
      assert Fdset(b, x) <==> (x != -1 && Fdset(a, x)) || Resets(now, x);
    }
  }

  lemma AsksNext(now: seq<Request>, next: seq<Request>, r: Request, x: int)
    requires |next| == |now| + 1 && next[|now|] == r && forall k {:trigger next[k]} :: 0 <= k < |now| ==> next[k] == now[k]
    ensures Asks(next, x) <==> Asks(now, x) || x == r.fd
    ensures Resets(next, x) <==> Resets(now, x) || (x == r.fd && Hits(r.flags, IOFDSET))
  {
    hide Hits;
    if Asks(now, x) {
      var k {:trigger now[k]} :| 0 <= k < |now| && now[k].fd == x;
      assert next[k].fd == x;
    }
    if Resets(now, x) {
      var k {:trigger now[k]} :| 0 <= k < |now| && now[k].fd == x && Hits(now[k].flags, IOFDSET);
      assert next[k].fd == x;
    }
  }

  /** In round `j` the backend asked for `x`, and no later one of the first `i` rounds took it. */
  ghost predicate Stays(weathers: seq<Weather>, changes: seq<int>, told: seq<bool>, i: nat, j: nat, x: int)
    requires j < i <= |told| && i <= |weathers| && i <= |changes|
  {
    told[j] && Asks(weathers[j].requests, x) && x !in changes[j + 1..i]
  }

  /** What is flagged after `i` rounds: the changes that are not taken yet, and what stays of the
      requests. */
  ghost predicate LeftAfter(anfds: seq<ANFD>, weathers: seq<Weather>, changes: seq<int>, i: nat, told: seq<bool>) {
    && i <= |weathers| && i <= |changes| && i == |told|
    && forall x {:trigger Flagged(anfds, x)} ::
         Flagged(anfds, x) <==> x in changes[i..] || SomeStays(weathers, changes, told, i, x)
  }

  ghost predicate SomeStays(weathers: seq<Weather>, changes: seq<int>, told: seq<bool>, i: nat, x: int)
    requires i <= |told| && i <= |weathers| && i <= |changes|
  {
    exists j {:trigger Stays(weathers, changes, told, i, j, x)} :: 0 <= j < i && Stays(weathers, changes, told, i, j, x)
  }

  lemma LeftNext(a: seq<ANFD>, b: seq<ANFD>, weathers: seq<Weather>, changes: seq<int>, i: nat, told: seq<bool>, tell: bool)
    requires LeftAfter(a, weathers, changes, i, told) && i < |weathers| && i < |changes|
    requires forall j, k :: 0 <= j < k < |changes| ==> changes[j] != changes[k]
    requires Requested(a, b, changes[i], if tell then weathers[i].requests else [])
    ensures LeftAfter(b, weathers, changes, i + 1, told + [tell])
  {
    hide Flagged, Fdset, Resets, Asks, Stays;
    var told' := told + [tell];
    forall x {:trigger Flagged(b, x)}
      ensures Flagged(b, x) <==> x in changes[i + 1..] || SomeStays(weathers, changes, told', i + 1, x)
    {
      assert Flagged(a, x) || !Flagged(a, x);
      LeftFor(weathers, changes, i, told, tell, x);
      assert tell || !Asks([], x) by { NobodyAsks(x); }
    }
  }

  lemma NobodyAsks(x: int)
    ensures !Asks([], x) && !Resets([], x)
  {
  }

  lemma LeftFor(weathers: seq<Weather>, changes: seq<int>, i: nat, told: seq<bool>, tell: bool, x: int)
    requires i < |weathers| && i < |changes| && i == |told|
    requires forall j, k :: 0 <= j < k < |changes| ==> changes[j] != changes[k]
    ensures x in changes[i..] <==> x == changes[i] || x in changes[i + 1..]
    ensures x == changes[i] ==> x !in changes[i + 1..]
    ensures Stays(weathers, changes, told + [tell], i + 1, i, x) <==> tell && Asks(weathers[i].requests, x)
    ensures forall j {:trigger Stays(weathers, changes, told, i, j, x)} {:trigger Stays(weathers, changes, told + [tell], i + 1, j, x)} ::
      0 <= j < i ==> (Stays(weathers, changes, told + [tell], i + 1, j, x) <==> Stays(weathers, changes, told, i, j, x) && x != changes[i])
  {
    hide Asks;
    assert changes[i..] == [changes[i]] + changes[i + 1..];
    assert changes[i + 1..i + 1] == [];
    forall j {:trigger Stays(weathers, changes, told, i, j, x)} | 0 <= j < i
      ensures Stays(weathers, changes, told + [tell], i + 1, j, x) <==> Stays(weathers, changes, told, i, j, x) && x != changes[i]
    {
      assert changes[j + 1..i + 1] == changes[j + 1..i] + [changes[i]];
    }
  }

  // ---------- what fd_reify will find ----------

  /** What is cached for a descriptor, what its watchers ask for, and whether it may be a new
      file. */
  datatype Outlook = Outlook(cached: Cached, wanted: bv8, fdset: bool)

  function OutlookAt(t: Tables, fd: int): Outlook {
    Outlook(CachedAt(t.anfds, fd), OrIn(t.lists, t.masks, fd), Fdset(t.anfds, fd))
  }

  predicate TellAt(t: Tables, fd: int) {
    var o := OutlookAt(t, fd);
    o.cached.events != o.wanted || o.fdset
  }

  /** Only the outlook of `fd` differs, and what the backend asked for. */
  ghost predicate OutlooksAfter(t: Tables, t': Tables, fd: int, requests: seq<Request>) {
    forall x {:trigger OutlookAt(t', x)} :: x != fd ==>
      OutlookAt(t', x) == OutlookAt(t, x).(fdset := OutlookAt(t, x).fdset || Resets(requests, x))
  }

  lemma RequestedThen(a: seq<ANFD>, b: seq<ANFD>, c: seq<ANFD>, fd: int, requests: seq<Request>)
    requires Requested(a, b, fd, []) && Requested(b, c, -1, requests)
    ensures Requested(a, c, fd, requests)
  {
    hide Flagged, Fdset, Asks, Resets;
    forall x
      ensures !Asks([], x) && !Resets([], x)
    {
      NobodyAsks(x);
    }
    assert !Flagged(b, -1) && !Fdset(b, -1) by { NotThere(b); }
    forall x {:trigger Flagged(c, x)}
      ensures Flagged(c, x) <==> (x != fd && Flagged(a, x)) || Asks(requests, x)
    {
      assert Flagged(b, x) <==> (x != fd && Flagged(a, x)) || Asks([], x);
    }
    forall x {:trigger Fdset(c, x)}
      ensures Fdset(c, x) <==> (x != fd && Fdset(a, x)) || Resets(requests, x)
    {
      assert Fdset(b, x) <==> (x != fd && Fdset(a, x)) || Resets([], x);
    }
  }

  lemma NotThere(a: seq<ANFD>)
    ensures !Flagged(a, -1) && !Fdset(a, -1)
  {
  }

  lemma OutlooksThen(t: Tables, t1: Tables, t2: Tables, fd: int, requests: seq<Request>)
    requires OutlooksAfter(t, t1, fd, []) && OutlooksAfter(t1, t2, fd, requests)
    ensures OutlooksAfter(t, t2, fd, requests)
  {
    hide OutlookAt, Resets;
    forall x {:trigger OutlookAt(t2, x)} | x != fd
      ensures OutlookAt(t2, x) == OutlookAt(t, x).(fdset := OutlookAt(t, x).fdset || Resets(requests, x))
    {
      NobodyAsks(x);
      assert OutlookAt(t1, x) == OutlookAt(t, x).(fdset := OutlookAt(t, x).fdset || Resets([], x));
    }
  }

  /** A round without requests. */
  lemma OutlooksQuiet(t: Tables, t': Tables, fd: int)
    requires OthersCached(t.anfds, t'.anfds, fd) && SameFdsets(t.anfds, t'.anfds, fd) && OthersSame(t.lists, t'.lists, fd)
    requires Masked(t.lists, t.masks) && Masked(t'.lists, t'.masks) && MasksLeft(t.masks, t'.masks)
    ensures OutlooksAfter(t, t', fd, [])
  {
    hide Masked, MasksLeft, OthersSame, OrIn, Fdset, CachedAt, Resets;
    forall x {:trigger OutlookAt(t', x)} | x != fd
      ensures OutlookAt(t', x) == OutlookAt(t, x).(fdset := OutlookAt(t, x).fdset || Resets([], x))
    {
      NobodyAsks(x);
      OrInKept(t.lists, t.masks, t'.lists, t'.masks, fd, x);
    }
  }

  /** Taking a change. */
  lemma OutlooksTaken(t: Tables, fd: int, events: bv8)
    requires 0 <= fd < |t.anfds|
    ensures var t' := t.(anfds := t.anfds[fd := t.anfds[fd].(reify := 0, events := events)]);
      OutlooksAfter(t, t', fd, []) && Requested(t.anfds, t'.anfds, fd, [])
  {
    hide OrIn;
    assert !Hits(0, IOFDSET);
  }

  /** A round of requests. */
  lemma OutlooksAsked(t: Tables, t': Tables, fd: int, requests: seq<Request>)
    requires SameCaches(t.anfds, t'.anfds) && Requested(t.anfds, t'.anfds, -1, requests) && t'.lists == t.lists && t'.masks == t.masks
    ensures OutlooksAfter(t, t', fd, requests)
  {
    hide OrIn, Flagged, CachedAt, Resets, Asks;
    forall x {:trigger OutlookAt(t', x)} | x != fd
      ensures OutlookAt(t', x) == OutlookAt(t, x).(fdset := OutlookAt(t, x).fdset || Resets(requests, x))
    {
      assert Fdset(t.anfds, -1) == false;
      hide Fdset;
      assert CachedAt(t'.anfds, x) == CachedAt(t.anfds, x);
    }
  }

  /** In one of the first `i` rounds the backend asked for `x` as a new file. */
  ghost predicate ResetBefore(weathers: seq<Weather>, told: seq<bool>, i: nat, x: int)
    requires i <= |told| && i <= |weathers|
  {
    exists j {:trigger told[j]} :: 0 <= j < i && told[j] && Resets(weathers[j].requests, x)
  }

  lemma ResetNext(weathers: seq<Weather>, told: seq<bool>, tell: bool, i: nat, x: int)
    requires i <= |told| && i < |weathers|
    ensures ResetBefore(weathers, told + [tell], i, x) <==> ResetBefore(weathers, told, i, x)
    ensures i == |told| ==>
      (ResetBefore(weathers, told + [tell], i + 1, x) <==> ResetBefore(weathers, told, i, x) || (tell && Resets(weathers[i].requests, x)))
  {
    hide Resets;
    var told' := told + [tell];
    assert forall j {:trigger told[j]} {:trigger told'[j]} :: 0 <= j < |told| ==> told'[j] == told[j];
    if i == |told| && tell && Resets(weathers[i].requests, x) {
      assert told'[i];
    }
  }

  /** A change that is not taken has the outlook of the start, but for what the backend asked
      for meanwhile. */
  ghost predicate Waiting(t0: Tables, t: Tables, weathers: seq<Weather>, told: seq<bool>, kind: BackendKind, x: int)
    requires |told| <= |weathers|
  {
    var o := OutlookAt(t0, x);
    OutlookAt(t, x) == o.(fdset := o.fdset || (kind == Other && ResetBefore(weathers, told, |told|, x)))
  }

  /** The backend was told of change `j` if and only if it needed to be, and what the watchers
      asked for is cached. */
  ghost predicate Handled(t0: Tables, t: Tables, weathers: seq<Weather>, told: seq<bool>, kind: BackendKind, j: nat)
    requires j < |told| <= |weathers| && j < |t0.changes|
  {
    && (told[j] <==>
          TellAt(t0, t0.changes[j]) || (kind == Other && ResetBefore(weathers, told, j, t0.changes[j])))
    && OutlookAt(t, t0.changes[j]).cached.events == OutlookAt(t0, t0.changes[j]).wanted
  }

  /** The rounds of `fd_reify` so far. */
  ghost predicate Rounds(t0: Tables, t: Tables, weathers: seq<Weather>, told: seq<bool>, kind: BackendKind) {
    && |told| <= |t0.changes| && |told| <= |weathers|
    && (forall x {:trigger OutlookAt(t, x)} ::
          x !in t0.changes[..|told|] ==> Waiting(t0, t, weathers, told, kind, x))
    && (forall j :: 0 <= j < |told| ==> Handled(t0, t, weathers, told, kind, j))
  }

  lemma NoRounds(t: Tables, weathers: seq<Weather>, kind: BackendKind)
    ensures Rounds(t, t, weathers, [], kind)
  {
    hide OutlookAt;
    forall x
      ensures Waiting(t, t, weathers, [], kind, x)
    {
      assert !ResetBefore(weathers, [], 0, x);
      var o := OutlookAt(t, x);
      assert o == o.(fdset := o.fdset);
    }
  }

  lemma WaitsStill(t0: Tables, t: Tables, weathers: seq<Weather>, told: seq<bool>, kind: BackendKind, x: int)
    requires Rounds(t0, t, weathers, told, kind) && x !in t0.changes[..|told|]
    ensures Waiting(t0, t, weathers, told, kind, x)
  {
    hide OutlookAt, Waiting, Handled;
    var o := OutlookAt(t, x);
    assert o == OutlookAt(t, x);
  }

  lemma NextRound(t0: Tables, t: Tables, t': Tables, weathers: seq<Weather>, told: seq<bool>, kind: BackendKind, tell: bool)
    requires Rounds(t0, t, weathers, told, kind) && |told| < |t0.changes| && |told| < |weathers|
    requires forall j, k :: 0 <= j < k < |t0.changes| ==> t0.changes[j] != t0.changes[k]
    requires var i := |told|;
      && (tell <==> TellAt(t, t0.changes[i]))
      && OutlookAt(t', t0.changes[i]).cached.events == OutlookAt(t, t0.changes[i]).wanted
      && OutlooksAfter(t, t', t0.changes[i], if kind == Other && tell then weathers[i].requests else [])
    ensures Rounds(t0, t', weathers, told + [tell], kind)
  {
    var i, fd, told' := |told|, t0.changes[|told|], told + [tell];
    hide OutlookAt, TellAt, Waiting, Handled, OutlooksAfter;
    assert t0.changes[..|told'|] == t0.changes[..i] + [fd];
    WaitsStill(t0, t, weathers, told, kind, fd);
    forall x | x !in t0.changes[..|told'|]
      ensures Waiting(t0, t', weathers, told', kind, x)
    {
      WaitsStill(t0, t, weathers, told, kind, x);
      WaitsOn(t0, t, t', weathers, told, kind, tell, x);
    }
    forall j | 0 <= j < |told'|
      ensures Handled(t0, t', weathers, told', kind, j)
    {
      if j < i {
        assert told[j] == told'[j];
        StaysHandled(t0, t, t', weathers, told, kind, tell, j);
      } else {
        NowHandled(t0, t, t', weathers, told, kind, tell);
      }
    }
  }

  lemma OutlookNow(t: Tables, t': Tables, fd: int, requests: seq<Request>, x: int)
    requires OutlooksAfter(t, t', fd, requests) && x != fd
    ensures OutlookAt(t', x) == OutlookAt(t, x).(fdset := OutlookAt(t, x).fdset || Resets(requests, x))
  {
    hide OutlookAt, Resets;
    var o := OutlookAt(t', x);
    assert o == OutlookAt(t, x).(fdset := OutlookAt(t, x).fdset || Resets(requests, x));
  }

  lemma WaitsOn(t0: Tables, t: Tables, t': Tables, weathers: seq<Weather>, told: seq<bool>, kind: BackendKind, tell: bool, x: int)
    requires |told| < |weathers| && |told| < |t0.changes| && x != t0.changes[|told|] && Waiting(t0, t, weathers, told, kind, x)
    requires OutlooksAfter(t, t', t0.changes[|told|], if kind == Other && tell then weathers[|told|].requests else [])
    ensures Waiting(t0, t', weathers, told + [tell], kind, x)
  {
    hide OutlookAt, Resets, ResetBefore, OutlooksAfter;
    ResetNext(weathers, told, tell, |told|, x);
    NobodyAsks(x);
    assert |told + [tell]| == |told| + 1;
    OutlookNow(t, t', t0.changes[|told|], if kind == Other && tell then weathers[|told|].requests else [], x);
  }

  lemma StaysHandled(t0: Tables, t: Tables, t': Tables, weathers: seq<Weather>, told: seq<bool>, kind: BackendKind, tell: bool, j: nat)
    requires j < |told| < |weathers| && |told| < |t0.changes| && Handled(t0, t, weathers, told, kind, j)
    requires t0.changes[j] != t0.changes[|told|]
    requires OutlooksAfter(t, t', t0.changes[|told|], if kind == Other && tell then weathers[|told|].requests else [])
    ensures Handled(t0, t', weathers, told + [tell], kind, j)
  {
    hide OutlookAt, Resets, ResetBefore, OutlooksAfter, TellAt;
    ResetNext(weathers, told, tell, j, t0.changes[j]);
    assert (told + [tell])[j] == told[j];
    OutlookNow(t, t', t0.changes[|told|], if kind == Other && tell then weathers[|told|].requests else [], t0.changes[j]);
  }

  lemma NowHandled(t0: Tables, t: Tables, t': Tables, weathers: seq<Weather>, told: seq<bool>, kind: BackendKind, tell: bool)
    requires |told| < |weathers| && |told| < |t0.changes| && Waiting(t0, t, weathers, told, kind, t0.changes[|told|])
    requires tell <==> TellAt(t, t0.changes[|told|])
    requires OutlookAt(t', t0.changes[|told|]).cached.events == OutlookAt(t, t0.changes[|told|]).wanted
    ensures Handled(t0, t', weathers, told + [tell], kind, |told|)
  {
    hide OutlookAt, Resets, ResetBefore;
    ResetNext(weathers, told, tell, |told|, t0.changes[|told|]);
  }

  /** The steps of the epoll backend after the first `n` changes. */
  function StepsAfter(steps: map<int, seq<Epolls.Step>>, t: Tables, weathers: seq<Weather>, n: nat): map<int, seq<Epolls.Step>>
    requires n <= |t.changes| && n <= |weathers|
  {
    if n == 0 then steps
    else
      var before, fd, w := StepsAfter(steps, t, weathers, n - 1), t.changes[n - 1], weathers[n - 1];
      if TellAt(t, fd) then before[fd := StepsOf(before, fd) + [Epolls.Changed(OutlookAt(t, fd).wanted, w.f1, w.f2)]] else before
  }

  lemma FreshIsTold(t0: Tables, t: Tables, weathers: seq<Weather>, told: seq<bool>, kind: BackendKind, j: nat)
    requires j < |told| <= |weathers| && j < |t0.changes| && Handled(t0, t, weathers, told, kind, j)
    ensures Fdset(t0.anfds, t0.changes[j]) ==> told[j]
  {
  }

  /** One round of `fd_reify`, which takes `fd`. */
  ghost predicate Round(kind: BackendKind, t: Tables, t': Tables, fd: int, weather: Weather, tell: bool,
                        steps: map<int, seq<Epolls.Step>>, steps': map<int, seq<Epolls.Step>>) {
    && OthersCached(t.anfds, t'.anfds, fd) && OutlookAt(t', fd).cached.events == OutlookAt(t, fd).wanted
    && (tell <==> TellAt(t, fd))
    && OutlooksAfter(t, t', fd, if kind == Other && tell then weather.requests else [])
    && (kind == Other ==> Requested(t.anfds, t'.anfds, fd, if tell then weather.requests else []))
    && (kind == Epoll && tell ==>
          steps' == steps[fd := StepsOf(steps, fd) + [Epolls.Changed(OutlookAt(t, fd).wanted, weather.f1, weather.f2)]])
    && (kind == Epoll && !tell ==> steps' == steps)
  }

  /** All rounds so far. */
  ghost predicate Progress(kind: BackendKind, t0: Tables, t: Tables, weathers: seq<Weather>, told: seq<bool>,
                           steps0: map<int, seq<Epolls.Step>>, steps: map<int, seq<Epolls.Step>>) {
    && |told| <= |weathers| && |told| <= |t0.changes| && (forall j, k :: 0 <= j < k < |t0.changes| ==> t0.changes[j] != t0.changes[k])
    && CachedBut(t0.anfds, t.anfds, t0.changes[..|told|])
    && Rounds(t0, t, weathers, told, kind)
    && (kind == Other ==> LeftAfter(t.anfds, weathers, t0.changes, |told|, told))
    && (kind == Epoll ==> steps == StepsAfter(steps0, t0, weathers, |told|))
  }

  lemma ProgressStarts(kind: BackendKind, t: Tables, weathers: seq<Weather>, steps: map<int, seq<Epolls.Step>>)
    requires forall x {:trigger Flagged(t.anfds, x)} :: Flagged(t.anfds, x) <==> x in t.changes[0..]
    requires forall j, k :: 0 <= j < k < |t.changes| ==> t.changes[j] != t.changes[k]
    ensures Progress(kind, t, t, weathers, [], steps, steps)
  {
    hide OutlookAt, CachedAt;
    NoRounds(t, weathers, kind);
  }

  lemma ProgressNext(kind: BackendKind, t0: Tables, t: Tables, t': Tables, weathers: seq<Weather>, told: seq<bool>, tell: bool,
                     steps0: map<int, seq<Epolls.Step>>, steps: map<int, seq<Epolls.Step>>, steps': map<int, seq<Epolls.Step>>)
    requires Progress(kind, t0, t, weathers, told, steps0, steps) && |told| < |t0.changes| && |told| < |weathers|
    requires Round(kind, t, t', t0.changes[|told|], weathers[|told|], tell, steps, steps')
    ensures Progress(kind, t0, t', weathers, told + [tell], steps0, steps')
  {
    var i, fd := |told|, t0.changes[|told|];
    assert t0.changes[..i + 1] == t0.changes[..i] + [fd];
    StepsNext(kind, t0, t, weathers, told, steps0);
    hide OutlookAt, TellAt, OutlooksAfter, Requested, OthersCached, CachedBut, Rounds, LeftAfter, StepsOf;
    CachedButNext(t0.anfds, t.anfds, t'.anfds, t0.changes[..i], fd);
    NextRound(t0, t, t', weathers, told, kind, tell);
    if kind == Other {
      LeftNext(t.anfds, t'.anfds, weathers, t0.changes, i, told, tell);
    }
  }

  /** If nothing is asked for, a change is found as it was at the start. */
  lemma StepsNext(kind: BackendKind, t0: Tables, t: Tables, weathers: seq<Weather>, told: seq<bool>, steps0: map<int, seq<Epolls.Step>>)
    requires Rounds(t0, t, weathers, told, kind) && |told| < |t0.changes| && |told| < |weathers|
    requires forall j, k :: 0 <= j < k < |t0.changes| ==> t0.changes[j] != t0.changes[k]
    ensures kind != Other ==> OutlookAt(t, t0.changes[|told|]) == OutlookAt(t0, t0.changes[|told|])
  {
    hide OutlookAt;
    WaitsStill(t0, t, weathers, told, kind, t0.changes[|told|]);
    var o := OutlookAt(t0, t0.changes[|told|]);
    assert o == o.(fdset := o.fdset);
  }

  /** All rounds, when what is left has moved to the front. */
  lemma ProgressEnds(kind: BackendKind, t0: Tables, t: Tables, t': Tables, weathers: seq<Weather>, told: seq<bool>,
                     steps0: map<int, seq<Epolls.Step>>, steps: map<int, seq<Epolls.Step>>)
    requires Progress(kind, t0, t, weathers, told, steps0, steps) && |told| == |t0.changes| == |weathers|
    requires t' == t.(changes := t'.changes)
    requires forall x {:trigger Flagged(t'.anfds, x)} :: Flagged(t'.anfds, x) <==> x in t'.changes[0..]
    ensures forall fd {:trigger CachedAt(t'.anfds, fd)} :: fd !in t0.changes ==> CachedAt(t'.anfds, fd) == CachedAt(t0.anfds, fd)
    ensures forall j :: 0 <= j < |told| ==> Handled(t0, t', weathers, told, kind, j)
    ensures kind == Other ==>
      forall x {:trigger x in t'.changes} :: x in t'.changes <==> SomeStays(weathers, t0.changes, told, |told|, x)
    ensures kind == Epoll ==> steps == StepsAfter(steps0, t0, weathers, |told|)
  {
    hide OutlookAt, CachedAt, ResetBefore, Flagged, SomeStays, StepsAfter, TellAt, Waiting, LeftAfter;
    assert t0.changes[..|told|] == t0.changes;
    AllHandled(t0, t, t', weathers, told, kind);
    if kind == Other {
      LeftEnds(t.anfds, weathers, t0.changes, told, t'.changes);
    }
  }

  lemma AllHandled(t0: Tables, t: Tables, t': Tables, weathers: seq<Weather>, told: seq<bool>, kind: BackendKind)
    requires Rounds(t0, t, weathers, told, kind) && t' == t.(changes := t'.changes)
    ensures forall j :: 0 <= j < |told| ==> Handled(t0, t', weathers, told, kind, j)
  {
    hide OutlookAt, ResetBefore, TellAt, Waiting;
    forall j | 0 <= j < |told|
      ensures Handled(t0, t', weathers, told, kind, j)
    {
      assert Handled(t0, t, weathers, told, kind, j);
      SameOutlook(t, t', t0.changes[j]);
    }
  }

  lemma LeftEnds(anfds: seq<ANFD>, weathers: seq<Weather>, changes: seq<int>, told: seq<bool>, changes': seq<int>)
    requires LeftAfter(anfds, weathers, changes, |told|, told) && |told| == |changes|
    requires forall x {:trigger Flagged(anfds, x)} :: Flagged(anfds, x) <==> x in changes'[0..]
    ensures forall x {:trigger x in changes'} :: x in changes' <==> SomeStays(weathers, changes, told, |told|, x)
  {
    hide Flagged, SomeStays;
    assert changes'[0..] == changes' && changes[|told|..] == [];
    forall x
      ensures x in changes' <==> SomeStays(weathers, changes, told, |told|, x)
    {
      assert Flagged(anfds, x) <==> x in changes';
    }
  }

  lemma SameOutlook(t: Tables, t': Tables, x: int)
    requires t' == t.(changes := t'.changes)
    ensures OutlookAt(t', x) == OutlookAt(t, x)
  {
  }

  /** A change comes through as one step of its descriptor. */
  lemma {:induction false} StepOfChange(steps: map<int, seq<Epolls.Step>>, t: Tables, weathers: seq<Weather>, n: nat, x: int)
    requires n <= |t.changes| && n <= |weathers| && forall j, k :: 0 <= j < k < |t.changes| ==> t.changes[j] != t.changes[k]
    ensures x !in t.changes[..n] ==> StepsOf(StepsAfter(steps, t, weathers, n), x) == StepsOf(steps, x)
    ensures forall j :: 0 <= j < n && t.changes[j] == x && TellAt(t, x) ==>
      StepsOf(StepsAfter(steps, t, weathers, n), x) ==
        StepsOf(steps, x) + [Epolls.Changed(OutlookAt(t, x).wanted, weathers[j].f1, weathers[j].f2)]
  {
    hide TellAt, OutlookAt;
    if n > 0 {
      StepOfChange(steps, t, weathers, n - 1, x);
      assert t.changes[..n] == t.changes[..n - 1] + [t.changes[n - 1]];
    }
  }

  /** If the backend is told of a change, undisturbed, then whatever the kernel held of the
      descriptor before, as long as libev was right about it, it now holds what is wanted. */
  lemma ChangeReaches(steps: map<int, seq<Epolls.Step>>, t: Tables, weathers: seq<Weather>, j: nat)
    requires |weathers| == |t.changes| && j < |t.changes| && Fdset(t.anfds, t.changes[j])
    requires forall i, k :: 0 <= i < k < |t.changes| ==> t.changes[i] != t.changes[k]
    requires weathers[j].f1 == weathers[j].f2 == Epolls.Normal && Epolls.Agreed(Epolls.Run(StepsOf(steps, t.changes[j])))
    ensures Epolls.Served(Epolls.Run(StepsOf(StepsAfter(steps, t, weathers, |t.changes|), t.changes[j])))
  {
    var x := t.changes[j];
    StepOfChange(steps, t, weathers, |t.changes|, x);
    var s := Epolls.Changed(OutlookAt(t, x).wanted, Epolls.Normal, Epolls.Normal);
    RunAppend(StepsOf(steps, x), s);
    var l := Epolls.Run(StepsOf(steps, x));
    Epolls.ChangeServes(l, s.nev, Epolls.Normal, Epolls.Normal);
    Epolls.NormalSucceeds(l, s.nev);
    hide Epolls.Run, Epolls.Modify, Epolls.Served, Epolls.Agreed, StepsAfter, OutlookAt;
  }

  /** Only what is cached for descriptors of `fds` differs. */
  ghost predicate CachedBut(a: seq<ANFD>, b: seq<ANFD>, fds: seq<int>) {
    forall x {:trigger CachedAt(b, x)} :: x !in fds ==> CachedAt(b, x) == CachedAt(a, x)
  }

  lemma CachedButNext(a: seq<ANFD>, b: seq<ANFD>, c: seq<ANFD>, fds: seq<int>, fd: int)
    requires CachedBut(a, b, fds) && OthersCached(b, c, fd)
    ensures CachedBut(a, c, fds + [fd])
  {
    hide CachedAt;
    forall x {:trigger CachedAt(c, x)} | x !in fds + [fd]
      ensures CachedAt(c, x) == CachedAt(a, x)
    {
      assert (fds + [fd])[|fds|] == fd;
      assert x !in fds && x != fd;
      assert CachedAt(b, x) == CachedAt(a, x);
    }
  }

  class Backend {
    const table: FdTable
    const kind: BackendKind
    const selectset: SelectSets.SelectSet
    const pollset: PollSets.PollSet
    var kernel: map<int, Epolls.Reg> // what epoll knows
    var postfork: bool               // the kernel state must be recreated
    ghost var steps: map<int, seq<Epolls.Step>>

    /** The backend knows the cached events of every descriptor but `but`. */
    ghost predicate Mirrored(but: int)
      reads this`kernel, this`steps, table`anfds, selectset, pollset
    {
      match kind
      case Select =>
        selectset.Valid() &&
        forall fd {:trigger selectset.Mask(fd)} :: 0 <= fd != but ==> selectset.Mask(fd) == CachedAt(table.anfds, fd).events
      case Poll =>
        pollset.Valid() &&
        forall fd {:trigger pollset.Mask(fd)} :: 0 <= fd != but ==> pollset.Mask(fd) == CachedAt(table.anfds, fd).events
      case Epoll => InStep(table.anfds, kernel, steps, but)
      case Other => true
    }

    /** And what it knows of `fd` is `oev`. */
    ghost predicate Knows(fd: int, oev: bv8)
      reads this`kernel, this`steps, table`anfds, selectset, pollset
    {
      match kind
      case Select => selectset.Mask(fd) == oev
      case Poll => pollset.Mask(fd) == oev
      case Epoll => LineOf(table.anfds, kernel, fd).(events := oev) == Epolls.Run(StepsOf(steps, fd))
      case Other => true
    }

    constructor (table: FdTable, kind: BackendKind)
      requires table.anfds == []
      ensures Mirrored(-1) && this.table == table && this.kind == kind && kernel == map[] && !postfork
      ensures fresh(selectset) && fresh(pollset)
    {
      this.table, this.kind := table, kind;
      selectset := new SelectSets.SelectSet();
      pollset := new PollSets.PollSet();
      kernel, postfork, steps := map[], false, map[];
    }

    twostate lemma MirroredKept(but: int)
      requires old(Mirrored(but)) && unchanged(selectset, pollset, this`kernel, this`steps)
      requires SameCaches(old(table.anfds), table.anfds)
      ensures Mirrored(but)
    {
      if kind == Epoll {
        InStepSame(old(table.anfds), table.anfds, kernel, steps, but);
      } else {
        forall fd
          ensures CachedAt(table.anfds, fd) == CachedAt(old(table.anfds), fd)
        {
        }
      }
    }

    // ---------- epoll ----------

    /** `epoll_ctl` */
    method EpollCtl(op: Epolls.Op, fd: int, reg: Epolls.Reg, fate: Epolls.Fate) returns (errno: Epolls.Errno)
      modifies this`kernel
      ensures Epolls.Answer(errno, EntryOf(kernel, fd)) == Epolls.Ctl(op, EntryOf(old(kernel), fd), reg, fate)
      ensures forall x :: x != fd ==> EntryOf(kernel, x) == EntryOf(old(kernel), x)
    {
      if fate == Epolls.Vanish {
        kernel := kernel - {fd};
      }
      if fate == Epolls.Fault {
        errno := Epolls.OTHER;
      } else if op == Epolls.ADD && fd in kernel {
        errno := Epolls.EEXIST;
      } else if op != Epolls.ADD && fd !in kernel {
        errno := Epolls.ENOENT;
      } else {
        errno := Epolls.NONE;
        kernel := if op == Epolls.DEL then kernel - {fd} else kernel[fd := reg];
      }
    }

    /** The system calls of `epoll_modify`. */
    method EpollTry(fd: int, reg: Epolls.Reg, oldmask: bv8, oev: bv8, f1: Epolls.Fate, f2: Epolls.Fate)
      returns (outcome: Epolls.Outcome)
      modifies this`kernel
      ensures (outcome, EntryOf(kernel, fd)) ==
        Epolls.Negotiate(EntryOf(old(kernel), fd), reg, oev != 0 && oldmask != reg.mask, oldmask == reg.mask, f1, f2)
      ensures forall x :: x != fd ==> EntryOf(kernel, x) == EntryOf(old(kernel), x)
    {
      hide EntryOf;
      var errno := EpollCtl(if oev != 0 && oldmask != reg.mask then Epolls.MOD else Epolls.ADD, fd, reg, f1);
      if errno == Epolls.NONE {
        return Epolls.Registered;
      }
      outcome := Epolls.Failed;
      if errno == Epolls.ENOENT {
        errno := EpollCtl(Epolls.ADD, fd, reg, f2);
        if errno == Epolls.NONE {
          return Epolls.Registered;
        }
      } else if errno == Epolls.EEXIST {
        if oldmask == reg.mask {
          return Epolls.Kept;
        }
        errno := EpollCtl(Epolls.MOD, fd, reg, f2);
        if errno == Epolls.NONE {
          return Epolls.Registered;
        }
      }
    }

    /** `epoll_modify`. If it fails, `fd_kill` has emptied the list of the descriptor. */
    method EpollModify(fd: int, oev: bv8, nev: bv8, f1: Epolls.Fate, f2: Epolls.Fate, ghost i: nat)
      returns (outcome: Epolls.Outcome)
      requires table.ValidFrom(i) && 0 <= fd < |table.anfds| && table.anfds[fd].events == nev
      modifies this`kernel, table, table.members`next
      modifies table.loop`pendings, table.loop`pendingpri, table.loop`hist, table.loop`activecnt, table.loop`running
      modifies table.members`active, table.members`pending
      ensures table.ValidFrom(i) && table.members <= old(table.members) && |table.anfds| == |old(table.anfds)|
      ensures (outcome, LineOf(table.anfds, kernel, fd)) ==
        Epolls.Modify(LineOf(old(table.anfds), old(kernel), fd).(events := oev), nev, f1, f2)
      ensures OthersCached(old(table.anfds), table.anfds, fd) && CachedAt(table.anfds, fd).events == nev
      ensures SameFdsets(old(table.anfds), table.anfds, fd)
      ensures forall x :: x != fd ==> EntryOf(kernel, x) == EntryOf(old(kernel), x)
      ensures KilledIf(outcome == Epolls.Failed, fd, old(table.lists), old(table.fdchanges), old(table.loop.Abs()), table.loop.dummy,
                       table.lists, table.fdchanges, table.loop.Abs())
    {
      hide FdTable.ValidFrom, KilledTo, EntryOf, Epolls.Negotiate, Epolls.Later, Epolls.Earlier, Loop.Abs,
           CachedAt, OthersCached, OthersSame, SameFdsets;
      if nev == 0 {
        Unchanged(fd);
        return Epolls.Ignored;
      }
      table.CachedIs(fd);
      ghost var anfds := table.anfds;
      var oldmask := table.anfds[fd].emask;
      var egen := Epolls.Later(table.anfds[fd].egen);
      table.SetEpoll(fd, nev, egen, i);
      outcome := EpollTry(fd, Epolls.Reg(nev, egen), oldmask, oev, f1, f2);
      if outcome == Epolls.Registered {
        return;
      }
      ghost var mid := table.anfds;
      GiveBack(fd, outcome == Epolls.Failed, i);
      OthersCachedTrans(anfds, mid, table.anfds, fd);
      SameFdsetsTrans(anfds, mid, table.anfds, fd);
    }

    lemma Unchanged(fd: int)
      requires 0 <= fd < |table.anfds|
      ensures OthersCached(table.anfds, table.anfds, fd) && SameFdsets(table.anfds, table.anfds, fd)
      ensures CachedAt(table.anfds, fd).events == table.anfds[fd].events
    {
    }

    /** The end of `epoll_modify`: `fd_kill` if it failed, and one generation back. */
    method GiveBack(fd: int, kill: bool, ghost i: nat)
      requires table.ValidFrom(i) && 0 <= fd < |table.anfds|
      modifies table, table.members`next
      modifies table.loop`pendings, table.loop`pendingpri, table.loop`hist, table.loop`activecnt, table.loop`running
      modifies table.members`active, table.members`pending
      ensures table.ValidFrom(i) && table.members <= old(table.members) && |table.anfds| == |old(table.anfds)|
      ensures CachedAt(table.anfds, fd) == CachedAt(old(table.anfds), fd).(egen := Epolls.Earlier(CachedAt(old(table.anfds), fd).egen))
      ensures OthersCached(old(table.anfds), table.anfds, fd) && SameFdsets(old(table.anfds), table.anfds, fd)
      ensures KilledIf(kill, fd, old(table.lists), old(table.fdchanges), old(table.loop.Abs()), table.loop.dummy,
                       table.lists, table.fdchanges, table.loop.Abs())
    {
      hide FdTable.ValidFrom, KilledIf, Loop.Abs, OthersCached, SameFdsets, CachedAt, Epolls.Earlier;
      table.KillIf(kill, fd, i);
      table.CachedIs(fd);
      ghost var mid := table.anfds;
      table.SetEpoll(fd, table.anfds[fd].emask, Epolls.Earlier(table.anfds[fd].egen), i);
      OthersCachedTrans(old(table.anfds), mid, table.anfds, fd);
      SameFdsetsTrans(old(table.anfds), mid, table.anfds, fd);
    }

    /** A backend that reacts with further changes. */
    method Request(requests: seq<Request>, ghost i: nat)
      requires table.ValidFrom(i) && forall j :: 0 <= j < |requests| ==> 0 <= requests[j].fd < |table.anfds| && requests[j].flags != 0
      modifies table`anfds, table`fdchanges
      ensures table.ValidFrom(i) && |table.anfds| == |old(table.anfds)|
      ensures old(table.fdchanges) <= table.fdchanges && SameCaches(old(table.anfds), table.anfds)
      ensures Requested(old(table.anfds), table.anfds, -1, requests)
    {
      assert requests[..0] == [];
      hide FdTable.ValidFrom, Requested, FlaggedWith, SameCaches;
      assert SameCaches(table.anfds, table.anfds);
      for j := 0 to |requests|
        invariant table.ValidFrom(i) && |table.anfds| == |old(table.anfds)|
        invariant old(table.fdchanges) <= table.fdchanges && SameCaches(old(table.anfds), table.anfds)
        invariant Requested(old(table.anfds), table.anfds, -1, requests[..j])
      {
        ghost var before := table.anfds;
        table.Change(requests[j].fd, requests[j].flags, i);
        RequestedNext(old(table.anfds), before, table.anfds, requests, j);
      }
      assert requests[..|requests|] == requests;
    }

    /** The backend has no reason to kill a descriptor or to ask for changes. */
    ghost predicate Calm(weather: Weather) {
      match kind
      case Select => true
      case Poll => true
      case Epoll => weather.f1 == weather.f2 == Epolls.Normal
      case Other => false
    }

    ghost predicate AllCalm(weathers: seq<Weather>) {
      forall j :: 0 <= j < |weathers| ==> Calm(weathers[j])
    }

    ghost predicate WeatherOk(weather: Weather)
      reads table`anfds
    {
      forall j :: 0 <= j < |weather.requests| ==> 0 <= weather.requests[j].fd < |table.anfds| && weather.requests[j].flags != 0
    }

    /** `epoll_modify` as a step of the descriptor. */
    method EpollStep(fd: int, oev: bv8, nev: bv8, f1: Epolls.Fate, f2: Epolls.Fate, ghost i: nat)
      returns (outcome: Epolls.Outcome)
      requires kind == Epoll && table.ValidFrom(i) && 0 <= fd < |table.anfds| && table.anfds[fd].events == nev
      requires Mirrored(fd) && Knows(fd, oev)
      modifies this`kernel, this`steps, table, table.members`next
      modifies table.loop`pendings, table.loop`pendingpri, table.loop`hist, table.loop`activecnt, table.loop`running
      modifies table.members`active, table.members`pending
      ensures table.ValidFrom(i) && table.members <= old(table.members) && |table.anfds| == |old(table.anfds)|
      ensures OthersCached(old(table.anfds), table.anfds, fd) && CachedAt(table.anfds, fd).events == nev
      ensures SameFdsets(old(table.anfds), table.anfds, fd)
      ensures KilledIf(outcome == Epolls.Failed, fd, old(table.lists), old(table.fdchanges), old(table.loop.Abs()), table.loop.dummy,
                       table.lists, table.fdchanges, table.loop.Abs())
      ensures Mirrored(-1) && steps == old(steps)[fd := StepsOf(old(steps), fd) + [Epolls.Changed(nev, f1, f2)]]
      ensures outcome == Epolls.Modify(Epolls.Run(StepsOf(old(steps), fd)), nev, f1, f2).0
    {
      hide FdTable.ValidFrom, KilledIf, Loop.Abs, InStep, Epolls.Modify, Epolls.Run, StepsOf, EntryOf, CachedAt, SameFdsets;
      ghost var line := LineOf(table.anfds, kernel, fd).(events := oev);
      ghost var anfds, kernel0 := table.anfds, kernel;
      outcome := EpollModify(fd, oev, nev, f1, f2, i);
      InStepNext(anfds, kernel0, steps, table.anfds, kernel, fd, Epolls.Changed(nev, f1, f2), line);
      steps := steps[fd := StepsOf(steps, fd) + [Epolls.Changed(nev, f1, f2)]];
    }

    /** `backend_modify` */
    method Modify(fd: int, oev: bv8, nev: bv8, weather: Weather, ghost i: nat)
      requires table.ValidFrom(i) && 0 <= fd < |table.anfds| && table.anfds[fd].events == nev && Directed(nev)
      requires Mirrored(fd) && Knows(fd, oev) && WeatherOk(weather)
      modifies this`kernel, this`steps, selectset, pollset, table, table.members`next
      modifies table.loop`pendings, table.loop`pendingpri, table.loop`hist, table.loop`activecnt, table.loop`running
      modifies table.members`active, table.members`pending
      ensures table.ValidFrom(i) && table.members <= old(table.members) && |table.anfds| == |old(table.anfds)|
      ensures CachedAt(table.anfds, fd).events == nev
      ensures Mirrored(-1) && OthersCached(old(table.anfds), table.anfds, fd) && old(table.fdchanges) <= table.fdchanges
      ensures Calm(weather) && kind == Epoll && old(AllQuiet(steps)) ==> AllQuiet(steps)
      ensures Calm(weather) ==>
        && table.fdchanges == old(table.fdchanges) && table.lists == old(table.lists)
        && table.loop.Abs() == old(table.loop.Abs())
      ensures kind == Other ==>
        && Requested(old(table.anfds), table.anfds, -1, weather.requests) && SameCaches(old(table.anfds), table.anfds)
        && table.lists == old(table.lists) && table.members == old(table.members)
      ensures kind != Other ==> SameFdsets(old(table.anfds), table.anfds, fd) && OthersSame(old(table.lists), table.lists, fd)
      ensures kind == Epoll ==>
        && steps == old(steps)[fd := StepsOf(old(steps), fd) + [Epolls.Changed(nev, weather.f1, weather.f2)]]
        && KilledIf(Epolls.Modify(Epolls.Run(StepsOf(old(steps), fd)), nev, weather.f1, weather.f2).0 == Epolls.Failed,
                    fd, old(table.lists), old(table.fdchanges), old(table.loop.Abs()), table.loop.dummy,
                    table.lists, table.fdchanges, table.loop.Abs())
    {
      hide FdTable.ValidFrom, KilledTo, Loop.Abs, Epolls.Modify, Epolls.Run, InStep, FdTable.Abs, AllQuiet, Requested;
      if Calm(weather) && kind == Epoll {
        Epolls.NormalSucceeds(Epolls.Run(StepsOf(steps, fd)), nev);
        if AllQuiet(steps) {
          QuietSucceeds(steps, fd, nev);
        }
      }
      match kind
      case Select =>
        selectset.Modify(fd, oev, nev);
      case Poll =>
        pollset.Modify(fd, oev, nev);
      case Epoll =>
        var _ := EpollStep(fd, oev, nev, weather.f1, weather.f2, i);
      case Other =>
        Request(weather.requests, i);
    }

    // ---------- fd_reify ----------

    /** One round up to the decision. Only the backend's picture of `fd` may now be out of
        date. */
    method Take(i: nat) returns (fd: int, o_events: bv8, o_reify: bv8)
      requires table.ValidFrom(i) && i < |table.fdchanges| && Mirrored(-1)
      modifies table`anfds
      ensures table.ValidFrom(i + 1) && |table.anfds| == |old(table.anfds)|
      ensures fd == table.fdchanges[i] && 0 <= fd < |table.anfds| && Directed(table.anfds[fd].events)
      ensures Mirrored(fd) && Knows(fd, o_events) && OthersCached(old(table.anfds), table.anfds, fd)
      ensures table.lists == old(table.lists) && table.members == old(table.members) && table.fdchanges == old(table.fdchanges)
      ensures OutlooksAfter(old(table.Abs()), table.Abs(), fd, []) && Requested(old(table.anfds), table.anfds, fd, [])
      ensures o_events == old(table.anfds)[fd].events && table.anfds[fd].events == table.OrFor(fd)
      ensures o_reify == if o_events != table.anfds[fd].events then IOFDSET else old(table.anfds)[fd].reify
      ensures o_reify & IOFDSET == 0 ==> Mirrored(-1)
    {
      hide FdTable.ValidFrom, FdTable.OrFor, Epolls.Run, EntryOf, OutlooksAfter, Requested, FdTable.Nexts, FdTable.Fds, FdTable.Masks;
      ghost var anfds, t := table.anfds, table.Abs();
      fd, o_events, o_reify := table.TakeChange(i);
      OutlooksTaken(t, fd, table.anfds[fd].events);
      assert table.Abs() == t.(anfds := t.anfds[fd := t.anfds[fd].(reify := 0, events := table.anfds[fd].events)]);
      assert forall x :: x != fd ==> CachedAt(table.anfds, x) == CachedAt(anfds, x);
      assert CachedAt(table.anfds, fd) == CachedAt(anfds, fd).(events := table.anfds[fd].events);
      hide CachedAt;
      assert IOFDSET & IOFDSET != 0;
      if kind == Epoll {
        forall x {:trigger StepsOf(steps, x)} | 0 <= x
          ensures LineOf(anfds, kernel, x) == Epolls.Run(StepsOf(steps, x))
        {
        }
      }
    }

    /** `backend_modify`, and what it does to the outlook. */
    method TellBackend(fd: int, oev: bv8, nev: bv8, weather: Weather, ghost i: nat)
      requires table.ValidFrom(i) && 0 <= fd < |table.anfds| && table.anfds[fd].events == nev && Directed(nev)
      requires Mirrored(fd) && Knows(fd, oev) && WeatherOk(weather)
      modifies this`kernel, this`steps, selectset, pollset, table, table.members`next
      modifies table.loop`pendings, table.loop`pendingpri, table.loop`hist, table.loop`activecnt, table.loop`running
      modifies table.members`active, table.members`pending
      ensures table.ValidFrom(i) && table.members <= old(table.members) && |table.anfds| == |old(table.anfds)|
      ensures CachedAt(table.anfds, fd).events == nev
      ensures Mirrored(-1) && OthersCached(old(table.anfds), table.anfds, fd) && old(table.fdchanges) <= table.fdchanges
      ensures Calm(weather) && kind == Epoll && old(AllQuiet(steps)) ==> AllQuiet(steps)
      ensures Calm(weather) ==>
        && table.fdchanges == old(table.fdchanges) && table.lists == old(table.lists)
        && table.loop.Abs() == old(table.loop.Abs())
      ensures kind == Other ==> Requested(old(table.anfds), table.anfds, -1, weather.requests)
      ensures kind == Epoll ==>
        steps == old(steps)[fd := StepsOf(old(steps), fd) + [Epolls.Changed(nev, weather.f1, weather.f2)]]
      ensures OutlooksAfter(old(table.Abs()), table.Abs(), fd, if kind == Other then weather.requests else [])
    {
      hide FdTable.ValidFrom, KilledIf, Loop.Abs, Mirrored, Knows, OthersCached, OutlooksAfter, Requested, SameFdsets, OthersSame, SameCaches,
           FdTable.Nexts, FdTable.Fds, Masked, WeatherOk, Calm, CachedAt;
      ghost var t := table.Abs();
      table.AllMasked(i);
      Modify(fd, oev, nev, weather, i);
      table.AllMasked(i);
      if kind == Other {
        OutlooksAsked(t, table.Abs(), fd, weather.requests);
      } else {
        OutlooksQuiet(t, table.Abs(), fd);
      }
    }

    /** One round of `fd_reify`. */
    method ReifyOne(i: nat, weather: Weather) returns (fd: int, ghost told: bool)
      requires table.ValidFrom(i) && i < |table.fdchanges| && Mirrored(-1) && WeatherOk(weather)
      modifies this`kernel, this`steps, selectset, pollset, table, table.members`next
      modifies table.loop`pendings, table.loop`pendingpri, table.loop`hist, table.loop`activecnt, table.loop`running
      modifies table.members`active, table.members`pending
      ensures table.ValidFrom(i + 1) && table.members <= old(table.members) && |table.anfds| == |old(table.anfds)|
      ensures Mirrored(-1) && fd == old(table.fdchanges)[i] && old(table.fdchanges) <= table.fdchanges
      ensures 0 <= fd < |table.anfds| && Round(kind, old(table.Abs()), table.Abs(), fd, weather, told, old(steps), steps)
      ensures Calm(weather) && kind == Epoll && old(AllQuiet(steps)) ==> AllQuiet(steps)
      ensures Calm(weather) ==>
        && table.fdchanges == old(table.fdchanges) && table.lists == old(table.lists)
        && table.loop.Abs() == old(table.loop.Abs())
    {
      hide FdTable.ValidFrom, KilledIf, Loop.Abs, Mirrored, Knows, OthersCached, OutlooksAfter, Requested,
           OrIn, FdTable.Nexts, FdTable.Fds, Calm, StepsOf;
      ghost var t0 := table.Abs();
      var o_events, o_reify;
      fd, o_events, o_reify := Take(i);
      ghost var t := table.Abs();
      table.CachedIs(fd);
      told := o_reify & IOFDSET != 0;
      if o_reify & IOFDSET != 0 {
        TellBackend(fd, o_events, table.anfds[fd].events, weather, i + 1);
        OthersCachedTrans(t0.anfds, t.anfds, table.anfds, fd);
        OutlooksThen(t0, t, table.Abs(), fd, if kind == Other then weather.requests else []);
        if kind == Other {
          RequestedThen(t0.anfds, t.anfds, table.anfds, fd, weather.requests);
        }
      }
    }

    /** `fd_reify`: the round that takes each change makes it exactly once, in the order of the
        list. The backend is told exactly of the changes that need it, and knows what the watchers
        asked for; exactly what the backend asks for meanwhile is left on the list. */
    method FdReify(weathers: seq<Weather>) returns (handled: seq<int>, ghost told: seq<bool>)
      requires table.ValidFrom(0) && Mirrored(-1) && |weathers| == |table.fdchanges|
      requires forall j :: 0 <= j < |weathers| ==> WeatherOk(weathers[j])
      modifies this`kernel, this`steps, selectset, pollset, table, table.members`next
      modifies table.loop`pendings, table.loop`pendingpri, table.loop`hist, table.loop`activecnt, table.loop`running
      modifies table.members`active, table.members`pending
      ensures table.ValidFrom(0) && Mirrored(-1) && |table.anfds| == |old(table.anfds)|
      ensures handled == old(table.fdchanges) && |told| == |handled|
      ensures forall fd :: fd !in handled ==> CachedAt(table.anfds, fd) == CachedAt(old(table.anfds), fd)
      ensures forall j :: 0 <= j < |handled| ==>
        Handled(old(table.Abs()), table.Abs(), weathers, told, kind, j)
      ensures kind == Other ==>
        forall x {:trigger x in table.fdchanges} :: x in table.fdchanges <==> SomeStays(weathers, handled, told, |handled|, x)
      ensures kind == Epoll ==> steps == StepsAfter(old(steps), old(table.Abs()), weathers, |handled|)
      ensures AllCalm(weathers) ==>
        && (kind == Epoll && old(AllQuiet(steps)) ==> AllQuiet(steps))
        && table.fdchanges == [] && table.lists == old(table.lists) && table.loop.Abs() == old(table.loop.Abs())
    {
      hide FdTable.ValidFrom, FdTable.Nexts, FdTable.Fds, FdTable.Masks, Loop.Abs, Mirrored, Progress, AllQuiet, AllCalm, WeatherOk,
           Handled, SomeStays, StepsAfter, CachedAt;
      ghost var t0, steps0 := table.Abs(), steps;
      handled, told := ReifyAll(weathers);
      ghost var t := table.Abs();
      table.ForgetChanges(|handled|);
      table.ChangesAre(0);
      ProgressEnds(kind, t0, t, table.Abs(), weathers, told, steps0, steps);
    }

    /** The loop of `fd_reify`. */
    method ReifyAll(weathers: seq<Weather>) returns (handled: seq<int>, ghost told: seq<bool>)
      requires table.ValidFrom(0) && Mirrored(-1) && |weathers| == |table.fdchanges|
      requires forall j :: 0 <= j < |weathers| ==> WeatherOk(weathers[j])
      modifies this`kernel, this`steps, selectset, pollset, table, table.members`next
      modifies table.loop`pendings, table.loop`pendingpri, table.loop`hist, table.loop`activecnt, table.loop`running
      modifies table.members`active, table.members`pending
      ensures table.ValidFrom(|handled|) && Mirrored(-1) && |table.anfds| == |old(table.anfds)|
      ensures handled == old(table.fdchanges) && |told| == |handled| && handled <= table.fdchanges
      ensures Progress(kind, old(table.Abs()), table.Abs(), weathers, told, old(steps), steps)
      ensures AllCalm(weathers) ==>
        && (kind == Epoll && old(AllQuiet(steps)) ==> AllQuiet(steps))
        && table.fdchanges == handled && table.lists == old(table.lists) && table.loop.Abs() == old(table.loop.Abs())
    {
      hide FdTable.ValidFrom, FdTable.Nexts, FdTable.Fds, FdTable.Masks, Loop.Abs, Mirrored, Progress, Round, AllQuiet, Calm,
           CachedAt;
      ghost var t0, steps0 := table.Abs(), steps;
      var changecnt := |table.fdchanges|;
      handled, told := [], [];
      table.ChangesAre(0);
      ProgressStarts(kind, t0, weathers, steps);
      hide FdTable.Abs;
      for i := 0 to changecnt
        invariant table.ValidFrom(i) && Mirrored(-1) && |table.anfds| == |old(table.anfds)| && table.members <= old(table.members)
        invariant t0.changes <= table.fdchanges && handled == t0.changes[..i] && |told| == i
        invariant Progress(kind, t0, table.Abs(), weathers, told, steps0, steps)
        invariant AllCalm(weathers) && kind == Epoll && old(AllQuiet(steps)) ==> AllQuiet(steps)
        invariant AllCalm(weathers) ==>
          table.fdchanges == t0.changes && table.lists == old(table.lists) && table.loop.Abs() == old(table.loop.Abs())
      {
        ghost var t, steps1 := table.Abs(), steps;
        var fd;
        ghost var tell;
        fd, tell := ReifyOne(i, weathers[i]);
        ProgressNext(kind, t0, t, table.Abs(), weathers, told, tell, steps0, steps1, steps);
        handled, told := handled + [fd], told + [tell];
      }
    }

    /** What the backend knows when no change is left is exactly what the watchers ask for. */
    lemma MasksRefine(fd: int)
      requires table.ValidFrom(0) && Mirrored(-1) && 0 <= fd && fd !in table.fdchanges
      ensures kind == Select ==> selectset.Mask(fd) == table.OrFor(fd)
      ensures kind == Poll ==> pollset.Mask(fd) == table.OrFor(fd)
      ensures kind == Epoll ==> Epolls.Run(StepsOf(steps, fd)) == LineOf(table.anfds, kernel, fd)
      ensures kind == Epoll ==> LineOf(table.anfds, kernel, fd).events == table.OrFor(fd)
    {
      hide FdTable.OrFor, FdTable.ValidFrom, Epolls.Run;
      if fd < |table.anfds| {
        table.Settled(fd);
      } else {
        table.NoList(fd);
      }
      if kind == Epoll {
        assert StepsOf(steps, fd) == StepsOf(steps, fd);
      }
    }

    /** With poll, the entries of the set are exactly the descriptors with watchers that ask
        for something, each once and with exactly what they ask for. */
    lemma PollsAreExact(fd: int)
      requires table.ValidFrom(0) && Mirrored(-1) && 0 <= fd && table.fdchanges == [] && kind == Poll
      ensures table.OrFor(fd) != 0 <==> exists k :: 0 <= k < |pollset.polls| && pollset.polls[k].fd == fd
      ensures forall k :: 0 <= k < |pollset.polls| && pollset.polls[k].fd == fd ==>
        PollSets.FromPoll(pollset.polls[k].events) == table.OrFor(fd)
      ensures forall j, k :: 0 <= j < k < |pollset.polls| ==> pollset.polls[j].fd != pollset.polls[k].fd
    {
      MasksRefine(fd);
      hide FdTable.OrFor, FdTable.ValidFrom;
      PollSets.EachOnce(pollset.polls, pollset.pollidxs, fd);
    }

    /** With epoll, the kernel holds exactly what the watchers ask for if nothing unusual ever
        happened to the descriptor; a deletion may be outstanding when they ask for nothing. */
    lemma EpollIsExact(fd: int)
      requires table.ValidFrom(0) && Mirrored(-1) && 0 <= fd && fd !in table.fdchanges && kind == Epoll
      requires forall k :: 0 <= k < |StepsOf(steps, fd)| ==> Epolls.Quiet(StepsOf(steps, fd)[k])
      ensures table.OrFor(fd) != 0 ==> fd in kernel && kernel[fd].mask == table.OrFor(fd)
      ensures fd in kernel ==> kernel[fd] == Epolls.Reg(CachedAt(table.anfds, fd).emask, CachedAt(table.anfds, fd).egen)
    {
      MasksRefine(fd);
      hide FdTable.OrFor, FdTable.ValidFrom, CachedAt;
      Epolls.RunServes(StepsOf(steps, fd));
    }

    /** What select, poll or the kernel reports for a descriptor. */
    function Reported(fd: int): bv8
      requires 0 <= fd && (kind == Select ==> selectset.Valid()) && (kind == Poll ==> pollset.Valid())
      reads this`kernel, selectset, pollset
    {
      match kind
      case Select => selectset.Mask(fd)
      case Poll => pollset.Mask(fd)
      case Epoll => if fd in kernel then kernel[fd].mask else 0
      case Other => 0
    }

    /** Once its descriptor has no change left, a watcher gets what it asks for; and nothing is
        reported for a descriptor with watchers that none of them asks for. */
    lemma ReportedExactly(fd: int, bit: bv8)
      requires table.ValidFrom(0) && Mirrored(-1) && 0 <= fd < |table.anfds| && fd !in table.fdchanges && kind != Other
      requires kind == Epoll ==> Epolls.Served(Epolls.Run(StepsOf(steps, fd)))
      ensures kind != Epoll || table.OrFor(fd) != 0 ==>
        (Hits(Reported(fd), bit) <==> exists w :: w in table.members && w.fd == fd && Hits(w.events, bit))
    {
      table.OrForBits(fd, bit);
      MasksRefine(fd);
      hide FdTable.OrFor, FdTable.ValidFrom, Hits, Epolls.Run;
    }

    // ---------- epoll_poll ----------

    /** The program closes a descriptor behind libev's back. */
    method Close(fd: int)
      requires kind == Epoll && 0 <= fd && Mirrored(-1)
      modifies this`kernel, this`steps
      ensures Mirrored(-1) && steps == old(steps)[fd := StepsOf(old(steps), fd) + [Epolls.Closed]]
      ensures kernel == old(kernel) - {fd}
    {
      hide Epolls.Run, CachedAt;
      ghost var kernel0 := kernel;
      kernel := kernel - {fd};
      assert StepsOf(steps, fd) == StepsOf(steps, fd);
      InStepNext(table.anfds, kernel0, steps, table.anfds, kernel, fd, Epolls.Closed, LineOf(table.anfds, kernel0, fd));
      steps := steps[fd := StepsOf(steps, fd) + [Epolls.Closed]];
    }

    /** The part of the loop of `epoll_poll` that decides whether an event is delivered. */
    method Sift(e: EpollEvent, fate: Epolls.Fate) returns (deliver: bool)
      requires kind == Epoll && table.ValidFrom(0) && 0 <= e.fd < |table.anfds|
      modifies this`kernel, this`postfork, table`anfds
      ensures table.ValidFrom(0) && |table.anfds| == |old(table.anfds)| && OthersCached(old(table.anfds), table.anfds, e.fd)
      ensures SameFlags(old(table.anfds), table.anfds)
      ensures forall x :: x != e.fd ==> EntryOf(kernel, x) == EntryOf(old(kernel), x)
      ensures var n := Epolls.Notify(LineOf(old(table.anfds), old(kernel), e.fd), e.gen, Got(e), fate);
        && deliver == n.deliver && postfork == (old(postfork) || n.recreate)
        && LineOf(table.anfds, kernel, e.fd) == n.line
    {
      hide FdTable.ValidFrom, EntryOf, Epolls.Ctl, Got, Epolls.Unwanted, CachedAt, OthersCached, SameFlags, SameFdsets, LineOf;
      SameFlagsSelf(table.anfds);
      LineIs(e.fd);
      Unchanged(e.fd);
      var want := table.anfds[e.fd].events;
      var got := Got(e);
      if table.anfds[e.fd].egen != e.gen {
        postfork := true;
        return false;
      }
      if Epolls.Unwanted(got, want) {
        var errno := Correct(e.fd, want, e.gen, fate);
        if errno != Epolls.NONE {
          postfork := true;
          return false;
        }
      }
      deliver := true;
    }

    lemma LineIs(fd: int)
      requires 0 <= fd < |table.anfds|
      ensures var l := LineOf(table.anfds, kernel, fd); l.events == table.anfds[fd].events && l.egen == table.anfds[fd].egen
    {
    }

    /** What `epoll_poll` does about events that nobody wants. */
    method Correct(fd: int, want: bv8, gen: Gen, fate: Epolls.Fate) returns (errno: Epolls.Errno)
      requires table.ValidFrom(0) && 0 <= fd < |table.anfds|
      modifies this`kernel, table`anfds
      ensures table.ValidFrom(0) && |table.anfds| == |old(table.anfds)| && OthersCached(old(table.anfds), table.anfds, fd)
      ensures SameFlags(old(table.anfds), table.anfds)
      ensures forall x :: x != fd ==> EntryOf(kernel, x) == EntryOf(old(kernel), x)
      ensures var l := LineOf(old(table.anfds), old(kernel), fd);
        var a := Epolls.Ctl(if want != 0 then Epolls.MOD else Epolls.DEL, l.entry, Epolls.Reg(want, gen), fate);
        errno == a.errno && LineOf(table.anfds, kernel, fd) == l.(emask := want, entry := a.entry)
    {
      hide FdTable.ValidFrom, EntryOf, Epolls.Ctl, CachedAt, OthersCached;
      table.CachedIs(fd);
      table.SetEpoll(fd, want, table.anfds[fd].egen, 0);
      errno := EpollCtl(if want != 0 then Epolls.MOD else Epolls.DEL, fd, Epolls.Reg(want, gen), fate);
    }

    /** One event in `epoll_poll`: a stale one is dropped; one that is delivered reaches exactly
        the watchers that want it, unless the descriptor is flagged. */
    method PollEvent(e: EpollEvent, fate: Epolls.Fate) returns (deliver: bool)
      requires kind == Epoll && table.ValidFrom(0) && Mirrored(-1) && 0 <= e.fd < |table.anfds|
      modifies this`kernel, this`postfork, this`steps, table`anfds
      modifies table.loop`pendings, table.loop`pendingpri, table.loop`hist, table.members`pending
      ensures table.ValidFrom(0) && Mirrored(-1) && |table.anfds| == |old(table.anfds)| && SameFlags(old(table.anfds), table.anfds)
      ensures steps == old(steps)[e.fd := StepsOf(old(steps), e.fd) + [Epolls.Notified(e.gen, Got(e), fate)]]
      ensures deliver == Epolls.Notify(Epolls.Run(StepsOf(old(steps), e.fd)), e.gen, Got(e), fate).deliver
      ensures CachedAt(old(table.anfds), e.fd).egen != e.gen ==> !deliver
      ensures postfork == (old(postfork) || !deliver)
      ensures EventFed(old(table.anfds), table.lists, table.Masks(), table.loop.dummy, e, deliver,
                       old(table.loop.Abs()), table.loop.Abs())
      ensures AllTell(old(table.anfds), table.lists, table.Masks(), e, deliver, old(table.loop.hist), table.loop.hist, table.loop.all)
      ensures deliver ==> AgreementKept(old(table.anfds), old(kernel), table.anfds, kernel)
    {
      hide FdTable.ValidFrom, Mirrored, Got, EntryOf, CachedAt, FedTo, Loop.Abs, FdTable.Masks,
           AgreementKept, Flagged, StepsOf, Epolls.Notify, Epolls.Run, AllTell, ListsDistinct;
      ghost var anfds, s := table.anfds, table.loop.Abs();
      table.loop.HistIs();
      table.AllDistinct(0);
      table.HeadIs(e.fd, 0);
      deliver := SiftStep(e, fate);
      FlaggedIs(e.fd);
      assert Flagged(old(table.anfds), e.fd) <==> Flagged(table.anfds, e.fd);
      if deliver {
        table.FdEvent(e.fd, Got(e) as bv32);
      }
      FedTellsAll(anfds, table.lists, table.Masks(), table.loop.dummy, e, deliver, s, table.loop.Abs(), table.loop.all);
      table.loop.HistIs();
    }

    lemma FlaggedIs(fd: int)
      requires 0 <= fd < |table.anfds|
      ensures Flagged(table.anfds, fd) <==> table.anfds[fd].reify != 0
    {
    }

    /** `Sift` as a step of the descriptor. */
    method SiftStep(e: EpollEvent, fate: Epolls.Fate) returns (deliver: bool)
      requires kind == Epoll && table.ValidFrom(0) && Mirrored(-1) && 0 <= e.fd < |table.anfds|
      modifies this`kernel, this`postfork, this`steps, table`anfds
      ensures table.ValidFrom(0) && Mirrored(-1) && |table.anfds| == |old(table.anfds)| && SameFlags(old(table.anfds), table.anfds)
      ensures steps == old(steps)[e.fd := StepsOf(old(steps), e.fd) + [Epolls.Notified(e.gen, Got(e), fate)]]
      ensures deliver == Epolls.Notify(Epolls.Run(StepsOf(old(steps), e.fd)), e.gen, Got(e), fate).deliver
      ensures CachedAt(old(table.anfds), e.fd).egen != e.gen ==> !deliver
      ensures postfork == (old(postfork) || !deliver)
      ensures deliver ==> AgreementKept(old(table.anfds), old(kernel), table.anfds, kernel)
    {
      ghost var anfds, kernel0, step := table.anfds, kernel, Epolls.Notified(e.gen, Got(e), fate);
      hide FdTable.ValidFrom, Got, Epolls.Notify, Epolls.Run, EntryOf, CachedAt, InStep, AgreementKept;
      assert LineOf(anfds, kernel, e.fd) == Epolls.Run(StepsOf(steps, e.fd)) by { StepsAre(e.fd); }
      deliver := Sift(e, fate);
      Epolls.StaleIsDropped(LineOf(anfds, kernel0, e.fd), e.gen, Got(e), fate);
      InStepNext(anfds, kernel0, steps, table.anfds, kernel, e.fd, step, LineOf(anfds, kernel0, e.fd));
      steps := steps[e.fd := StepsOf(steps, e.fd) + [step]];
      StillAgreed(anfds, kernel0, e, fate);
    }

    lemma StepsAre(fd: int)
      requires kind == Epoll && Mirrored(-1) && 0 <= fd
      ensures LineOf(table.anfds, kernel, fd) == Epolls.Run(StepsOf(steps, fd))
    {
      assert StepsOf(steps, fd) == StepsOf(steps, fd);
    }

    lemma StillAgreed(anfds: seq<ANFD>, kernel0: map<int, Epolls.Reg>, e: EpollEvent, fate: Epolls.Fate)
      requires OthersCached(anfds, table.anfds, e.fd)
      requires forall x :: x != e.fd ==> EntryOf(kernel, x) == EntryOf(kernel0, x)
      requires LineOf(table.anfds, kernel, e.fd) == Epolls.Notify(LineOf(anfds, kernel0, e.fd), e.gen, Got(e), fate).line
      ensures !Epolls.Notify(LineOf(anfds, kernel0, e.fd), e.gen, Got(e), fate).recreate ==>
        AgreementKept(anfds, kernel0, table.anfds, kernel)
    {
      hide EntryOf, CachedAt, Epolls.Agreed, Epolls.Breaks, Epolls.Notify, Got;
      var l := LineOf(anfds, kernel0, e.fd);
      Epolls.StaleIsDropped(l, e.gen, Got(e), fate);
      if Epolls.Agreed(l) {
        Epolls.StepAgrees(l, Epolls.Notified(e.gen, Got(e), fate));
      }
      forall x {:trigger LineOf(table.anfds, kernel, x)} | x != e.fd
        ensures LineOf(table.anfds, kernel, x) == LineOf(anfds, kernel0, x)
      {
        assert CachedAt(table.anfds, x) == CachedAt(anfds, x);
      }
    }

    /** The loop of `epoll_poll`: every event is a step of its descriptor and, if it is delivered,
        fed to its watchers; `states` are the queues between the events. Agreement with the kernel
        is lost only together with a request to recreate its state. */
    method EpollPoll(events: seq<EpollEvent>, fates: seq<Epolls.Fate>) returns (delivered: seq<bool>, ghost states: seq<Queues>)
      requires kind == Epoll && table.ValidFrom(0) && Mirrored(-1) && |fates| == |events|
      requires forall j :: 0 <= j < |events| ==> 0 <= events[j].fd < |table.anfds|
      modifies this`kernel, this`postfork, this`steps, table`anfds
      modifies table.loop`pendings, table.loop`pendingpri, table.loop`hist, table.members`pending
      ensures table.ValidFrom(0) && Mirrored(-1) && |table.anfds| == |old(table.anfds)|
      ensures steps == Notices(old(steps), events, fates, |events|)
      ensures |delivered| == |events| && |states| == |events| + 1
      ensures states[0] == old(table.loop.Abs()) && states[|events|] == table.loop.Abs()
      ensures forall j :: 0 <= j < |events| ==>
        EventAt(old(table.anfds), table.lists, table.Masks(), table.loop.dummy, old(steps), events, fates, delivered, states, j)
      ensures forall j {:trigger events[j]} :: 0 <= j < |events| ==>
        AllTell(old(table.anfds), table.lists, table.Masks(), events[j], delivered[j], states[j].hist, states[j + 1].hist, table.loop.all)
      ensures postfork == (old(postfork) || false in delivered)
      ensures !postfork ==> AgreementKept(old(table.anfds), old(kernel), table.anfds, kernel)
    {
      hide FdTable.ValidFrom, Mirrored, LineOf, Epolls.Agreed, EventFed, Loop.Abs, Got, FdTable.Masks,
           Epolls.Notify, Epolls.Run, SameFlags, StepsOf, AllTell, ListsDistinct, EventsUpTo, EventAt;
      delivered, states := [], [table.loop.Abs()];
      ghost var anfds, lists, masks, steps0 := table.anfds, table.lists, table.Masks(), steps;
      SameFlagsSelf(anfds);
      NoEvents(anfds, lists, masks, table.loop.dummy, steps0, events, fates, table.loop.Abs());
      for j := 0 to |events|
        invariant table.ValidFrom(0) && Mirrored(-1) && |table.anfds| == |anfds| && SameFlags(anfds, table.anfds)
        invariant table.lists == lists && table.Masks() == masks
        invariant steps == Notices(steps0, events, fates, j)
        invariant |delivered| == j && |states| == j + 1 && states[0] == old(table.loop.Abs()) && states[j] == table.loop.Abs()
        invariant EventsUpTo(anfds, lists, masks, table.loop.dummy, steps0, events, fates, delivered, states)
        invariant postfork == (old(postfork) || false in delivered)
        invariant !postfork ==> AgreementKept(anfds, old(kernel), table.anfds, kernel)
      {
        ghost var mid := table.anfds;
        var deliver := PollEvent(events[j], fates[j]);
        EventFedSame(anfds, mid, lists, masks, table.loop.dummy, events[j], deliver, states[j], table.loop.Abs());
        SameFlagsTrans(anfds, mid, table.anfds);
        NextEvent(anfds, lists, masks, table.loop.dummy, steps0, events, fates, delivered, states, deliver, table.loop.Abs());
        delivered, states := delivered + [deliver], states + [table.loop.Abs()];
      }
      table.AllDistinct(0);
      EventsTell(anfds, lists, masks, table.loop.dummy, steps0, events, fates, delivered, states, table.loop.all);
    }

    // ---------- starting, stopping and killing keep the picture ----------

    /** `ev_io_start` leaves the backend alone; the change list remembers what it must be told. */
    method Start(w: Watcher) returns (ghost n: nat)
      requires table.ValidFrom(0) && Mirrored(-1) && w in table.loop.all && w.kind == Io
      requires w.active == 0 ==> w.fd >= 0 && w.events & !(IOFDSET | DIRECTIONS) == 0
      modifies table`anfds, table`fdchanges, table`lists, table`members
      modifies table.loop`activecnt, table.loop`running, w`active, w`priority, w`next, w`events
      ensures table.ValidFrom(0) && Mirrored(-1) && w.active == 1
      ensures table.members == old(table.members) + {w} && table.loop.running == old(table.loop.running) + {w}
      ensures old(w.active) != 0 ==> table.Abs() == old(table.Abs()) && table.loop.activecnt == old(table.loop.activecnt)
      ensures old(w.active) == 0 ==>
        && table.loop.activecnt == old(table.loop.activecnt) + 1 && w.events == Plain(old(w.events))
        && w.fd < |old(table.Abs()).anfds| + n == |old(table.Abs()).lists| + n
        && table.Abs() == Added(Grown(old(table.Abs()), n), w, w.fd, StartFlags(old(w.events)), Plain(old(w.events)))
      ensures old(w.active) == 0 ==>
        && SameDirections(old(w.events), w.events) && w.fd < |table.lists| && table.lists[w.fd] != [] && table.lists[w.fd][0] == w
        && Flagged(table.anfds, w.fd) && (Hits(old(w.events), IOFDSET) ==> Fdset(table.anfds, w.fd))
    {
      hide FdTable.ValidFrom, Mirrored, Added, Grown, FdTable.Abs, SameCaches, Plain, StartFlags, SameDirections, Flagged, Fdset, Hits;
      n := table.IoStart(w, 0);
      MirroredKept(-1);
    }

    /** Likewise `ev_io_stop`. */
    method Stop(w: Watcher) returns (ghost k: nat)
      requires table.ValidFrom(0) && Mirrored(-1) && w in table.loop.all && w.kind == Io
      modifies table`anfds, table`fdchanges, table`lists, table`members, table.members`next
      modifies table.loop`pendings, table.loop`hist, table.loop`activecnt, table.loop`running, w`active, w`pending
      ensures table.ValidFrom(0) && Mirrored(-1) && w.active == 0 && w.pending == 0
      ensures DebtOk(old(table.loop.Abs()), w) && w != table.loop.dummy
      ensures table.loop.Abs() == Clear(old(table.loop.Abs()), table.loop.dummy, w)
      ensures table.members == old(table.members) - {w} && table.loop.running == old(table.loop.running) - {w}
      ensures old(w.active) == 0 ==> table.Abs() == old(table.Abs()) && table.loop.activecnt == old(table.loop.activecnt)
      ensures old(w.active) != 0 ==>
        && table.loop.activecnt == old(table.loop.activecnt) - 1
        && w in old(table.members) && 0 <= w.fd < |old(table.anfds)| == |old(table.lists)|
        && k < |old(table.lists)[w.fd]| && old(table.lists)[w.fd][k] == w && w in old(table.Nexts())
        && table.Abs() == Dropped(old(table.Abs()), w.fd, k)
    {
      hide FdTable.ValidFrom, Mirrored, Dropped, SameCaches, DebtOk, Clear, Loop.Abs, FdTable.Nexts, FdTable.Fds, FdTable.Masks;
      k := table.IoStop(w, 0);
      MirroredKept(-1);
    }

    /** With no change left every watcher gets what it asks for. */
    lemma WaitsFor(w: Watcher, bit: bv8)
      requires table.ValidFrom(0) && Mirrored(-1) && w in table.members && table.fdchanges == [] && kind != Other
      requires kind == Epoll ==> Epolls.Served(Epolls.Run(StepsOf(steps, w.fd)))
      ensures 0 <= w.fd && (kind == Select ==> selectset.Valid()) && (kind == Poll ==> pollset.Valid())
      ensures Hits(w.events, bit) ==> Hits(Reported(w.fd), bit)
    {
      table.InTable(w, 0);
      table.OrForBits(w.fd, bit);
      ReportedExactly(w.fd, bit);
      assert !Hits(0, bit);
      hide FdTable.OrFor, FdTable.ValidFrom, Mirrored, Hits, Reported, Epolls.Served, Epolls.Run;
    }

    /** From `ev_io_start` to the backend: once the change list has been worked off undisturbed,
        every direction that the watcher was set to wait for is reported; and if it was just set,
        the backend has been told, even if the interest was the same before. With epoll that holds
        also if the descriptor has been closed and is a new one under an old number. */
    method StartAndReify(w: Watcher) returns (handled: seq<int>, ghost told: seq<bool>)
      requires table.ValidFrom(0) && Mirrored(-1) && w in table.loop.all && w.kind == Io && kind != Other
      requires w.active == 0 && w.fd >= 0 && w.events & !(IOFDSET | DIRECTIONS) == 0
      requires kind == Epoll ==> AllQuiet(steps) || (w.events & IOFDSET != 0 && Epolls.Agreed(Epolls.Run(StepsOf(steps, w.fd))))
      modifies this`kernel, this`steps, selectset, pollset, table, table.members`next
      modifies table.loop`pendings, table.loop`pendingpri, table.loop`hist, table.loop`activecnt, table.loop`running
      modifies table.members`active, table.members`pending, w`active, w`priority, w`next, w`events, w`pending
      ensures table.ValidFrom(0) && Mirrored(-1) && w in table.members && table.fdchanges == []
      ensures (kind == Select ==> selectset.Valid()) && (kind == Poll ==> pollset.Valid())
      ensures old(w.events) & EV_READ != 0 ==> Reported(w.fd) & EV_READ != 0
      ensures old(w.events) & EV_WRITE != 0 ==> Reported(w.fd) & EV_WRITE != 0
      ensures |told| == |handled| &&
        exists j :: 0 <= j < |handled| && handled[j] == w.fd && (old(w.events) & IOFDSET != 0 ==> told[j])
    {
      hide FdTable.ValidFrom, Mirrored, Added, Grown, FdTable.Nexts, FdTable.Fds, FdTable.Masks, Plain, StartFlags, Directed,
           CachedAt, AllQuiet, Loop.Abs, StepsAfter, SomeStays, Handled, Flagged, Fdset, Reported, Epolls.Served, Epolls.Agreed,
           Epolls.Run, OrIn;
      ghost var steps0 := steps;
      ghost var _ := Start(w);
      var weathers := seq(|table.fdchanges|, _ => Weather(Epolls.Normal, Epolls.Normal, []));
      ghost var t := table.Abs();
      table.ChangesAre(0);
      assert w.fd in table.fdchanges[0..] && table.fdchanges[0..] == table.fdchanges;
      ghost var j :| 0 <= j < |table.fdchanges| && table.fdchanges[j] == w.fd;
      handled, told := FdReify(weathers);
      FreshIsTold(t, table.Abs(), weathers, told, kind, j);
      table.OnListIsMember(w.fd, w, 0);
      if kind == Epoll {
        if AllQuiet(steps0) {
          QuietServes(steps, w.fd);
        } else {
          ChangeReaches(steps0, t, weathers, j);
        }
      }
      WaitsFor(w, EV_READ);
      WaitsFor(w, EV_WRITE);
    }
  }
}
