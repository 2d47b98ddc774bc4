/** Which timers a reification fires and in which order, as a function on the table of
    expiry times. */
module Expiry {
  import opened Watchers
  import opened Queues
  import opened ReverseFeed
  import opened Histories

  type Times = map<Watcher, real>

  /** What becomes of a timer that is fired: it stops, or it is due again later. */
  datatype Next = Halt | At(at: real)

  type Nexts = map<Watcher, Next>

  function Fire(times: Times, w: Watcher, next: Next): Times {
    if next.At? then times[w := next.at] else times - {w}
  }

  function Due(times: Times, now: real): set<Watcher> {
    set w | w in times && times[w] < now
  }

  ghost predicate NoRepeats(ws: seq<Watcher>) {
    forall a, b :: 0 <= a < b < |ws| ==> ws[a] != ws[b]
  }

  /** `times` is `start` after the due timers `fired` have been fired, in this order: each
      once, by non-decreasing original expiry, and none of the remaining due ones is earlier. */
  ghost predicate Fired(start: Times, times: Times, next: Nexts, now: real, fired: seq<Watcher>) {
    && NoRepeats(fired)
    && (forall i :: 0 <= i < |fired| ==> fired[i] in start && fired[i] in next && start[fired[i]] < now)
    && (forall i, j :: 0 <= i < j < |fired| ==> start[fired[i]] <= start[fired[j]])
    && (forall w :: w in times ==> w in start)
    && (forall w :: w in start && w !in fired ==> w in times && times[w] == start[w])
    && (forall w :: w in fired ==> (w in times <==> next[w].At?))
    && (forall w :: w in fired && w in times ==> times[w] == next[w].at >= now)
    && (forall i, w :: 0 <= i < |fired| && w in times && times[w] < now ==> start[fired[i]] <= times[w])
  }

  lemma FiredNone(start: Times, now: real)
    ensures Fired(start, start, map[], now, [])
  {
  }

  /** Firing the earliest timer, when it is due, extends the batch. */
  lemma FireStep(start: Times, times: Times, next: Nexts, now: real, fired: seq<Watcher>, w: Watcher, nx: Next)
    requires Fired(start, times, next, now, fired) && w in times && times[w] < now
    requires forall x :: x in times ==> times[w] <= times[x]
    requires nx.At? ==> nx.at >= now
    ensures w !in fired && w in start && start[w] == times[w]
    ensures Fired(start, Fire(times, w, nx), next[w := nx], now, fired + [w])
  {
    assert w !in fired;
  }

  /** Firing a timer takes it, and nothing else, out of the due set. */
  lemma FireShrinks(times: Times, now: real, w: Watcher, nx: Next)
    requires w in times && times[w] < now && (nx.At? ==> nx.at >= now)
    ensures Due(Fire(times, w, nx), now) == Due(times, now) - {w}
  {
  }

  /** When nothing is due any more, exactly the due timers have been fired. */
  lemma FiredAll(start: Times, times: Times, next: Nexts, now: real, fired: seq<Watcher>)
    requires Fired(start, times, next, now, fired) && Due(times, now) == {}
    ensures forall w :: w in fired <==> w in Due(start, now)
    ensures forall w :: w in times ==> times[w] >= now
  {
    forall w | w in times
      ensures times[w] >= now
    {
      assert w !in Due(times, now);
    }
    forall w
      ensures w in fired <==> w in Due(start, now)
    {
      if w in start && w !in fired {
        assert times[w] == start[w];
      }
    }
  }

  // ---------- the queues ----------

  ghost predicate Firable(s: Queues, dummy: Watcher, next: Nexts, ws: seq<Watcher>) {
    Ok(s, dummy) && forall i :: 0 <= i < |ws| ==> ws[i] in s.slot && ws[i] in next
  }

  /** The queues after the loop that fires, before the reverse feed: stopping clears. */
  ghost function Stopped(s: Queues, dummy: Watcher, next: Nexts, ws: seq<Watcher>): (r: Queues)
    requires Firable(s, dummy, next, ws)
    ensures Ok(r, dummy) && r.slot.Keys == s.slot.Keys && r.prio == s.prio
  {
    if ws == [] then s
    else
      var last := ws[|ws| - 1];
      var before := Stopped(s, dummy, next, ws[..|ws| - 1]);
      if next[last].At? then before
      else
        ClearKeeps(before, dummy, last);
        Clear(before, dummy, last)
  }

  lemma {:induction false} StoppedFrame(s: Queues, dummy: Watcher, next: Nexts, ws: seq<Watcher>, w: Watcher, nx: Next)
    requires Firable(s, dummy, next, ws) && w !in ws
    ensures Firable(s, dummy, next[w := nx], ws)
    ensures Stopped(s, dummy, next[w := nx], ws) == Stopped(s, dummy, next, ws)
  {
    if ws != [] {
      StoppedFrame(s, dummy, next, ws[..|ws| - 1], w, nx);
    }
  }

  lemma StoppedAppend(s: Queues, dummy: Watcher, next: Nexts, ws: seq<Watcher>, w: Watcher, nx: Next)
    requires Firable(s, dummy, next, ws) && w in s.slot && w !in ws
    ensures Firable(s, dummy, next[w := nx], ws + [w])
    ensures var before, r := Stopped(s, dummy, next, ws), Stopped(s, dummy, next[w := nx], ws + [w]);
      && (nx.At? ==> r == before)
      && (nx.Halt? ==> w in before.slot && DebtOk(before, w) && r == Clear(before, dummy, w))
  {
    assert (ws + [w])[..|ws|] == ws;
    StoppedFrame(s, dummy, next, ws, w, nx);
    ClearKeeps(Stopped(s, dummy, next, ws), dummy, w);
  }

  lemma {:induction false} StoppedSlots(s: Queues, dummy: Watcher, next: Nexts, ws: seq<Watcher>, w: Watcher)
    requires Firable(s, dummy, next, ws) && w in s.slot
    ensures Stopped(s, dummy, next, ws).slot[w] == if w in ws && next[w].Halt? then 0 else s.slot[w]
  {
    if ws != [] {
      var n := |ws| - 1;
      StoppedSlots(s, dummy, next, ws[..n], w);
      assert w in ws <==> w == ws[n] || w in ws[..n];
      ClearKeeps(Stopped(s, dummy, next, ws[..n]), dummy, ws[n]);
    }
  }

  lemma KnownAppend(s: Queues, s': Queues, ws: seq<Watcher>, w: Watcher)
    requires Known(s, ws) && s'.slot.Keys == s.slot.Keys && s'.prio == s.prio
    requires w in s.slot && 0 <= s.prio[w] < NUMPRI
    ensures Known(s', ws + [w])
  {
  }

  /** The queues that a reification leaves behind. */
  ghost function Reified(s: Queues, dummy: Watcher, next: Nexts, fired: seq<Watcher>, events: bv32): (r: Queues)
    requires Firable(s, dummy, next, fired) && Known(s, fired)
  {
    FeedBack(Stopped(s, dummy, next, fired), dummy, fired, events)
  }

  /** A timer that goes on, and was pending already, keeps its old place. */
  predicate Kept(s: Queues, next: Nexts, w: Watcher)
    requires w in s.slot && w in next
  {
    s.slot[w] > 0 && next[w].At?
  }

  /** When `u`, which expired before `v`, is also called before `v`. */
  predicate CalledFirst(s: Queues, next: Nexts, u: Watcher, v: Watcher)
    requires u in s.slot && v in s.slot && u in next && v in next
  {
    Kept(s, next, u) ==> Kept(s, next, v) && s.slot[u] > s.slot[v]
  }

  lemma {:induction false} StoppedOwed(s: Queues, dummy: Watcher, next: Nexts, ws: seq<Watcher>, w: Watcher)
    requires Firable(s, dummy, next, ws) && w in s.slot
    ensures var r := Stopped(s, dummy, next, ws);
      && s.hist <= r.hist && Since(r.hist, w) == Since(s.hist, w)
      && Owed(r.hist, w) == if w in ws && next[w].Halt? then Nothing else Owed(s.hist, w)
  {
    if ws != [] {
      var n := |ws| - 1;
      StoppedOwed(s, dummy, next, ws[..n], w);
      assert w in ws <==> w == ws[n] || w in ws[..n];
      var before := Stopped(s, dummy, next, ws[..n]);
      ClearKeeps(before, dummy, ws[n]);
      OwedAppend(before.hist, Cleared(ws[n]), w);
      SinceAppend(before.hist, Cleared(ws[n]), w);
    }
  }

  lemma {:induction false} StoppedExtends(s: Queues, dummy: Watcher, next: Nexts, ws: seq<Watcher>)
    requires Firable(s, dummy, next, ws)
    ensures s.hist <= Stopped(s, dummy, next, ws).hist
  {
    if ws != [] {
      StoppedExtends(s, dummy, next, ws[..|ws| - 1]);
      ClearKeeps(Stopped(s, dummy, next, ws[..|ws| - 1]), dummy, ws[|ws| - 1]);
    }
  }

  /** A reification adds to the history. */
  lemma ReifiedExtends(s: Queues, dummy: Watcher, next: Nexts, fired: seq<Watcher>, events: bv32)
    requires Firable(s, dummy, next, fired) && Known(s, fired)
    ensures s.hist <= Reified(s, dummy, next, fired, events).hist
  {
    StoppedExtends(s, dummy, next, fired);
    FeedBackExtends(Stopped(s, dummy, next, fired), dummy, fired, events);
  }

  /** What a fired watcher is owed afterwards, and how old that debt is. */
  lemma ReifiedOwed(s: Queues, dummy: Watcher, next: Nexts, fired: seq<Watcher>, events: bv32, w: Watcher)
    requires Firable(s, dummy, next, fired) && Known(s, fired) && NoRepeats(fired) && w in fired
    ensures var r := Reified(s, dummy, next, fired, events);
      && s.hist <= r.hist && |Stopped(s, dummy, next, fired).hist| >= |s.hist|
      && Owed(r.hist, w) == After(if Kept(s, next, w) then Owed(s.hist, w) else Nothing, Fed(w, s.prio[w], events), w)
      && if Kept(s, next, w) then Since(r.hist, w) == Since(s.hist, w) < |s.hist|
         else Since(r.hist, w) >= |Stopped(s, dummy, next, fired).hist|
  {
    assert DebtOk(s, w);
    var mid := Stopped(s, dummy, next, fired);
    StoppedOwed(s, dummy, next, fired, w);
    if Owed(s.hist, w).Debt? {
      SinceIs(s.hist, w);
    }
    hide Ok, Owed, Since, After, Stopped;
    FeedBackExtends(mid, dummy, fired, events);
    FeedBackOwed(mid, dummy, fired, events, w);
    FeedBackSince(mid, dummy, fired, events, w);
  }

  lemma SinceExactly(start: Times, times: Times, next: Nexts, now: real, fired: seq<Watcher>,
                     s: Queues, dummy: Watcher, events: bv32, u: Watcher, v: Watcher)
    requires Fired(start, times, next, now, fired) && Firable(s, dummy, next, fired) && Known(s, fired)
    requires u in fired && v in fired && start[u] < start[v] && s.prio[u] == s.prio[v]
    ensures var r := Reified(s, dummy, next, fired, events);
      && Since(r.hist, u) != Since(r.hist, v)
      && (Since(r.hist, u) > Since(r.hist, v) <==> CalledFirst(s, next, u, v))
  {
    var i :| 0 <= i < |fired| && fired[i] == u;
    var j :| 0 <= j < |fired| && fired[j] == v;
    assert i < j;
    assert DebtOk(s, u) && DebtOk(s, v);
    ReifiedOwed(s, dummy, next, fired, events, u);
    ReifiedOwed(s, dummy, next, fired, events, v);
    assert NoRepeats(fired);
    hide Ok, Owed, Since, Stopped, Fired;
    if Kept(s, next, u) && Kept(s, next, v) {
      NewerIsHigher(s, dummy, u, v);
    } else if !Kept(s, next, u) && !Kept(s, next, v) {
      NotKeptOrder(s, dummy, next, fired, events, i, j);
    }
  }

  lemma NotKeptOrder(s: Queues, dummy: Watcher, next: Nexts, fired: seq<Watcher>, events: bv32, i: nat, j: nat)
    requires Firable(s, dummy, next, fired) && Known(s, fired) && NoRepeats(fired) && i < j < |fired|
    requires !Kept(s, next, fired[i]) && !Kept(s, next, fired[j])
    ensures var r := Reified(s, dummy, next, fired, events); Since(r.hist, fired[i]) > Since(r.hist, fired[j])
  {
    assert DebtOk(s, fired[i]) && DebtOk(s, fired[j]);
    StoppedOwed(s, dummy, next, fired, fired[i]);
    StoppedOwed(s, dummy, next, fired, fired[j]);
    hide Ok, Owed, Since, Stopped;
    FeedBackNewer(Stopped(s, dummy, next, fired), dummy, fired, events, i, j);
  }

  /** The order of expiry is the order of the debts exactly unless the earlier timer has kept
      its place and the later one has not, or has kept a higher one. */
  lemma OrderExactly(start: Times, times: Times, next: Nexts, now: real, fired: seq<Watcher>,
                     s: Queues, dummy: Watcher, events: bv32, u: Watcher, v: Watcher)
    requires Fired(start, times, next, now, fired) && Firable(s, dummy, next, fired) && Known(s, fired)
    requires u in fired && v in fired && start[u] < start[v] && s.prio[u] == s.prio[v]
    ensures var r := Reified(s, dummy, next, fired, events);
      && (Ahead(r.hist, u, v) <==> CalledFirst(s, next, u, v))
      && (Ahead(r.hist, v, u) <==> !CalledFirst(s, next, u, v))
  {
    SinceExactly(start, times, next, now, fired, s, dummy, events, u, v);
    OwedAs(s, dummy, next, fired, events, u);
    OwedAs(s, dummy, next, fired, events, v);
    hide Owed, Since, Reified, Fired, CalledFirst;
  }

  lemma OwedAs(s: Queues, dummy: Watcher, next: Nexts, fired: seq<Watcher>, events: bv32, w: Watcher)
    requires Firable(s, dummy, next, fired) && Known(s, fired) && NoRepeats(fired) && w in fired
    ensures var d := Owed(Reified(s, dummy, next, fired, events).hist, w);
      d.Debt? && d.pri == s.prio[w]
  {
    assert DebtOk(s, w);
    ReifiedOwed(s, dummy, next, fired, events, w);
  }

  /** In any fair run that goes on from there, in which both are called once: the order of
      expiry is the order of the calls exactly under that condition. */
  lemma CalledByExpiryExactly(start: Times, times: Times, next: Nexts, now: real, fired: seq<Watcher>,
                              s: Queues, dummy: Watcher, events: bv32, u: Watcher, v: Watcher, hist: seq<Op>, lo: nat)
    requires Fired(start, times, next, now, fired) && Firable(s, dummy, next, fired) && Known(s, fired)
    requires u in fired && v in fired && start[u] < start[v] && s.prio[u] == s.prio[v]
    requires lo <= |hist| && hist[..lo] == Reified(s, dummy, next, fired, events).hist
    requires AllFair(hist) && CalledOnce(hist, lo, u) && CalledOnce(hist, lo, v)
    ensures FirstOn(hist, lo, u) < FirstOn(hist, lo, v) <==> CalledFirst(s, next, u, v)
  {
    OrderExactly(start, times, next, now, fired, s, dummy, events, u, v);
    hide Fired, AllFair, CalledOnce, Ahead, Reified;
    if CalledFirst(s, next, u, v) {
      CalledInOrder(hist, lo, u, v);
    } else {
      CalledInOrder(hist, lo, v, u);
    }
  }

  /** The order of expiry is never violated for a timer that nobody has fed since the queues were
      last empty. `ev_run` itself empties them in each iteration before the reification, and what
      the backend feeds in between are io watchers. */
  lemma EmptyQueuesKeepOrder(s0: Queues, s: Queues, dummy: Watcher, next: Nexts, u: Watcher, v: Watcher)
    requires Ok(s0, dummy) && EmptyFrom(s0.q, 0) && u in s0.slot
    requires Ok(s, dummy) && s0.hist <= s.hist && u in s.slot && v in s.slot && u in next && v in next
    requires forall i {:trigger s.hist[i]} :: |s0.hist| <= i < |s.hist| && s.hist[i].w == u ==> !s.hist[i].Fed?
    ensures CalledFirst(s, next, u, v)
  {
    EmptyMeansPaid(s0, dummy, u);
    assert s.hist[..|s0.hist|] == s0.hist;
    UnfedStaysUnowed(s.hist, |s0.hist|, u);
    assert DebtOk(s, u);
  }

  /** The slots after the reification, for the drain. */
  lemma ReifiedSlots(start: Times, times: Times, next: Nexts, now: real, fired: seq<Watcher>,
                     s: Queues, dummy: Watcher, events: bv32, u: Watcher, v: Watcher)
    requires Fired(start, times, next, now, fired) && Firable(s, dummy, next, fired) && Known(s, fired)
    requires u in fired && v in fired && start[u] < start[v] && s.prio[u] == s.prio[v]
    ensures var r := Reified(s, dummy, next, fired, events);
      && r.slot[u] > 0 && r.slot[v] > 0
      && (r.slot[u] > r.slot[v] <==> CalledFirst(s, next, u, v))
  {
    OrderExactly(start, times, next, now, fired, s, dummy, events, u, v);
    var r := Reified(s, dummy, next, fired, events);
    assert DebtOk(r, u) && DebtOk(r, v);
    hide Fired, Reified, Owed, Since;
    NewerIsHigher(r, dummy, u, v);
  }

  /** What a drain that follows does: each of the two is called once, and in the order of expiry
      exactly under that condition. */
  lemma DrainedByExpiryExactly(start: Times, times: Times, next: Nexts, now: real, fired: seq<Watcher>,
                               s: Queues, dummy: Watcher, events: bv32, u: Watcher, v: Watcher)
    requires Fired(start, times, next, now, fired) && Firable(s, dummy, next, fired) && Known(s, fired)
    requires u in fired && v in fired && start[u] < start[v] && s.prio[u] == s.prio[v]
    ensures var r := Reified(s, dummy, next, fired, events);
      && |r.q| == NUMPRI
      && var hist, lo := r.hist + Drain(r.q, NUMPRI, dummy), |r.hist|;
         && CalledOnce(hist, lo, u) && CalledOnce(hist, lo, v)
         && (FirstOn(hist, lo, u) < FirstOn(hist, lo, v) <==> CalledFirst(s, next, u, v))
  {
    var r := Reified(s, dummy, next, fired, events);
    ReifiedOwed(s, dummy, next, fired, events, u);
    ReifiedOwed(s, dummy, next, fired, events, v);
    hide Fired, Reified, Owed, Since, Drain, CalledOnce;
    DrainedOnce(r, dummy, u);
    DrainedOnce(r, dummy, v);
    var hist := r.hist + Drain(r.q, NUMPRI, dummy);
    assert hist[..|r.hist|] == r.hist;
    CalledByExpiryExactly(start, times, next, now, fired, s, dummy, events, u, v, hist, |r.hist|);
  }

  /** In terms of the drain: two fired timers of one priority are invoked in the order of their
      original expiry times if that condition holds, ... */
  lemma InvokedByExpiry(start: Times, times: Times, next: Nexts, now: real, fired: seq<Watcher>,
                        s: Queues, dummy: Watcher, events: bv32, u: Watcher, v: Watcher)
    requires Fired(start, times, next, now, fired) && Firable(s, dummy, next, fired) && Known(s, fired)
    requires u in fired && v in fired && start[u] < start[v] && s.prio[u] == s.prio[v]
    requires CalledFirst(s, next, u, v)
    ensures var r := Reified(s, dummy, next, fired, events); var p := s.prio[u];
      && Owed(r.hist, u).Debt? && Owed(r.hist, v).Debt? && |r.q| == NUMPRI
      && var a, b := Owed(r.hist, u).events, Owed(r.hist, v).events;
         Before(Drain(r.q, NUMPRI, dummy), Invoked(u, p, a), Invoked(v, p, b))
  {
    ReifiedSlots(start, times, next, now, fired, s, dummy, events, u, v);
    DrainedAbove(Reified(s, dummy, next, fired, events), dummy, u, v);
  }

  /** ... and in the opposite order if it does not. */
  lemma PendingTimerIsLate(start: Times, times: Times, next: Nexts, now: real, fired: seq<Watcher>,
                           s: Queues, dummy: Watcher, events: bv32, u: Watcher, v: Watcher)
    requires Fired(start, times, next, now, fired) && Firable(s, dummy, next, fired) && Known(s, fired)
    requires u in fired && v in fired && start[u] < start[v] && s.prio[u] == s.prio[v]
    requires !CalledFirst(s, next, u, v)
    ensures var r := Reified(s, dummy, next, fired, events); var p := s.prio[u];
      && Owed(r.hist, u).Debt? && Owed(r.hist, v).Debt? && |r.q| == NUMPRI
      && var a, b := Owed(r.hist, u).events, Owed(r.hist, v).events;
         Before(Drain(r.q, NUMPRI, dummy), Invoked(v, p, b), Invoked(u, p, a))
  {
    ReifiedSlots(start, times, next, now, fired, s, dummy, events, u, v);
    DrainedAbove(Reified(s, dummy, next, fired, events), dummy, v, u);
  }

  // ---------- how a violation comes about ----------

  function Quiet(u: Watcher, v: Watcher): Queues {
    Queues([[], [], [], [], []], map[u := 0, v := 0], map[u := 2, v := 2], [])
  }

  lemma QuietIsOk(dummy: Watcher, u: Watcher, v: Watcher)
    requires dummy != u && dummy != v
    ensures Ok(Quiet(u, v), dummy)
  {
  }

  lemma FirstRound(u: Watcher, v: Watcher)
    requires u != v
    ensures Fired(map[u := 1.0, v := 2.5], map[u := 2.0, v := 2.5], map[u := At(2.0)], 1.5, [u])
  {
  }

  lemma SecondRound(u: Watcher, v: Watcher)
    requires u != v
    ensures Fired(map[u := 2.0, v := 2.5], map[u := 3.0], map[u := At(3.0), v := Halt], 3.0, [u, v])
  {
  }

  /** `u` repeats every second from 1.0 on, `v` is due once at 2.5, and nothing is pending. At 1.5
      the loop reifies `u`, but the callback set by `ev_set_invoke_pending_cb` puts the invocation
      off. At 3.0 both are due, `u` since 2.0; and now `v` is called before `u`. */
  lemma DeferredTimerIsOvertaken(dummy: Watcher, u: Watcher, v: Watcher)
    requires dummy != u && dummy != v && u != v
    ensures var s0, next1, next2 := Quiet(u, v), map[u := At(2.0)], map[u := At(3.0), v := Halt];
      && Fired(map[u := 1.0, v := 2.5], map[u := 2.0, v := 2.5], next1, 1.5, [u])
      && Firable(s0, dummy, next1, [u]) && Known(s0, [u])
      && var s1 := Reified(s0, dummy, next1, [u], EV_TIMER);
         && Fired(map[u := 2.0, v := 2.5], map[u := 3.0], next2, 3.0, [u, v])
         && Firable(s1, dummy, next2, [u, v]) && Known(s1, [u, v])
         && var r := Reified(s1, dummy, next2, [u, v], EV_TIMER);
            && |r.q| == NUMPRI
            && var hist, lo := r.hist + Drain(r.q, NUMPRI, dummy), |r.hist|;
               && CalledOnce(hist, lo, u) && CalledOnce(hist, lo, v)
               && FirstOn(hist, lo, v) < FirstOn(hist, lo, u)
  {
    var s0, next1, next2 := Quiet(u, v), map[u := At(2.0)], map[u := At(3.0), v := Halt];
    QuietIsOk(dummy, u, v);
    FirstRound(u, v);
    SecondRound(u, v);
    assert forall i :: 0 <= i < 2 ==> [u, v][i] == u || [u, v][i] == v;
    hide Fired, Ok, Drain, CalledOnce, FirstOn, Stopped, FeedBack, Owed, Since;
    var s1 := Reified(s0, dummy, next1, [u], EV_TIMER);
    FedOnce(s0, dummy, u);
    assert u in [u, v] && v in [u, v] && [u, v][0] == u && [u, v][1] == v;
    DrainedByExpiryExactly(map[u := 2.0, v := 2.5], map[u := 3.0], next2, 3.0, [u, v], s1, dummy, EV_TIMER, u, v);
    var r := Reified(s1, dummy, next2, [u, v], EV_TIMER);
    NotTogether(r.hist + Drain(r.q, NUMPRI, dummy), |r.hist|, u, v);
  }

  /** After the first round `u` is pending. */
  lemma FedOnce(s: Queues, dummy: Watcher, u: Watcher)
    requires Ok(s, dummy) && Known(s, [u])
    ensures Firable(s, dummy, map[u := At(2.0)], [u]) && s.slot.Keys == Reified(s, dummy, map[u := At(2.0)], [u], EV_TIMER).slot.Keys
    ensures Reified(s, dummy, map[u := At(2.0)], [u], EV_TIMER).slot[u] > 0
  {
    var next := map[u := At(2.0)];
    assert [u][0] == u;
    ReifiedOwed(s, dummy, next, [u], EV_TIMER, u);
    var r := Reified(s, dummy, next, [u], EV_TIMER);
    assert DebtOk(r, u);
    hide Reified;
  }
}
