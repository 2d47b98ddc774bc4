/** The part of `struct ev_loop` that every watcher type uses: the pending queues and the
    count of active watchers. */
module Dispatch {
  import opened Watchers
  import opened Queues
  import opened ReverseFeed
  import opened Histories
  import opened Callbacks

  function Queued(q: seq<seq<Pending>>): nat
    requires |q| == NUMPRI
  {
    |q[0]| + |q[1]| + |q[2]| + |q[3]| + |q[4]|
  }

  function Clamp(pri: int): int {
    if pri < EV_MINPRI then EV_MINPRI else if pri > EV_MAXPRI then EV_MAXPRI else pri
  }

  function Distance(a: int, b: int): nat { if a < b then b - a else a - b }

  /** Of the valid priorities it is the nearest. */
  lemma ClampIsNearest(pri: int)
    ensures EV_MINPRI <= Clamp(pri) <= EV_MAXPRI
    ensures forall p :: EV_MINPRI <= p <= EV_MAXPRI ==> Distance(Clamp(pri), pri) <= Distance(p, pri)
  {
  }

  class Loop {
    var pendings: seq<seq<Pending>>
    var pendingpri: int
    const dummy: Watcher // pending_w
    var rfeeds: seq<Watcher>
    var activecnt: int
    ghost var all: set<Watcher>
    ghost var hist: seq<Op>
    ghost var running: set<Watcher>
    ghost var refs: int

    ghost function Slot(): map<Watcher, nat>
      reads this`all, all`pending
    {
      map w | w in all :: w.pending
    }

    ghost function Prio(): map<Watcher, int>
      reads this`all, all`priority
    {
      map w | w in all :: w.Pri()
    }

    /** The queues as a value. */
    ghost function Abs(): Queues
      reads this`pendings, this`all, this`hist, all`pending, all`priority
    {
      Queues(pendings, Slot(), Prio(), hist)
    }

    ghost predicate Valid()
      reads this`pendings, this`all, this`hist, all`pending, all`priority, dummy`pending
    {
      Ok(Abs(), dummy) && dummy.pending == 0
    }

    /** `activecnt` counts the active watchers, corrected by explicit references. */
    ghost predicate Counted()
      reads this`activecnt, this`all, this`running, this`refs, all`active
    {
      && activecnt == |running| + refs
      && running <= all
      && forall w :: w in all ==> (w.active != 0 <==> w in running)
    }

    constructor ()
      ensures Valid() && Counted() && all == {} && hist == [] && refs == 0
    {
      pendings := seq(NUMPRI, _ => []);
      pendingpri, activecnt := 0, 0;
      dummy := new Watcher(Dummy);
      rfeeds := [];
      all, hist, running, refs := {}, [], {}, 0;
    }

    /** A watcher that `ev_init` has initialised becomes known. */
    ghost method Adopt(w: Watcher)
      requires Valid() && Counted() && w !in all && w != dummy && w.active == 0 && w.pending == 0
      modifies this`all
      ensures Valid() && Counted() && all == old(all) + {w}
    {
      hide Ok;
      NewKeeps(Abs(), dummy, w, w.Pri());
      all := all + {w};
      assert Slot() == old(Slot())[w := 0];
      assert Prio() == old(Prio())[w := w.Pri()];
    }

    /** `ev_feed_event` */
    method FeedEvent(w: Watcher, revents: bv32)
      requires Valid() && w in all && 0 <= w.Pri() < NUMPRI
      modifies this`pendings, this`pendingpri, this`hist, w`pending
      ensures Valid() && pendingpri == NUMPRI - 1
      ensures old(w.pending) <= |old(pendings)[w.Pri()]| && Abs() == Feed(old(Abs()), w, revents)
    {
      hide Ok;
      FeedKeeps(Abs(), dummy, w, revents);
      var pri := w.Pri();
      assert pri == Prio()[w] && w.pending == Slot()[w];
      if w.pending != 0 {
        pendings := pendings[pri := Merge(pendings[pri], w.pending - 1, revents)];
      } else {
        w.pending := |pendings[pri]| + 1;
        pendings := pendings[pri := pendings[pri] + [Pending(w, revents)]];
        assert Slot() == old(Slot())[w := w.pending];
      }
      hist := hist + [Fed(w, pri, revents)];
      pendingpri := NUMPRI - 1;
      assert Abs() == Feed(old(Abs()), w, revents) by {
        assert Slot() == Feed(old(Abs()), w, revents).slot;
      }
    }

    /** `ev_clear_pending` */
    method ClearPending(w: Watcher) returns (events: bv32)
      requires Valid() && w in all
      modifies this`pendings, this`hist, w`pending
      ensures Valid() && w.pending == 0
      ensures w != dummy && DebtOk(old(Abs()), w) && Abs() == Clear(old(Abs()), dummy, w) && hist == old(hist) + [Cleared(w)]
      ensures events == (match Owed(old(hist), w) case Nothing => 0 case Debt(_, ev) => ev)
    {
      hide Ok;
      ClearKeeps(Abs(), dummy, w);
      var pri := w.Pri();
      assert pri == Prio()[w] && w.pending == Slot()[w];
      if w.pending != 0 {
        var i := w.pending - 1;
        events := pendings[pri][i].events;
        pendings := pendings[pri := pendings[pri][i := Pending(dummy, events)]];
        w.pending := 0;
        assert Slot() == old(Slot())[w := 0];
      } else {
        events := 0;
      }
      hist := hist + [Cleared(w)];
      assert Abs() == Clear(old(Abs()), dummy, w) by {
        assert Slot() == Clear(old(Abs()), dummy, w).slot;
      }
    }

    /** `feed_reverse` */
    method FeedReverse(w: Watcher)
      modifies this`rfeeds
      ensures rfeeds == old(rfeeds) + [w]
    {
      rfeeds := rfeeds + [w];
    }

    /** `feed_reverse_done` */
    method FeedReverseDone(revents: bv32)
      requires Valid() && rfeeds != [] && Known(Abs(), rfeeds)
      modifies this`rfeeds, this`pendings, this`pendingpri, this`hist, all`pending
      ensures Valid() && rfeeds == []
      ensures Abs() == FeedBack(old(Abs()), dummy, old(rfeeds), revents)
    {
      hide Ok, FeedBack, Loop.Slot, Loop.Prio, Known;
      while true
        invariant Valid() && rfeeds != [] && Known(Abs(), rfeeds)
        invariant FeedBack(Abs(), dummy, rfeeds, revents) == FeedBack(old(Abs()), dummy, old(rfeeds), revents)
        decreases |rfeeds|
      {
        FeedLast(revents);
        if rfeeds == [] {
          break;
        }
      }
      NothingToFeed(revents);
    }

    lemma NothingToFeed(revents: bv32)
      requires Valid() && Known(Abs(), [])
      ensures FeedBack(Abs(), dummy, [], revents) == Abs()
    {
    }

    /** One round of `feed_reverse_done`. */
    method FeedLast(revents: bv32)
      requires Valid() && rfeeds != [] && Known(Abs(), rfeeds)
      modifies this`rfeeds, this`pendings, this`pendingpri, this`hist, all`pending
      ensures Valid() && rfeeds == old(rfeeds)[..|old(rfeeds)| - 1] && Known(Abs(), rfeeds)
      ensures FeedBack(Abs(), dummy, rfeeds, revents) == FeedBack(old(Abs()), dummy, old(rfeeds), revents)
    {
      hide Ok, Feed;
      var w := rfeeds[|rfeeds| - 1];
      assert w in Slot() && Prio()[w] == w.Pri();
      rfeeds := rfeeds[..|rfeeds| - 1];
      FeedKeeps(Abs(), dummy, w, revents);
      FeedEvent(w, revents);
    }

    lemma ClearedIs(w: Watcher)
      requires Valid() && w in all
      ensures w.pending == 0 <==> Owed(hist, w) == Nothing
    {
      assert w in Slot() && DebtOk(Abs(), w);
    }

    /** The first two statements of the inner loop of `ev_invoke_pending`. */
    method TakeTop() returns (p: Pending)
      requires Valid() && 0 <= pendingpri < NUMPRI && pendings[pendingpri] != []
      requires EmptyFrom(pendings, pendingpri + 1)
      modifies this`pendings, this`hist, all`pending, dummy`pending
      ensures Valid() && Abs() == Pop(old(Abs()), dummy, pendingpri)
      ensures p == old(pendings[pendingpri][|pendings[pendingpri]| - 1])
    {
      PopKeeps(Abs(), dummy, pendingpri);
      var top := |pendings[pendingpri]| - 1;
      assert SlotOk(Abs(), dummy, pendingpri, top);
      p := pendings[pendingpri][top];
      pendings := pendings[pendingpri := pendings[pendingpri][..top]];
      p.w.pending := 0;
      if p.w == dummy {
        assert Slot() == old(Slot());
      } else {
        hist := hist + [Invoked(p.w, pendingpri, p.events)];
        assert Slot() == old(Slot())[p.w := 0];
      }
    }

    ghost predicate ActsOk(acts: seq<Action>)
      reads this`all, all`priority
    {
      forall i :: 0 <= i < |acts| ==>
        && (acts[i].DoFeed? ==> acts[i].w in all && 0 <= acts[i].w.Pri() < NUMPRI)
        && (acts[i].DoClear? ==> acts[i].w in all)
    }

    ghost predicate ScriptOk(script: Script)
      reads this`all, all`priority
    {
      forall i :: 0 <= i < |script| ==> ActsOk(script[i])
    }

    /** What is left to do: it bounds the number of invocations still to come. */
    ghost function Work(script: Script, at: nat): nat
      requires at <= |script| && |pendings| == NUMPRI
      reads this`pendings
    {
      2 * SizeFrom(script, at) + Queued(pendings)
    }

    /** What one statement of a callback does to the queues. */
    method RunAction(act: Action, script: Script, at: nat) returns (next: nat, ghost ops: seq<Op>)
      requires Valid() && ActsOk([act]) && ScriptOk(script) && at <= |script|
      requires 0 <= pendingpri < |pendings| == NUMPRI && EmptyFrom(pendings, pendingpri + 1)
      modifies this`pendings, this`pendingpri, this`hist, all`pending, dummy`pending
      ensures Valid() && hist == old(hist) + ops && CarriedOut([act], script, at, next, Prio(), ops)
      ensures 0 <= pendingpri < |pendings| == NUMPRI && EmptyFrom(pendings, pendingpri + 1)
      ensures Work(script, next) <= old(Work(script, at)) + 1
      decreases Work(script, at) + 2, 0
    {
      hide Ok, Owed, ScriptOk, CarriedOut;
      assert act == [act][0];
      next := at;
      match act
      case DoFeed(w, events) =>
        FeedEvent(w, events);
        ops := [Fed(w, w.Pri(), events)];
        OneDone(act, script, at, Prio(), ops[0]);
      case DoClear(w) =>
        var _ := ClearPending(w);
        ops := [Cleared(w)];
        OneDone(act, script, at, Prio(), ops[0]);
      case DoInvokePending =>
        next, ops := InvokePending(script, at);
        NestedDone(script, at, next, Prio(), ops);
    }

    /** The body of a callback: exactly what it asks for happens to the queues, and what the
        callbacks it has invoked itself ask for. */
    method RunActions(acts: seq<Action>, script: Script, at: nat) returns (next: nat, ghost ops: seq<Op>)
      requires Valid() && ActsOk(acts) && ScriptOk(script) && at <= |script|
      requires 0 <= pendingpri < |pendings| == NUMPRI && EmptyFrom(pendings, pendingpri + 1)
      modifies this`pendings, this`pendingpri, this`hist, all`pending, dummy`pending
      ensures Valid() && hist == old(hist) + ops && CarriedOut(acts, script, at, next, Prio(), ops)
      ensures 0 <= pendingpri < |pendings| == NUMPRI && EmptyFrom(pendings, pendingpri + 1)
      ensures Work(script, next) <= old(Work(script, at)) + |acts|
      ensures acts == [] ==> next == at && hist == old(hist) && pendings == old(pendings) && pendingpri == old(pendingpri)
      decreases Work(script, at) + 2 * |acts|, 1
    {
      hide Ok, ScriptOk, CarriedOut, Owed;
      ghost var prio := Prio();
      next, ops := at, [];
      NothingDone(script, at, prio);
      for i := 0 to |acts|
        invariant Valid() && hist == old(hist) + ops && Prio() == prio
        invariant next <= |script| && CarriedOut(acts[..i], script, at, next, prio, ops)
        invariant 0 <= pendingpri < |pendings| == NUMPRI && EmptyFrom(pendings, pendingpri + 1)
        invariant Work(script, next) <= old(Work(script, at)) + i
        invariant acts == [] ==> next == at && hist == old(hist) && pendings == old(pendings) && pendingpri == old(pendingpri)
      {
        ghost var mid, more := next, ops;
        next, more := RunAction(acts[i], script, next);
        Bounded([acts[i]], script, mid, next, prio, more);
        ThenDone(acts[..i], [acts[i]], script, at, mid, next, prio, ops, more);
        assert acts[..i] + [acts[i]] == acts[..i + 1];
        ops := ops + more;
      }
      assert acts[..|acts|] == acts;
    }

    /** `EV_CB_INVOKE` on the top of the current queue; the dummy's callback does nothing. */
    method InvokeTop(script: Script, at: nat) returns (next: nat, ghost ops: seq<Op>)
      requires Valid() && ScriptOk(script) && at <= |script|
      requires 0 <= pendingpri < |pendings| == NUMPRI && EmptyFrom(pendings, pendingpri + 1)
      requires pendings[pendingpri] != []
      modifies this`pendings, this`pendingpri, this`hist, all`pending, dummy`pending
      ensures Valid() && hist == old(hist) + ops && CarriedOut([], script, at, next, Prio(), ops)
      ensures 0 <= pendingpri < |pendings| == NUMPRI && EmptyFrom(pendings, pendingpri + 1)
      ensures next <= |script| && Work(script, next) < old(Work(script, at))
      ensures SizeFrom(script, at) == 0 ==>
        && SizeFrom(script, next) == 0 && pendingpri == old(pendingpri)
        && hist + Drain(pendings, pendingpri + 1, dummy) == old(hist + Drain(pendings, pendingpri + 1, dummy))
      decreases Work(script, at), 1
    {
      hide Ok, ActsOk, Drain, CarriedOut, Owed;
      DrainPop(Abs(), dummy, pendingpri);
      ghost var pri := pendingpri;
      var p := TakeTop();
      next, ops := at, [];
      if p.w == dummy {
        NothingDone(script, at, Prio());
      } else {
        ghost var call := Invoked(p.w, pri, p.events);
        if at == |script| {
          ops := [call];
          LastCallDone(script, Prio(), call);
        } else {
          next, ops := RunActions(script[at], script, at + 1);
          Bounded(script[at], script, at + 1, next, Prio(), ops);
          CallDone(script, at, next, Prio(), call, ops);
          ops := [call] + ops;
        }
      }
    }

    lemma Bounded(acts: seq<Action>, script: Script, at: nat, next: nat, prio: map<Watcher, int>, ops: seq<Op>)
      requires CarriedOut(acts, script, at, next, prio, ops)
      ensures at <= next <= |script|
    {
    }

    /** The inner loop of `ev_invoke_pending`: it ends with an empty queue, at this priority or,
        when a callback has fed a watcher above it, at that one's. */
    method InvokeLevel(script: Script, at: nat) returns (next: nat, ghost ops: seq<Op>)
      requires Valid() && ScriptOk(script) && at <= |script|
      requires 0 <= pendingpri < |pendings| == NUMPRI && EmptyFrom(pendings, pendingpri + 1)
      modifies this`pendings, this`pendingpri, this`hist, all`pending, dummy`pending
      ensures Valid() && hist == old(hist) + ops && CarriedOut([], script, at, next, Prio(), ops)
      ensures 0 <= pendingpri < |pendings| == NUMPRI && EmptyFrom(pendings, pendingpri)
      ensures next <= |script| && Work(script, next) <= old(Work(script, at))
      ensures Work(script, next) == old(Work(script, at)) ==> pendingpri == old(pendingpri)
      ensures SizeFrom(script, at) == 0 ==>
        && SizeFrom(script, next) == 0
        && hist + Drain(pendings, pendingpri + 1, dummy) == old(hist + Drain(pendings, pendingpri + 1, dummy))
      decreases Work(script, at), 2
    {
      hide Ok, Owed, ScriptOk, Drain, CarriedOut;
      ghost var prio := Prio();
      next, ops := at, [];
      NothingDone(script, at, prio);
      while pendings[pendingpri] != []
        invariant Valid() && hist == old(hist) + ops && Prio() == prio
        invariant next <= |script| && CarriedOut([], script, at, next, prio, ops)
        invariant 0 <= pendingpri < |pendings| == NUMPRI && EmptyFrom(pendings, pendingpri + 1)
        invariant Work(script, next) < old(Work(script, at)) || (next == at && ops == [] && pendings == old(pendings) && pendingpri == old(pendingpri))
        invariant SizeFrom(script, at) == 0 ==>
          && SizeFrom(script, next) == 0
          && hist + Drain(pendings, pendingpri + 1, dummy) == old(hist + Drain(pendings, pendingpri + 1, dummy))
        decreases Work(script, next)
      {
        ghost var mid, more := next, ops;
        next, more := InvokeTop(script, next);
        CallsDone(script, at, mid, next, prio, ops, more);
        ops := ops + more;
      }
    }

    /** `ev_invoke_pending`: whatever the callbacks feed, clear or invoke themselves, every
        queue is empty afterwards, and nothing has happened to the queues but calls and exactly
        what the callbacks ask for. Without such actions the watchers that were pending are
        invoked by falling priority, and last in, first out within a priority. */
    method InvokePending(script: Script, at: nat) returns (next: nat, ghost ops: seq<Op>)
      requires Valid() && |pendings| == NUMPRI && ScriptOk(script) && at <= |script|
      modifies this`pendings, this`pendingpri, this`hist, all`pending, dummy`pending
      ensures Valid() && |pendings| == NUMPRI && EmptyFrom(pendings, 0) && pendingpri == 0
      ensures hist == old(hist) + ops && CarriedOut([], script, at, next, Prio(), ops)
      ensures next <= |script| && Work(script, next) <= old(Work(script, at))
      ensures SizeFrom(script, at) == 0 ==> hist == old(hist) + Drain(old(pendings), NUMPRI, dummy)
      decreases Work(script, at), 3
    {
      hide Ok, Owed, ScriptOk, Drain, CarriedOut, Loop.Abs, Loop.Prio;
      ghost var prio := Prio();
      next, ops := at, [];
      NothingDone(script, at, prio);
      pendingpri := NUMPRI;
      while true
        invariant Valid() && hist == old(hist) + ops && Prio() == prio
        invariant next <= |script| && CarriedOut([], script, at, next, prio, ops)
        invariant 0 < pendingpri <= |pendings| == NUMPRI && EmptyFrom(pendings, pendingpri)
        invariant Work(script, next) <= old(Work(script, at))
        invariant SizeFrom(script, at) == 0 ==>
          && SizeFrom(script, next) == 0
          && hist + Drain(pendings, pendingpri, dummy) == old(hist) + Drain(old(pendings), NUMPRI, dummy)
        decreases Work(script, next), pendingpri
      {
        pendingpri := pendingpri - 1;
        ghost var mid, more := next, ops;
        next, more := InvokeLevel(script, next);
        CallsDone(script, at, mid, next, prio, ops, more);
        ops := ops + more;
        DrainEmptyTop(pendings, pendingpri, dummy);
        if pendingpri == 0 {
          break;
        }
      }
    }

    /** A watcher that was owed something before, and that no callback feeds or clears, has been
        called exactly once, with exactly what it was owed. */
    lemma PendingAreCalled(before: seq<Op>, script: Script, at: nat, next: nat, ops: seq<Op>, w: Watcher)
      requires Valid() && hist == before + ops && CarriedOut([], script, at, next, Prio(), ops)
      requires EmptyFrom(pendings, 0) && w in all && Spares(script, w) && Owed(before, w).Debt?
      ensures CalledOnce(hist, |before|, w)
    {
      EmptyMeansPaid(Abs(), dummy, w);
      SparedIsUntouched(before, script, at, next, Prio(), ops, w);
      assert hist[..|before|] == before;
      DebtsAreCalled(hist, |before|, w);
    }

    /** A pending watcher goes before every pending one of lower priority. */
    lemma HigherPriorityIsAhead(u: Watcher, v: Watcher)
      requires Valid() && u in all && v in all && u.pending > 0 && v.pending > 0 && u.priority > v.priority
      ensures Ahead(hist, u, v)
    {
      hide Since, AllFair;
      assert DebtOk(Abs(), u) && DebtOk(Abs(), v);
      assert Slot()[u] == u.pending && Slot()[v] == v.pending && Prio()[u] == u.Pri() && Prio()[v] == v.Pri();
    }

    /** Of two watchers that were owed something before, and that no callback feeds or clears, the
        one that goes before the other has been called first. */
    lemma PendingAreCalledInOrder(before: seq<Op>, script: Script, at: nat, next: nat, ops: seq<Op>, u: Watcher, v: Watcher)
      requires Valid() && hist == before + ops && CarriedOut([], script, at, next, Prio(), ops) && EmptyFrom(pendings, 0)
      requires u in all && v in all && Spares(script, u) && Spares(script, v) && Ahead(before, u, v)
      ensures CalledOnce(hist, |before|, u) && CalledOnce(hist, |before|, v)
      ensures FirstOn(hist, |before|, u) < FirstOn(hist, |before|, v)
    {
      PendingAreCalled(before, script, at, next, ops, u);
      PendingAreCalled(before, script, at, next, ops, v);
      assert hist[..|before|] == before;
      hide CalledOnce, Spares, CarriedOut, Ahead;
      CalledInOrder(hist, |before|, u, v);
    }

    // ---------- starting and stopping ----------

    lemma InactiveIs(w: Watcher)
      requires Counted()
      ensures running <= all && (w in all ==> (w.active == 0 <==> w !in running))
    {
    }

    lemma HistIs()
      ensures Abs().hist == hist
    {
    }

    /** Moving an active watcher to another index does not change the count. */
    twostate lemma CountedKept()
      requires old(Counted()) && unchanged(this`activecnt, this`running, this`refs, this`all)
      requires forall w :: w in all && w.active != old(w.active) ==> w.active != 0 && w in running
      ensures Counted()
    {
    }

    /** `ev_ref` */
    method Ref()
      requires Counted()
      modifies this`activecnt, this`refs
      ensures Counted() && activecnt == old(activecnt) + 1 && refs == old(refs) + 1
    {
      activecnt := activecnt + 1;
      refs := refs + 1;
    }

    /** `ev_unref` */
    method Unref()
      requires Counted()
      modifies this`activecnt, this`refs
      ensures Counted() && activecnt == old(activecnt) - 1 && refs == old(refs) - 1
    {
      activecnt := activecnt - 1;
      refs := refs - 1;
    }

    /** `pri_adjust`: a pending watcher has a valid priority already. */
    method PriAdjust(w: Watcher)
      requires Valid() && w in all
      modifies w`priority
      ensures Valid() && 0 <= w.Pri() < NUMPRI
      ensures w.priority == Clamp(old(w.priority)) && (old(w.pending) > 0 ==> w.priority == old(w.priority))
    {
      hide Ok;
      PrioKeeps(Abs(), dummy, w, Clamp(w.priority) - EV_MINPRI);
      assert Slot()[w] == w.pending && Prio()[w] == w.Pri();
      var pri := w.priority;
      pri := if pri < EV_MINPRI then EV_MINPRI else pri;
      pri := if pri > EV_MAXPRI then EV_MAXPRI else pri;
      w.priority := pri;
      assert Prio() == old(Prio())[w := w.Pri()];
    }

    /** `ev_start` */
    method EvStart(w: Watcher, active: int)
      requires Valid() && Counted() && w in all && w.active == 0 && active != 0
      modifies this`activecnt, this`running, w`active, w`priority
      ensures Valid() && Counted() && running == old(running) + {w} && activecnt == old(activecnt) + 1
      ensures w.active == active && w.priority == Clamp(old(w.priority)) && 0 <= w.Pri() < NUMPRI
      ensures EV_MINPRI <= w.priority <= EV_MAXPRI
      ensures forall p :: EV_MINPRI <= p <= EV_MAXPRI ==> Distance(w.priority, old(w.priority)) <= Distance(p, old(w.priority))
    {
      ClampIsNearest(w.priority);
      hide Ok, Loop.Valid, Clamp, Distance;
      PriAdjust(w);
      w.active := active;
      activecnt := activecnt + 1;
      running := running + {w};
    }

    /** `ev_stop` */
    method EvStop(w: Watcher)
      requires Counted() && w in all && w.active != 0
      modifies this`activecnt, this`running, w`active
      ensures Counted() && running == old(running) - {w} && activecnt == old(activecnt) - 1 && w.active == 0
    {
      activecnt := activecnt - 1;
      w.active := 0;
      running := running - {w};
    }
  }
}
