/** What walking a descriptor's watcher list does to the pending queues. */
module Delivery {
  import opened Events
  import opened Watchers
  import opened Queues
  import opened ReverseFeed

  const FAILED: bv32 := EV_ERROR | (DIRECTIONS as bv32)

  function Wanted(mask: bv8, revents: bv32): bv32 { (mask as bv32) & revents }

  // ---------- fd_event_nocheck ----------

  /** Every watcher of the list that wants some of the events is fed those, head first. */
  ghost function FeedEach(s: Queues, dummy: Watcher, list: seq<Watcher>, masks: map<Watcher, bv8>, revents: bv32): (r: Queues)
    requires Ok(s, dummy) && Known(s, list) && forall i :: 0 <= i < |list| ==> list[i] in masks
    ensures Ok(r, dummy) && r.slot.Keys == s.slot.Keys && r.prio == s.prio
  {
    if list == [] then s
    else
      var n := |list| - 1;
      var r := FeedEach(s, dummy, list[..n], masks, revents);
      var ev := Wanted(masks[list[n]], revents);
      if ev == 0 then r
      else
        FeedKeeps(r, dummy, list[n], ev);
        Feed(r, list[n], ev)
  }

  lemma FeedEachStep(s: Queues, dummy: Watcher, list: seq<Watcher>, masks: map<Watcher, bv8>, revents: bv32, k: nat)
    requires Ok(s, dummy) && Known(s, list) && k < |list| && forall i :: 0 <= i < |list| ==> list[i] in masks
    ensures var r := FeedEach(s, dummy, list[..k], masks, revents);
      && list[k] in r.slot && r.prio.Keys == r.slot.Keys && 0 <= r.prio[list[k]] < NUMPRI == |r.q|
      && r.slot[list[k]] <= |r.q[r.prio[list[k]]]|
    ensures var r, ev := FeedEach(s, dummy, list[..k], masks, revents), Wanted(masks[list[k]], revents);
      FeedEach(s, dummy, list[..k + 1], masks, revents) == if ev == 0 then r else Feed(r, list[k], ev)
  {
    var r := FeedEach(s, dummy, list[..k], masks, revents);
    FeedKeeps(r, dummy, list[k], 1);
    var list' := list[..k + 1];
    hide Wanted, Feed;
    assert list'[..k] == list[..k] && list'[k] == list[k] && |list'| == k + 1;
  }

  /** `s` is what has become of `s0` after the first `k` watchers. */
  ghost predicate FedTo(s: Queues, s0: Queues, dummy: Watcher, list: seq<Watcher>, masks: map<Watcher, bv8>, revents: bv32, k: nat) {
    && Ok(s0, dummy) && Known(s0, list) && k <= |list| && (forall i :: 0 <= i < |list| ==> list[i] in masks)
    && s == FeedEach(s0, dummy, list[..k], masks, revents)
  }

  lemma FedNext(s: Queues, s0: Queues, dummy: Watcher, list: seq<Watcher>, masks: map<Watcher, bv8>, revents: bv32, k: nat)
    requires FedTo(s, s0, dummy, list, masks, revents, k) && k < |list|
    ensures list[k] in masks && list[k] in s.slot && list[k] in s.prio && 0 <= s.prio[list[k]] < |s.q| == NUMPRI
    ensures s.slot[list[k]] <= |s.q[s.prio[list[k]]]|
    ensures var ev := Wanted(masks[list[k]], revents);
      FedTo(if ev == 0 then s else Feed(s, list[k], ev), s0, dummy, list, masks, revents, k + 1)
  {
    FeedEachStep(s0, dummy, list, masks, revents, k);
  }

  /** A watcher of the list is owed exactly the events it wants on top of what it was owed;
      the others are not affected. */
  lemma {:induction false} FeedEachOwed(s: Queues, dummy: Watcher, list: seq<Watcher>, masks: map<Watcher, bv8>, revents: bv32, w: Watcher)
    requires Ok(s, dummy) && Known(s, list) && forall i :: 0 <= i < |list| ==> list[i] in masks
    requires forall i, j :: 0 <= i < j < |list| ==> list[i] != list[j]
    ensures Owed(FeedEach(s, dummy, list, masks, revents).hist, w) ==
      if w in list && Wanted(masks[w], revents) != 0
      then After(Owed(s.hist, w), Fed(w, s.prio[w], Wanted(masks[w], revents)), w)
      else Owed(s.hist, w)
  {
    hide Wanted, After, Owed;
    if list != [] {
      var n := |list| - 1;
      FeedEachOwed(s, dummy, list[..n], masks, revents, w);
      FeedEachStep(s, dummy, list, masks, revents, n);
      assert list[..n + 1] == list;
      var r, ev := FeedEach(s, dummy, list[..n], masks, revents), Wanted(masks[list[n]], revents);
      assert w in list <==> w == list[n] || w in list[..n];
      assert list[n] !in list[..n];
      if ev != 0 {
        OwedAppend(r.hist, Fed(list[n], s.prio[list[n]], ev), w);
        OtherOps(Owed(r.hist, w), Fed(list[n], s.prio[list[n]], ev), w);
      }
    }
  }

  predicate Single(bit: bv32) { bit != 0 && bit & (bit - 1) == 0 }

  lemma WantedHas(mask: bv8, revents: bv32, bit: bv32)
    requires Single(bit)
    ensures Has(Wanted(mask, revents), bit) <==> Has(mask as bv32, bit) && Has(revents, bit)
  {
  }

  lemma NothingHas(bit: bv32)
    ensures !Has(0, bit)
  {
  }

  /** Each bit that was delivered and that a watcher of the list asks for is added to what it is
      owed, and nothing else is added to what anybody is owed. */
  lemma FeedEachBits(s: Queues, dummy: Watcher, list: seq<Watcher>, masks: map<Watcher, bv8>, revents: bv32, w: Watcher, bit: bv32)
    requires Ok(s, dummy) && Known(s, list) && forall i :: 0 <= i < |list| ==> list[i] in masks
    requires forall i, j :: 0 <= i < j < |list| ==> list[i] != list[j]
    requires Single(bit)
    ensures var r := FeedEach(s, dummy, list, masks, revents);
      Has(EventsOf(Owed(r.hist, w)), bit) <==>
        Has(EventsOf(Owed(s.hist, w)), bit) || (w in list && Has(masks[w] as bv32, bit) && Has(revents, bit))
  {
    hide Owed, FeedEach, Has, Join, Wanted, Ok, Single;
    FeedEachOwed(s, dummy, list, masks, revents, w);
    assert !Has(0, bit) by { NothingHas(bit); }
    if w in list {
      WantedHas(masks[w], revents, bit);
      HasJoin(EventsOf(Owed(s.hist, w)), Wanted(masks[w], revents), bit);
    }
  }

  lemma FedToBits(s: Queues, s0: Queues, dummy: Watcher, list: seq<Watcher>, masks: map<Watcher, bv8>, revents: bv32, w: Watcher, bit: bv32)
    requires FedTo(s, s0, dummy, list, masks, revents, |list|) && Single(bit)
    requires forall i, j :: 0 <= i < j < |list| ==> list[i] != list[j]
    ensures w in list ==> w in masks
    ensures Has(EventsOf(Owed(s.hist, w)), bit) <==>
      Has(EventsOf(Owed(s0.hist, w)), bit) || (w in list && Has(masks[w] as bv32, bit) && Has(revents, bit))
  {
    assert list[..|list|] == list;
    hide Single, Has, Owed, FeedEach, Ok;
    FeedEachBits(s0, dummy, list, masks, revents, w, bit);
  }

  lemma OtherOps(d: Debt, op: Op, w: Watcher)
    ensures op.w != w ==> After(d, op, w) == d
  {
  }

  // ---------- fd_kill ----------

  /** The error comes with both directions, so that every watcher of the list is called. */
  lemma FailedHas(bit: bv32)
    requires Single(bit)
    ensures Has(FAILED, bit) <==> bit == EV_ERROR || bit == EV_READ as bv32 || bit == EV_WRITE as bv32
  {
  }

  /** Every watcher of the list is cleared and then fed an error. */
  ghost function Killed(s: Queues, dummy: Watcher, list: seq<Watcher>): (r: Queues)
    requires Ok(s, dummy) && Known(s, list)
    ensures Ok(r, dummy) && r.slot.Keys == s.slot.Keys && r.prio == s.prio
  {
    if list == [] then s
    else
      var n := |list| - 1;
      KillOne(Killed(s, dummy, list[..n]), dummy, list[n])
  }

  ghost function KillOne(s: Queues, dummy: Watcher, w: Watcher): (r: Queues)
    requires Ok(s, dummy) && w in s.slot && w in s.prio && 0 <= s.prio[w] < NUMPRI
    ensures Ok(r, dummy) && r.slot.Keys == s.slot.Keys && r.prio == s.prio
  {
    ClearKeeps(s, dummy, w);
    FeedKeeps(Clear(s, dummy, w), dummy, w, FAILED);
    Feed(Clear(s, dummy, w), w, FAILED)
  }

  /** `s` is what has become of `s0` after the first `k` watchers. */
  ghost predicate KilledTo(s: Queues, s0: Queues, dummy: Watcher, list: seq<Watcher>, k: nat) {
    Ok(s0, dummy) && Known(s0, list) && k <= |list| && s == Killed(s0, dummy, list[..k])
  }

  lemma KilledAll(s: Queues, s0: Queues, dummy: Watcher, list: seq<Watcher>)
    requires KilledTo(s, s0, dummy, list, |list|)
    ensures Ok(s0, dummy) && Known(s0, list) && s == Killed(s0, dummy, list)
  {
    assert list[..|list|] == list;
  }

  lemma KilledNext(s: Queues, s0: Queues, dummy: Watcher, list: seq<Watcher>, k: nat)
    requires KilledTo(s, s0, dummy, list, k) && k < |list| && Ok(s, dummy) && list[k] in s.slot && list[k] in s.prio
    requires 0 <= s.prio[list[k]] < NUMPRI
    ensures KilledTo(KillOne(s, dummy, list[k]), s0, dummy, list, k + 1)
  {
    KilledStep(s0, dummy, list, k);
  }

  lemma KilledStep(s: Queues, dummy: Watcher, list: seq<Watcher>, k: nat)
    requires Ok(s, dummy) && Known(s, list) && k < |list|
    ensures Killed(s, dummy, list[..k + 1]) == KillOne(Killed(s, dummy, list[..k]), dummy, list[k])
  {
    var list' := list[..k + 1];
    assert list'[..k] == list[..k] && list'[k] == list[k] && |list'| == k + 1;
  }

  lemma KillOneOwed(s: Queues, dummy: Watcher, w: Watcher, x: Watcher)
    requires Ok(s, dummy) && w in s.slot && w in s.prio && 0 <= s.prio[w] < NUMPRI
    ensures Owed(KillOne(s, dummy, w).hist, x) == if x == w then Debt(s.prio[w], FAILED) else Owed(s.hist, x)
  {
    ClearKeeps(s, dummy, w);
    OwedAppend(s.hist, Cleared(w), x);
    OwedAppend(Clear(s, dummy, w).hist, Fed(w, s.prio[w], FAILED), x);
  }

  /** Every watcher of the list is owed exactly the error, whatever it was owed before. */
  lemma {:induction false} KilledOwed(s: Queues, dummy: Watcher, list: seq<Watcher>, w: Watcher)
    requires Ok(s, dummy) && Known(s, list)
    ensures Owed(Killed(s, dummy, list).hist, w) == if w in list then Debt(s.prio[w], FAILED) else Owed(s.hist, w)
  {
    hide Ok, Owed, KillOne;
    if list != [] {
      var n := |list| - 1;
      KilledStep(s, dummy, list, n);
      assert list[..n + 1] == list;
      hide Killed;
      KilledOwed(s, dummy, list[..n], w);
      KillOneOwed(Killed(s, dummy, list[..n]), dummy, list[n], w);
      assert w in list <==> w == list[n] || w in list[..n];
    }
  }

  lemma OwedIsPending(s: Queues, dummy: Watcher, w: Watcher)
    requires Ok(s, dummy) && w in s.slot
    ensures s.slot[w] > 0 <==> Owed(s.hist, w).Debt?
  {
    assert DebtOk(s, w);
  }
}
