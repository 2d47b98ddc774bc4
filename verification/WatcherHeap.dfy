/** A heap of watchers as a field pair of `struct ev_loop`: (`timers`, `timercnt`) and
    (`periodics`, `periodiccnt`). */
module WatcherHeaps {
  import opened Watchers
  import opened FourHeap
  import Growth

  // ---------- which watchers a tree holds ----------

  /** The entries of `t` are exactly the watchers of `times`, with their times. */
  ghost predicate Holds(t: seq<ANHE>, times: map<Watcher, real>) {
    && (forall i :: 0 <= i < |t| ==> t[i].w in times && t[i].at == times[t[i].w])
    && (forall w :: w in times ==> ANHE(times[w], w) in t)
  }

  ghost predicate Distinct(t: seq<ANHE>) {
    forall i, j :: 0 <= i < j < |t| ==> t[i].w != t[j].w
  }

  lemma HoldsPermuted(t: seq<ANHE>, s: seq<ANHE>, times: map<Watcher, real>)
    requires Holds(t, times) && multiset(s) == multiset(t)
    ensures Holds(s, times)
  {
    forall i | 0 <= i < |s|
      ensures s[i] in t
    {
      assert s[i] in multiset(s);
    }
    forall w | w in times
      ensures ANHE(times[w], w) in s
    {
      assert ANHE(times[w], w) in multiset(t);
    }
  }

  lemma HoldsAppend(t: seq<ANHE>, times: map<Watcher, real>, e: ANHE)
    requires Holds(t, times) && e.w !in times
    ensures Holds(t + [e], times[e.w := e.at])
  {
    var s := t + [e];
    assert s[|t|] == e;
    forall w | w in times
      ensures ANHE(times[w], w) in s
    {
      var i :| 0 <= i < |t| && t[i] == ANHE(times[w], w);
      assert s[i] == t[i];
    }
  }

  lemma HoldsReplace(t: seq<ANHE>, times: map<Watcher, real>, k: nat, at: real)
    requires Holds(t, times) && Distinct(t) && k < |t|
    ensures Holds(t[k := ANHE(at, t[k].w)], times[t[k].w := at])
  {
    var s := t[k := ANHE(at, t[k].w)];
    assert s[k] == ANHE(at, t[k].w);
    forall w | w in times && w != t[k].w
      ensures ANHE(times[w], w) in s
    {
      var i :| 0 <= i < |t| && t[i] == ANHE(times[w], w);
      assert s[i] == t[i];
    }
  }

  /** Dropping entry `k` by moving the last entry into its place. */
  function DropEntry(t: seq<ANHE>, k: nat): seq<ANHE>
    requires k < |t|
  {
    if k == |t| - 1 then t[..k] else t[..|t| - 1][k := t[|t| - 1]]
  }

  lemma HoldsDrop(t: seq<ANHE>, times: map<Watcher, real>, k: nat)
    requires Holds(t, times) && Distinct(t) && k < |t|
    ensures Holds(DropEntry(t, k), times - {t[k].w})
  {
    var s := DropEntry(t, k);
    forall w | w in times && w != t[k].w
      ensures ANHE(times[w], w) in s
    {
      var i :| 0 <= i < |t| && t[i] == ANHE(times[w], w);
      assert if i == |t| - 1 then s[k] == t[i] else s[i] == t[i];
    }
  }

  /** `ev_timer_stop` on a tree: drop the entry, then adjust where it was. */
  function Delete(t: seq<ANHE>, k: nat): seq<ANHE>
    requires k < |t|
  {
    if k == |t| - 1 then t[..k] else Adjust(DropEntry(t, k), k)
  }

  lemma DeleteKeeps(t: seq<ANHE>, times: map<Watcher, real>, k: nat)
    requires IsHeap(t) && Holds(t, times) && Distinct(t) && k < |t|
    ensures var r := Delete(t, k);
      IsHeap(r) && Holds(r, times - {t[k].w}) && |r| == |t| - 1
  {
    HoldsDrop(t, times, k);
    var s := t[..|t| - 1];
    assert IsHeap(s) by {
      forall i {:trigger Parent(i)} | 0 < i < |s|
        ensures s[Parent(i)].at <= s[i].at
      {
        assert t[Parent(i)].at <= t[i].at;
      }
    }
    if k < |t| - 1 {
      AdjustHeap(s, k, t[|t| - 1]);
      HoldsPermuted(DropEntry(t, k), Delete(t, k), times - {t[k].w});
    }
  }

  lemma InsertKeeps(t: seq<ANHE>, times: map<Watcher, real>, e: ANHE)
    requires IsHeap(t) && Holds(t, times) && e.w !in times
    ensures var s := Up(t + [e], |t|);
      IsHeap(s) && Holds(s, times[e.w := e.at]) && |s| == |t| + 1
  {
    var s := t + [e];
    HoldsAppend(t, times, e);
    UpKeeps(s, |t|);
    assert s[..|t|] == t;
    UpExtends(s, |t|);
    assert Up(s, |t|)[..|t| + 1] == Up(s, |t|);
    HoldsPermuted(s, Up(s, |t|), times[e.w := e.at]);
  }

  lemma ReplaceKeeps(t: seq<ANHE>, times: map<Watcher, real>, k: nat, at: real)
    requires IsHeap(t) && Holds(t, times) && Distinct(t) && k < |t|
    ensures var s := Adjust(t[k := ANHE(at, t[k].w)], k);
      IsHeap(s) && Holds(s, times[t[k].w := at]) && |s| == |t|
  {
    AdjustHeap(t, k, ANHE(at, t[k].w));
    HoldsReplace(t, times, k, at);
    HoldsPermuted(t[k := ANHE(at, t[k].w)], Adjust(t[k := ANHE(at, t[k].w)], k), times[t[k].w := at]);
  }

  class WatcherHeap {
    var heap: array<ANHE>
    var cnt: nat
    ghost var members: set<Watcher>

    ghost function Times(): map<Watcher, real>
      reads this`members, members`at
    {
      map w | w in members :: w.at
    }

    /** Indices that point back, and cached times `times`. */
    ghost predicate Stored(times: map<Watcher, real>)
      reads this, heap, members`active
    {
      && HEAP0 + cnt <= heap.Length
      && times.Keys == members
      && Indexed(heap, cnt, members, -1, null)
      && Holds(Tree(heap, cnt), times)
    }

    /** The same in heap order. */
    ghost predicate ValidAs(times: map<Watcher, real>)
      reads this, heap, members`active
    {
      Stored(times) && IsHeap(Tree(heap, cnt))
    }

    ghost predicate Valid()
      reads this, heap, members`active, members`at
    {
      ValidAs(Times())
    }

    /** The elements before `HEAP0` are never used; here they hold `filler`. */
    constructor (filler: Watcher)
      ensures Valid() && members == {} && cnt == 0 && fresh(heap)
    {
      heap := new ANHE[HEAP0](_ => ANHE(0.0, filler));
      cnt, members := 0, {};
    }

    /** Every member knows where its entry is, and the entry caches its time. */
    lemma WhereIs(w: Watcher, times: map<Watcher, real>)
      requires Stored(times) && w in members
      ensures HEAP0 <= w.active < HEAP0 + cnt && heap[w.active] == ANHE(times[w], w)
      ensures Tree(heap, cnt)[w.active - HEAP0] == heap[w.active] && |Tree(heap, cnt)| == cnt
    {
      var t := Tree(heap, cnt);
      var i :| 0 <= i < |t| && t[i] == ANHE(times[w], w);
      assert heap[i + HEAP0] == t[i];
    }

    /** `array_needsize` */
    method NeedSize(size: nat, filler: Watcher)
      requires HEAP0 + cnt <= heap.Length
      modifies this`heap
      ensures heap == old(heap) || fresh(heap)
      ensures size <= heap.Length && HEAP0 + cnt <= heap.Length
      ensures Tree(heap, cnt) == old(Tree(heap, cnt))
      ensures forall i :: HEAP0 <= i < HEAP0 + cnt ==> heap[i] == old(heap[i])
    {
      if size > heap.Length {
        var ncur := Growth.ArrayNextsize(16, heap.Length, size);
        var bigger := new ANHE[ncur](i requires 0 <= i reads this, heap =>
          if i < heap.Length then heap[i] else ANHE(0.0, filler));
        assert bigger[HEAP0..HEAP0 + cnt] == heap[HEAP0..HEAP0 + cnt];
        heap := bigger;
      }
    }

    /** The part of `ev_timer_start` and `ev_periodic_start` after `ev_start`. */
    method Insert(w: Watcher)
      requires Valid() && w !in members && w.active == cnt + HEAP0
      modifies this, heap, members`active, w`active
      ensures Valid() && members == old(members) + {w} && cnt == old(cnt) + 1
      ensures heap == old(heap) || fresh(heap)
    {
      hide IsHeap, Holds, Up;
      ghost var t, times := Tree(heap, cnt), Times();
      InsertKeeps(t, times, ANHE(w.at, w));
      NeedSize(w.active + 1, w);
      heap[w.active] := ANHE(w.at, w);
      cnt := cnt + 1;
      members := members + {w};
      assert Tree(heap, cnt) == t + [ANHE(w.at, w)];
      Upheap(heap, w.active, cnt, members);
      assert Times() == times[w := w.at];
    }

    /** The array work of `ev_timer_stop` and `ev_periodic_stop`. */
    method Vacate(active: int, ghost S: set<Watcher>)
      requires cnt > 0 && HEAP0 + cnt <= heap.Length && HEAP0 <= active < HEAP0 + cnt
      requires Indexed(heap, cnt, S + {heap[active].w}, -1, null) && heap[active].w !in S
      modifies this`cnt, heap, S`active
      ensures cnt == old(cnt) - 1
      ensures Tree(heap, cnt) == Delete(old(Tree(heap, cnt)), active - HEAP0)
      ensures Indexed(heap, cnt, S, -1, null)
    {
      hide Adjust;
      ghost var t, w := Tree(heap, cnt), heap[active].w;
      cnt := cnt - 1;
      if active < cnt + HEAP0 {
        heap[active] := heap[cnt + HEAP0];
        assert Tree(heap, cnt) == DropEntry(t, active - HEAP0);
        Adjustheap(heap, cnt, active, S);
      }
    }

    /** The part of `ev_timer_stop` and `ev_periodic_stop` that takes the watcher out. */
    method Remove(w: Watcher)
      requires Valid() && w in members
      modifies this, heap, members`active
      ensures Valid() && members == old(members) - {w} && cnt == old(cnt) - 1
      ensures heap == old(heap) && w.active == old(w.active)
    {
      hide IsHeap, Holds, Delete;
      ghost var t, times := Tree(heap, cnt), Times();
      var active := w.active;
      WhereIs(w, times);
      DeleteKeeps(t, times, active - HEAP0);
      members := members - {w};
      assert members + {w} == old(members);
      Vacate(active, members);
      assert Times() == times - {w};
    }

    /** `ANHE_at_cache` and `adjustheap` after a member's time has changed. */
    method Reposition(w: Watcher, ghost times: map<Watcher, real>)
      requires ValidAs(times) && w in members && Times() == times[w := w.at]
      modifies heap, members`active
      ensures Valid()
    {
      hide IsHeap, Holds, Adjust;
      ghost var t := Tree(heap, cnt);
      WhereIs(w, times);
      ReplaceKeeps(t, times, w.active - HEAP0, w.at);
      var k := w.active;
      heap[k] := ANHE(w.at, heap[k].w);
      assert Tree(heap, cnt) == t[k - HEAP0 := ANHE(w.at, w)];
      Adjustheap(heap, cnt, k, members);
    }

    /** `ANHE_at_cache` and `downheap` on the root after its time has changed. */
    method SinkRoot(ghost times: map<Watcher, real>)
      requires ValidAs(times) && cnt > 0 && heap[HEAP0].w in members
      requires Times() == times[heap[HEAP0].w := heap[HEAP0].w.at]
      modifies heap, members`active
      ensures Valid()
    {
      hide IsHeap, Holds, Down;
      ghost var t := Tree(heap, cnt);
      ghost var w := heap[HEAP0].w;
      ReplaceKeeps(t, times, 0, w.at);
      heap[HEAP0] := ANHE(heap[HEAP0].w.at, heap[HEAP0].w);
      assert Tree(heap, cnt) == t[0 := ANHE(w.at, w)];
      Downheap(heap, cnt, HEAP0, members);
    }

    /** The entry at the root is the earliest of all, not only of its children; only an empty
        heap has no members. */
    lemma Earliest()
      requires Valid()
      ensures HEAP0 + cnt <= heap.Length && (cnt > 0 <==> members != {})
      ensures cnt > 0 ==>
        && heap[HEAP0].w in members && heap[HEAP0].at == heap[HEAP0].w.at
        && forall w :: w in members ==> heap[HEAP0].at <= w.at
    {
      if cnt > 0 {
        assert Tree(heap, cnt)[0] == heap[HEAP0];
      }
      forall w | w in members
        ensures cnt > 0 && heap[HEAP0].at <= w.at
      {
        WhereIs(w, Times());
        RootIsMin(Tree(heap, cnt), w.active - HEAP0);
      }
    }

    lemma AllActive()
      requires Valid()
      ensures forall w :: w in members ==> w.active >= HEAP0
    {
      forall w | w in members
        ensures w.active >= HEAP0
      {
        WhereIs(w, Times());
      }
    }

    /** A new time for the watcher at index `i`, and `ANHE_at_cache`; nothing moves. */
    method SetTime(i: int, at: real)
      requires Stored(Times()) && HEAP0 <= i < HEAP0 + cnt
      modifies heap, members`at
      ensures Stored(Times()) && old(heap[i].w) in members
      ensures Tree(heap, cnt) == old(Tree(heap, cnt)[i - HEAP0 := ANHE(at, heap[i].w)])
      ensures Times() == old(Times())[old(heap[i].w) := at]
      ensures forall w :: w in members ==> w.at == if w == old(heap[i].w) then at else old(w.at)
    {
      hide Holds;
      ghost var t, times := Tree(heap, cnt), Times();
      var w := heap[i].w;
      HoldsReplace(t, times, i - HEAP0, at);
      w.at := at;
      heap[i] := ANHE(w.at, w);
      assert Tree(heap, cnt) == t[i - HEAP0 := ANHE(at, w)];
      assert Times() == times[w := at];
    }

    /** `reheap` turns any stored times into a heap. */
    method Rebuild()
      requires Stored(Times())
      modifies heap, members`active
      ensures Valid()
    {
      hide Holds, IsHeap;
      ghost var t := Tree(heap, cnt);
      ReheapHeap(t, 0);
      HoldsPermuted(t, ReheapFrom(t, 0), Times());
      Reheap(heap, cnt, members);
    }

    /** The cache of entry `i` is right. */
    lemma CacheIs(i: int)
      requires Stored(Times()) && HEAP0 <= i < HEAP0 + cnt
      ensures heap[i].w in members && heap[i].at == heap[i].w.at && heap[i].w.active == i
      ensures |Tree(heap, cnt)| == cnt && Tree(heap, cnt)[i - HEAP0] == heap[i]
      ensures forall w :: w in members && w.active == i ==> w == heap[i].w
    {
      forall w | w in members && w.active == i
        ensures w == heap[i].w
      {
        WhereIs(w, Times());
      }
    }

    lemma Fits()
      requires Valid()
      ensures forall w :: w in members ==> w in Times() && HEAP0 <= w.active < HEAP0 + cnt
      ensures HEAP0 + cnt <= heap.Length && Stored(Times()) && IsHeap(Tree(heap, cnt)) && |Tree(heap, cnt)| == cnt
    {
      forall w | w in members
        ensures HEAP0 <= w.active < HEAP0 + cnt
      {
        WhereIs(w, Times());
      }
    }

    /** `timers_reschedule`: the same shift for all times needs no rebuild. */
    method Shift(adjust: real)
      requires Valid()
      modifies heap, members`at
      ensures Valid() && Times().Keys == old(Times()).Keys
      ensures forall w :: w in members ==> w.at == old(w.at) + adjust
    {
      hide Stored, IsHeap, Shifted, Valid, Tree;
      Fits();
      ghost var t := Tree(heap, cnt);
      ShiftStarts(adjust);
      var i := 0;
      while i < cnt
        invariant 0 <= i <= cnt && HEAP0 + cnt <= heap.Length && Shifted(t, i, adjust)
      {
        ShiftOne(t, i, adjust);
        i := i + 1;
      }
      ShiftEnds(t, adjust);
    }

    /** The first `i` entries of `t` are shifted, and their watchers' times with them. */
    ghost predicate Shifted(t: seq<ANHE>, i: nat, adjust: real)
      reads this, heap, members`at, members`active
    {
      && i <= |t| == cnt && HEAP0 + cnt <= heap.Length && Stored(Times()) && |Tree(heap, cnt)| == cnt
      && (forall j :: 0 <= j < i ==> Tree(heap, cnt)[j] == ANHE(t[j].at + adjust, t[j].w))
      && (forall j :: i <= j < cnt ==> Tree(heap, cnt)[j] == t[j])
    }

    lemma ShiftStarts(adjust: real)
      requires Valid() && HEAP0 + cnt <= heap.Length
      ensures var t := Tree(heap, cnt);
        && |t| == cnt && Shifted(t, 0, adjust) && IsHeap(t)
        && forall w :: w in members ==> 0 <= w.active - HEAP0 < cnt && t[w.active - HEAP0].at == w.at
    {
      hide Stored, IsHeap;
      var t := Tree(heap, cnt);
      forall w | w in members
        ensures 0 <= w.active - HEAP0 < cnt && t[w.active - HEAP0] == ANHE(w.at, w)
      {
        WhereIs(w, Times());
      }
    }

    method ShiftOne(ghost t: seq<ANHE>, i: nat, adjust: real)
      requires Shifted(t, i, adjust) && i < cnt && HEAP0 + cnt <= heap.Length
      modifies heap, members`at
      ensures Shifted(t, i + 1, adjust) && HEAP0 + cnt <= heap.Length
    {
      hide Stored;
      CacheIs(i + HEAP0);
      SetTime(i + HEAP0, heap[i + HEAP0].w.at + adjust);
    }

    lemma ShiftEnds(t: seq<ANHE>, adjust: real)
      requires Shifted(t, cnt, adjust) && IsHeap(t)
      ensures Valid()
      ensures forall w :: w in members ==> 0 <= w.active - HEAP0 < cnt && w.at == t[w.active - HEAP0].at + adjust
    {
      hide Stored, IsHeap;
      ShiftKeepsHeap(t, Tree(heap, cnt), adjust);
      forall w | w in members
        ensures 0 <= w.active - HEAP0 < cnt && w.at == t[w.active - HEAP0].at + adjust
      {
        WhereIs(w, Times());
      }
    }
  }
}
