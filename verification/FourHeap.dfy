/** The 4-heap of timers and periodics (`EV_USE_4HEAP`, `EV_HEAP_CACHE_AT`): first as a
    function on sequences, then in place on the array that libev keeps. */
module FourHeap {
  import opened Watchers

  /** A heap element: the cached time and the watcher. */
  datatype ANHE = ANHE(at: real, w: Watcher)

  const DHEAP := 4

  // ---------- the heap as a sequence, root first ----------

  function Parent(i: int): int { (i - 1) / DHEAP }

  /** Heap order. */
  ghost predicate IsHeap(t: seq<ANHE>) {
    forall i {:trigger Parent(i)} :: 0 < i < |t| ==> t[Parent(i)].at <= t[i].at
  }

  /** Heap order except at `k`; the children of `k` do not come before the parent of `k`. */
  ghost predicate HeapBut(t: seq<ANHE>, k: nat) {
    forall i {:trigger Parent(i)} :: 0 < i < |t| ==>
      && (i != k && Parent(i) != k ==> t[Parent(i)].at <= t[i].at)
      && (Parent(i) == k && k > 0 ==> t[Parent(k)].at <= t[i].at)
  }

  ghost predicate NotAboveChildren(t: seq<ANHE>, k: nat)
    requires k < |t|
  {
    forall i {:trigger Parent(i)} :: 0 < i < |t| && Parent(i) == k ==> t[k].at <= t[i].at
  }

  function Swap(t: seq<ANHE>, i: nat, j: nat): seq<ANHE>
    requires i < |t| && j < |t|
  {
    t[i := t[j]][j := t[i]]
  }

  /** `upheap` */
  function Up(t: seq<ANHE>, k: nat): seq<ANHE>
    requires k < |t|
    decreases k
  {
    if k == 0 || t[Parent(k)].at <= t[k].at then t else Up(Swap(t, k, Parent(k)), Parent(k))
  }

  /** The first of the smallest children of `k`. */
  function MinChild(t: seq<ANHE>, k: nat): nat
    requires DHEAP * k + 1 < |t|
  {
    Smallest(t, DHEAP * k + 1, DHEAP * k + 1, if DHEAP * k + 1 + DHEAP < |t| then DHEAP * k + 1 + DHEAP else |t|)
  }

  /** The index of the first minimum of `t[best]` and `t[lo..hi]`. */
  function Smallest(t: seq<ANHE>, best: nat, lo: nat, hi: nat): (r: nat)
    requires best < |t| && lo <= hi <= |t|
    ensures r == best || lo <= r < hi
    ensures t[r].at <= t[best].at && (forall i :: lo <= i < hi ==> t[r].at <= t[i].at)
    decreases hi - lo
  {
    if lo == hi then best
    else Smallest(t, if t[best].at > t[lo].at then lo else best, lo + 1, hi)
  }

  /** `downheap` */
  function Down(t: seq<ANHE>, k: nat): seq<ANHE>
    requires k < |t|
    decreases |t| - k
  {
    if DHEAP * k + 1 >= |t| || t[k].at <= t[MinChild(t, k)].at then t
    else Down(Swap(t, k, MinChild(t, k)), MinChild(t, k))
  }

  /** `adjustheap` */
  function Adjust(t: seq<ANHE>, k: nat): seq<ANHE>
    requires k < |t|
  {
    if k > 0 && t[k].at <= t[Parent(k)].at then Up(t, k) else Down(t, k)
  }

  lemma {:induction false} UpKeeps(t: seq<ANHE>, k: nat)
    requires k < |t|
    ensures |Up(t, k)| == |t| && multiset(Up(t, k)) == multiset(t)
    decreases k
  {
    if k == 0 || t[Parent(k)].at <= t[k].at {
    } else {
      UpKeeps(Swap(t, k, Parent(k)), Parent(k));
    }
  }

  lemma {:induction false} DownKeeps(t: seq<ANHE>, k: nat)
    requires k < |t|
    ensures |Down(t, k)| == |t| && multiset(Down(t, k)) == multiset(t)
    decreases |t| - k
  {
    if DHEAP * k + 1 >= |t| || t[k].at <= t[MinChild(t, k)].at {
    } else {
      DownKeeps(Swap(t, k, MinChild(t, k)), MinChild(t, k));
    }
  }

  lemma UpStep(t: seq<ANHE>, k: nat)
    requires 0 < k < |t| && HeapBut(t, k) && NotAboveChildren(t, k) && t[k].at <= t[Parent(k)].at
    ensures HeapBut(Swap(t, k, Parent(k)), Parent(k))
    ensures NotAboveChildren(Swap(t, k, Parent(k)), Parent(k))
  {
    var p := Parent(k);
    var s := Swap(t, k, p);
    forall i {:trigger Parent(i)} | 0 < i < |s|
      ensures i != p && Parent(i) != p ==> s[Parent(i)].at <= s[i].at
      ensures Parent(i) == p && p > 0 ==> s[Parent(p)].at <= s[i].at
      ensures Parent(i) == p ==> s[p].at <= s[i].at
    {
      assert p > 0 ==> Parent(p) < p;
      if Parent(i) == k {
      } else if i == k {
      } else if Parent(i) == p {
      }
    }
  }

  lemma {:induction false} UpHeap(t: seq<ANHE>, k: nat)
    requires k < |t| && HeapBut(t, k) && NotAboveChildren(t, k)
    ensures IsHeap(Up(t, k))
    decreases k
  {
    if k == 0 || t[Parent(k)].at <= t[k].at {
    } else {
      UpStep(t, k);
      UpHeap(Swap(t, k, Parent(k)), Parent(k));
    }
  }

  lemma DownStep(t: seq<ANHE>, k: nat)
    requires DHEAP * k + 1 < |t| && HeapBut(t, k) && t[MinChild(t, k)].at <= t[k].at
    requires k > 0 ==> t[Parent(k)].at <= t[k].at
    ensures var c := MinChild(t, k); var s := Swap(t, k, c); HeapBut(s, c) && s[Parent(c)].at <= s[c].at
  {
    var c := MinChild(t, k);
    var s := Swap(t, k, c);
    assert Parent(c) == k;
    forall i {:trigger Parent(i)} | 0 < i < |s|
      ensures i != c && Parent(i) != c ==> s[Parent(i)].at <= s[i].at
      ensures Parent(i) == c ==> s[Parent(c)].at <= s[i].at
    {
      if Parent(i) == k {
        assert DHEAP * k + 1 <= i < DHEAP * k + 1 + DHEAP;
        assert t[c].at <= t[i].at;
      } else if i == k {
      }
    }
  }

  lemma {:induction false} DownHeap(t: seq<ANHE>, k: nat)
    requires k < |t| && HeapBut(t, k) && (k > 0 ==> t[Parent(k)].at <= t[k].at)
    ensures IsHeap(Down(t, k))
    decreases |t| - k
  {
    if DHEAP * k + 1 >= |t| {
    } else if t[k].at <= t[MinChild(t, k)].at {
      forall i {:trigger Parent(i)} | 0 < i < |t|
        ensures t[Parent(i)].at <= t[i].at
      {
        if Parent(i) == k {
          assert DHEAP * k + 1 <= i < DHEAP * k + 1 + DHEAP;
        }
      }
    } else {
      DownStep(t, k);
      DownHeap(Swap(t, k, MinChild(t, k)), MinChild(t, k));
    }
  }

  /** Replacing one entry and adjusting there restores heap order. */
  lemma AdjustHeap(t: seq<ANHE>, k: nat, e: ANHE)
    requires k < |t| && IsHeap(t)
    ensures IsHeap(Adjust(t[k := e], k))
    ensures |Adjust(t[k := e], k)| == |t| && multiset(Adjust(t[k := e], k)) == multiset(t[k := e])
  {
    var s := t[k := e];
    forall i {:trigger Parent(i)} | 0 < i < |s|
      ensures i != k && Parent(i) != k ==> s[Parent(i)].at <= s[i].at
      ensures Parent(i) == k && k > 0 ==> s[Parent(k)].at <= s[i].at
      ensures k > 0 && s[k].at <= s[Parent(k)].at && Parent(i) == k ==> s[k].at <= s[i].at
    {
      if Parent(i) == k && k > 0 {
        assert t[Parent(k)].at <= t[k].at <= t[i].at;
      }
    }
    UpKeeps(s, k);
    DownKeeps(s, k);
    if k > 0 && s[k].at <= s[Parent(k)].at {
      UpHeap(s, k);
    } else {
      DownHeap(s, k);
    }
  }

  /** The root is the minimum of the whole heap. */
  lemma {:induction false} RootIsMin(t: seq<ANHE>, i: nat)
    requires IsHeap(t) && i < |t|
    ensures t[0].at <= t[i].at
  {
    if i > 0 {
      RootIsMin(t, Parent(i));
    }
  }

  // ---------- rebuilding ----------

  /** The loop of `reheap` from index `i` on. */
  function ReheapFrom(t: seq<ANHE>, i: nat): seq<ANHE>
    requires i <= |t|
    decreases |t| - i
  {
    if i == |t| then t
    else
      UpKeeps(t, i);
      ReheapFrom(Up(t, i), i + 1)
  }

  lemma {:induction false} UpPrefix(t: seq<ANHE>, k: nat, m: nat)
    requires k < m <= |t|
    ensures |Up(t, k)| == |t| && Up(t, k)[..m] == Up(t[..m], k)
    decreases k
  {
    if k == 0 || t[Parent(k)].at <= t[k].at {
    } else {
      assert Swap(t, k, Parent(k))[..m] == Swap(t[..m], k, Parent(k));
      UpPrefix(Swap(t, k, Parent(k)), Parent(k), m);
    }
  }

  lemma UpExtends(t: seq<ANHE>, i: nat)
    requires i < |t| && IsHeap(t[..i])
    ensures |Up(t, i)| == |t| && IsHeap(Up(t, i)[..i + 1])
  {
    UpPrefix(t, i, i + 1);
    var s := t[..i + 1];
    forall j {:trigger Parent(j)} | 0 < j < |s|
      ensures j != i ==> s[Parent(j)].at <= s[j].at
      ensures Parent(j) != i
    {
      if j != i {
        assert t[..i][Parent(j)].at <= t[..i][j].at;
      }
    }
    UpHeap(s, i);
  }

  /** Whatever the times are, `reheap` turns the entries into a heap of the same entries. */
  lemma {:induction false} ReheapHeap(t: seq<ANHE>, i: nat)
    requires i <= |t| && IsHeap(t[..i])
    ensures var r := ReheapFrom(t, i);
      |r| == |t| && IsHeap(r) && multiset(r) == multiset(t)
    decreases |t| - i
  {
    if i == |t| {
      assert t[..i] == t;
    } else {
      UpKeeps(t, i);
      UpExtends(t, i);
      ReheapHeap(Up(t, i), i + 1);
    }
  }

  /** Moving all times by the same amount keeps heap order, so `timers_reschedule` need not
      rebuild. */
  lemma ShiftKeepsHeap(t: seq<ANHE>, s: seq<ANHE>, adjust: real)
    requires IsHeap(t) && |s| == |t| && forall i :: 0 <= i < |t| ==> s[i].at == t[i].at + adjust
    ensures IsHeap(s)
  {
  }

  // ---------- the heap in place ----------

  const HEAP0 := DHEAP - 1 // index of the first element; the ones before it are not in use

  /** C's division of an `int` by a positive `int`, which truncates towards zero. */
  function CDiv(a: int, b: int): int
    requires b > 0
  {
    if a >= 0 then a / b else -((-a) / b)
  }

  function HPARENT(k: int): int { CDiv(k - HEAP0 - 1, DHEAP) + HEAP0 }

  /** The root is its own `HPARENT`, because C truncates; the others have their parent. */
  lemma ParentIndex(k: int)
    requires HEAP0 <= k
    ensures HPARENT(HEAP0) == HEAP0
    ensures k > HEAP0 ==> HEAP0 <= HPARENT(k) < k && HPARENT(k) - HEAP0 == Parent(k - HEAP0)
  {
  }

  /** The `n` entries of the heap. */
  ghost function Tree(heap: array<ANHE>, n: nat): seq<ANHE>
    requires HEAP0 + n <= heap.Length
    reads heap
  {
    heap[HEAP0..HEAP0 + n]
  }

  /** Every entry but `k` belongs to a watcher of `S` that knows its index and is not `w`. */
  ghost predicate Indexed(heap: array<ANHE>, n: nat, S: set<Watcher>, k: int, w: Watcher?)
    requires HEAP0 + n <= heap.Length
    reads heap, S`active
  {
    forall i :: HEAP0 <= i < HEAP0 + n && i != k ==> heap[i].w in S && heap[i].w.active == i && heap[i].w != w
  }

  /** `t` is the tree with `he` in the hole `k`. */
  ghost predicate Holed(heap: array<ANHE>, n: nat, t: seq<ANHE>, k: int, he: ANHE)
    requires HEAP0 + n <= heap.Length
    reads heap
  {
    |t| == n && HEAP0 <= k < HEAP0 + n && t[k - HEAP0] == he
    && forall i :: HEAP0 <= i < HEAP0 + n && i != k ==> t[i - HEAP0] == heap[i]
  }

  ghost predicate OutsideUnchanged(h: seq<ANHE>, h': seq<ANHE>, n: nat) {
    |h| == |h'| && forall i :: 0 <= i < |h| && !(HEAP0 <= i < HEAP0 + n) ==> h'[i] == h[i]
  }

  /** One move of `upheap` or `downheap`: the entry at `p` goes to the hole at `k`. */
  method MoveEntry(heap: array<ANHE>, p: int, k: int, ghost n: nat, ghost S: set<Watcher>, ghost t: seq<ANHE>, ghost he: ANHE)
    requires HEAP0 <= p < HEAP0 + n <= heap.Length && p != k
    requires Holed(heap, n, t, k, he) && Indexed(heap, n, S, k, he.w)
    modifies heap, S`active
    ensures Holed(heap, n, Swap(t, k - HEAP0, p - HEAP0), p, he) && Indexed(heap, n, S, p, he.w)
    ensures OutsideUnchanged(old(heap[..]), heap[..], n)
    ensures forall w :: w in S && w != old(heap[p].w) ==> w.active == old(w.active)
  {
    heap[k] := heap[p];
    heap[k].w.active := k;
  }

  /** The final store of `upheap` and `downheap`. */
  method FillHole(heap: array<ANHE>, k: int, he: ANHE, ghost n: nat, ghost S: set<Watcher>, ghost t: seq<ANHE>)
    requires HEAP0 + n <= heap.Length
    requires Holed(heap, n, t, k, he) && Indexed(heap, n, S, k, he.w) && he.w in S
    modifies heap, he.w`active
    ensures Tree(heap, n) == t && Indexed(heap, n, S, -1, null)
    ensures OutsideUnchanged(old(heap[..]), heap[..], n)
  {
    heap[k] := he;
    he.w.active := k;
  }

  lemma TreeHoled(heap: array<ANHE>, n: nat, k: int)
    requires HEAP0 <= k < HEAP0 + n <= heap.Length
    ensures Holed(heap, n, Tree(heap, n), k, heap[k]) && |Tree(heap, n)| == n
  {
  }

  lemma HoledAt(heap: array<ANHE>, n: nat, t: seq<ANHE>, k: int, he: ANHE, i: int)
    requires HEAP0 + n <= heap.Length && Holed(heap, n, t, k, he) && HEAP0 <= i < HEAP0 + n
    ensures |t| == n && t[k - HEAP0] == he && HEAP0 <= k < HEAP0 + n
    ensures i != k ==> heap[i] == t[i - HEAP0]
  {
  }

  /** `upheap` */
  method Upheap(heap: array<ANHE>, k0: int, ghost n: nat, ghost S: set<Watcher>)
    requires HEAP0 <= k0 < HEAP0 + n <= heap.Length
    requires Indexed(heap, n, S, k0, heap[k0].w) && heap[k0].w in S
    modifies heap, S`active
    ensures Tree(heap, n) == Up(old(Tree(heap, n)), k0 - HEAP0) && Indexed(heap, n, S, -1, null)
    ensures OutsideUnchanged(old(heap[..]), heap[..], n)
  {
    hide Holed, Indexed;
    var k := k0;
    var he := heap[k];
    ghost var t := Tree(heap, n);
    TreeHoled(heap, n, k);
    while true
      invariant HEAP0 <= k < HEAP0 + n && |t| == n && t[k - HEAP0] == he
      invariant Holed(heap, n, t, k, he) && Indexed(heap, n, S, k, he.w)
      invariant Up(t, k - HEAP0) == Up(old(Tree(heap, n)), k0 - HEAP0)
      invariant OutsideUnchanged(old(heap[..]), heap[..], n)
      decreases k
    {
      var p := HPARENT(k);
      ParentIndex(k);
      HoledAt(heap, n, t, k, he, p);
      if p == k || heap[p].at <= he.at {
        break;
      }
      MoveEntry(heap, p, k, n, S, t, he);
      t := Swap(t, k - HEAP0, p - HEAP0);
      k := p;
    }
    FillHole(heap, k, he, n, S, t);
  }

  function Min(a: int, b: int): int { if a <= b then a else b }

  /** The search for the smallest child in `downheap`, with its fast path for four children
      and its slow path for fewer; `E` is the end of the heap. */
  method MinChildPos(heap: array<ANHE>, E: int, pos: int) returns (minpos: int)
    requires 0 <= pos < E <= heap.Length
    ensures minpos == Smallest(heap[..], pos, pos, Min(pos + DHEAP, E))
  {
    minpos := pos;
    var minat := heap[minpos].at;
    ghost var h, hi := heap[..], Min(pos + DHEAP, E);
    assert Smallest(h, pos, pos, hi) == Smallest(h, minpos, pos + 1, hi);
    if pos + DHEAP - 1 < E {
      if minat > heap[pos + 1].at { minpos := pos + 1; minat := heap[minpos].at; }
      assert Smallest(h, pos, pos, hi) == Smallest(h, minpos, pos + 2, hi);
      if minat > heap[pos + 2].at { minpos := pos + 2; minat := heap[minpos].at; }
      assert Smallest(h, pos, pos, hi) == Smallest(h, minpos, pos + 3, hi);
      if minat > heap[pos + 3].at { minpos := pos + 3; minat := heap[minpos].at; }
      assert Smallest(h, pos, pos, hi) == Smallest(h, minpos, pos + 4, hi);
    } else {
      if pos + 1 < E && minat > heap[pos + 1].at { minpos := pos + 1; minat := heap[minpos].at; }
      assert Smallest(h, pos, pos, hi) == Smallest(h, minpos, Min(pos + 2, hi), hi);
      if pos + 2 < E && minat > heap[pos + 2].at { minpos := pos + 2; minat := heap[minpos].at; }
      // the C code goes on to test pos + 3 < E, which cannot hold on this path
      assert Smallest(h, pos, pos, hi) == Smallest(h, minpos, hi, hi);
    }
  }

  lemma {:induction false} SmallestShift(h: seq<ANHE>, t: seq<ANHE>, best: nat, lo: nat, hi: nat)
    requires best < |t| && lo <= hi <= |t| && best + HEAP0 < |h| && hi + HEAP0 <= |h|
    requires t[best] == h[best + HEAP0] && forall i {:trigger t[i]} :: lo <= i < hi ==> t[i] == h[i + HEAP0]
    ensures Smallest(h, best + HEAP0, lo + HEAP0, hi + HEAP0) == Smallest(t, best, lo, hi) + HEAP0
    decreases hi - lo
  {
    if lo < hi {
      var next := if t[best].at > t[lo].at then lo else best;
      SmallestShift(h, t, next, lo + 1, hi);
    }
  }

  /** In terms of the tree, the search finds `MinChild`. */
  lemma MinChildIndex(heap: array<ANHE>, n: nat, t: seq<ANHE>, k: int, he: ANHE)
    requires HEAP0 + n <= heap.Length && Holed(heap, n, t, k, he)
    requires DHEAP * (k - HEAP0) + HEAP0 + 1 < HEAP0 + n
    ensures var pos := DHEAP * (k - HEAP0) + HEAP0 + 1;
      MinChild(t, k - HEAP0) == Smallest(heap[..], pos, pos, Min(pos + DHEAP, HEAP0 + n)) - HEAP0
  {
    hide Smallest;
    var lo := DHEAP * (k - HEAP0) + 1;
    var hi := if lo + DHEAP < n then lo + DHEAP else n;
    var h := heap[..];
    assert forall i {:trigger t[i]} :: lo <= i < hi ==> t[i] == h[i + HEAP0];
    SmallestShift(h, t, lo, lo, hi);
  }

  /** One round of `downheap`: the smallest child moves up, or the hole is where it belongs. */
  method Sink(heap: array<ANHE>, N: int, k: int, he: ANHE, ghost S: set<Watcher>, ghost t: seq<ANHE>)
    returns (done: bool, next: int, ghost t': seq<ANHE>)
    requires HEAP0 <= k < HEAP0 + N <= heap.Length
    requires Holed(heap, N, t, k, he) && Indexed(heap, N, S, k, he.w) && |t| == N
    modifies heap, S`active
    ensures HEAP0 <= next < HEAP0 + N && |t'| == N
    ensures Holed(heap, N, t', next, he) && Indexed(heap, N, S, next, he.w)
    ensures OutsideUnchanged(old(heap[..]), heap[..], N)
    ensures if done then next == k && t' == t == Down(t, k - HEAP0)
            else next > k && Down(t', next - HEAP0) == Down(t, k - HEAP0)
  {
    hide Holed, Indexed, Smallest, MinChild;
    done, next, t' := true, k, t;
    HoledAt(heap, N, t, k, he, k);
    var pos := DHEAP * (k - HEAP0) + HEAP0 + 1;
    if pos < HEAP0 + N {
      var minpos := MinChildPos(heap, HEAP0 + N, pos);
      MinChildIndex(heap, N, t, k, he);
      HoledAt(heap, N, t, k, he, minpos);
      if he.at > heap[minpos].at {
        MoveEntry(heap, minpos, k, N, S, t, he);
        done, next, t' := false, minpos, Swap(t, k - HEAP0, minpos - HEAP0);
      }
    }
  }

  /** `downheap` */
  method Downheap(heap: array<ANHE>, N: int, k0: int, ghost S: set<Watcher>)
    requires HEAP0 <= k0 < HEAP0 + N <= heap.Length
    requires Indexed(heap, N, S, k0, heap[k0].w) && heap[k0].w in S
    modifies heap, S`active
    ensures Tree(heap, N) == Down(old(Tree(heap, N)), k0 - HEAP0) && Indexed(heap, N, S, -1, null)
    ensures OutsideUnchanged(old(heap[..]), heap[..], N)
  {
    hide Holed, Indexed, Down;
    var k := k0;
    var he := heap[k];
    ghost var t := Tree(heap, N);
    TreeHoled(heap, N, k);
    while true
      invariant HEAP0 <= k < HEAP0 + N && |t| == N
      invariant Holed(heap, N, t, k, he) && Indexed(heap, N, S, k, he.w)
      invariant Down(t, k - HEAP0) == Down(old(Tree(heap, N)), k0 - HEAP0)
      invariant OutsideUnchanged(old(heap[..]), heap[..], N)
      decreases HEAP0 + N - k
    {
      var done;
      done, k, t := Sink(heap, N, k, he, S, t);
      if done {
        break;
      }
    }
    FillHole(heap, k, he, N, S, t);
  }

  /** `adjustheap` */
  method Adjustheap(heap: array<ANHE>, N: int, k: int, ghost S: set<Watcher>)
    requires HEAP0 <= k < HEAP0 + N <= heap.Length
    requires Indexed(heap, N, S, k, heap[k].w) && heap[k].w in S
    modifies heap, S`active
    ensures Tree(heap, N) == Adjust(old(Tree(heap, N)), k - HEAP0) && Indexed(heap, N, S, -1, null)
    ensures OutsideUnchanged(old(heap[..]), heap[..], N)
  {
    hide Indexed;
    ParentIndex(k);
    if k > HEAP0 && heap[k].at <= heap[HPARENT(k)].at {
      Upheap(heap, k, N, S);
    } else {
      Downheap(heap, N, k, S);
    }
  }

  /** `reheap` */
  method Reheap(heap: array<ANHE>, N: int, ghost S: set<Watcher>)
    requires 0 <= N && HEAP0 + N <= heap.Length
    requires Indexed(heap, N, S, -1, null)
    modifies heap, S`active
    ensures Tree(heap, N) == ReheapFrom(old(Tree(heap, N)), 0) && Indexed(heap, N, S, -1, null)
    ensures OutsideUnchanged(old(heap[..]), heap[..], N)
  {
    var i := 0;
    while i < N
      invariant 0 <= i <= N && Indexed(heap, N, S, -1, null)
      invariant ReheapFrom(Tree(heap, N), i) == ReheapFrom(old(Tree(heap, N)), 0)
      invariant OutsideUnchanged(old(heap[..]), heap[..], N)
    {
      Upheap(heap, i + HEAP0, N, S);
      i := i + 1;
    }
  }

}
