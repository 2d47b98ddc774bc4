/** `anfds` and `fdchanges` of `struct ev_loop`: the descriptors' watcher lists, and the lazy
    pipeline that brings the backend in step with them. */
module FdTables {
  import opened Events
  import opened Watchers
  import opened Queues
  import opened ReverseFeed
  import opened Dispatch
  import opened Interest
  import opened Delivery
  import Growth

  /** The part of an `ANFD` that only reification and the backends change. */
  datatype Cached = Cached(events: bv8, emask: bv8, egen: Gen)

  function CachedAt(anfds: seq<ANFD>, fd: int): Cached {
    if 0 <= fd < |anfds| then Cached(anfds[fd].events, anfds[fd].emask, anfds[fd].egen) else Cached(0, 0, 0)
  }

  ghost predicate SameCaches(a: seq<ANFD>, b: seq<ANFD>) {
    forall fd {:trigger CachedAt(b, fd)} :: CachedAt(b, fd) == CachedAt(a, fd)
  }

  lemma SameViewSameCaches(a: seq<ANFD>, b: seq<ANFD>)
    requires SameBackendView(a, b)
    ensures SameCaches(a, b)
  {
  }

  lemma GrownSameCaches(a: seq<ANFD>, n: nat)
    ensures SameCaches(a, a + seq(n, _ => ZEROED))
  {
  }

  predicate Flagged(anfds: seq<ANFD>, fd: int) { 0 <= fd < |anfds| && anfds[fd].reify != 0 }

  ghost predicate SameFlags(a: seq<ANFD>, b: seq<ANFD>) {
    forall x {:trigger Flagged(b, x)} :: Flagged(a, x) <==> Flagged(b, x)
  }

  lemma SameFlagsSelf(a: seq<ANFD>)
    ensures SameFlags(a, a)
  {
  }

  lemma SameFlagsTrans(a: seq<ANFD>, b: seq<ANFD>, c: seq<ANFD>)
    requires SameFlags(a, b) && SameFlags(b, c)
    ensures SameFlags(a, c)
  {
  }

  /** `fd` may be a new file under an old number. */
  predicate Fdset(anfds: seq<ANFD>, fd: int) { 0 <= fd < |anfds| && Hits(anfds[fd].reify, IOFDSET) }

  /** No descriptor but `but` has become or ceased to be such a one. */
  ghost predicate SameFdsets(a: seq<ANFD>, b: seq<ANFD>, but: int) {
    |a| == |b| && forall x {:trigger Fdset(b, x)} :: x != but ==> (Fdset(b, x) <==> Fdset(a, x))
  }

  lemma SameFdsetsTrans(a: seq<ANFD>, b: seq<ANFD>, c: seq<ANFD>, but: int)
    requires SameFdsets(a, b, but) && SameFdsets(b, c, but)
    ensures SameFdsets(a, c, but)
  {
    hide Fdset;
    forall x {:trigger Fdset(c, x)} | x != but
      ensures Fdset(c, x) <==> Fdset(a, x)
    {
      assert Fdset(b, x) <==> Fdset(a, x);
    }
  }

  lemma DroppedFdsets(t: Tables, fd: nat, k: nat)
    requires fd < |t.anfds| == |t.lists| && k < |t.lists[fd]| && t.lists[fd][k] in t.nexts
    ensures SameFdsets(t.anfds, Dropped(t, fd, k).anfds, fd)
  {
    hide Flag, Without;
  }

  /** When it is the head that goes. */
  lemma DroppedHead(t: Tables, fd: nat, k: nat)
    requires fd < |t.anfds| == |t.lists| && k < |t.lists[fd]| && t.lists[fd][k] in t.nexts
    requires forall j :: 0 < j < |t.lists[fd]| ==> t.lists[fd][j] != t.lists[fd][0]
    requires t.lists[fd][k] == t.lists[fd][0]
    ensures var t' := Dropped(t, fd, k);
      HeadTaken(t.lists, t'.lists, fd) && SameFdsets(t.anfds, t'.anfds, fd) && t.changes <= t'.changes
  {
    DroppedFdsets(t, fd, k);
    hide SameFdsets, Flag;
    assert k == 0;
    assert Without(t.lists[fd], 0) == t.lists[fd][1..];
  }

  /** `fd` is flagged with `flags`, and nothing else is. */
  ghost predicate FlaggedWith(a: seq<ANFD>, b: seq<ANFD>, fd: int, flags: bv8) {
    && |a| == |b|
    && (forall x {:trigger Flagged(b, x)} :: Flagged(b, x) <==> Flagged(a, x) || x == fd)
    && (forall x {:trigger Fdset(b, x)} :: Fdset(b, x) <==> Fdset(a, x) || (x == fd && Hits(flags, IOFDSET)))
  }

  lemma FlagFlags(anfds: seq<ANFD>, fd: int, flags: bv8)
    requires 0 <= fd < |anfds| && flags != 0
    ensures FlaggedWith(anfds, anfds[fd := Flag(anfds[fd], flags)], fd, flags)
  {
    FlagSets(anfds[fd], flags);
    OrHits(anfds[fd].reify, flags, IOFDSET);
    assert Flag(anfds[fd], flags).reify == Or(anfds[fd].reify, flags);
    hide Flag, Or, Hits;
  }

  /** What the watchers on the list of `fd` ask for. */
  function OrIn(lists: seq<seq<Watcher>>, masks: map<Watcher, bv8>, fd: int): bv8 {
    if 0 <= fd < |lists| && forall j :: 0 <= j < |lists[fd]| ==> lists[fd][j] in masks then OrOf(lists[fd], masks) else 0
  }

  /** Every watcher on a list has a mask. */
  ghost predicate Masked(lists: seq<seq<Watcher>>, masks: map<Watcher, bv8>) {
    forall x {:trigger lists[x]} :: 0 <= x < |lists| ==> forall j :: 0 <= j < |lists[x]| ==> lists[x][j] in masks
  }

  /** The masks that are left are as they were. */
  ghost predicate MasksLeft(a: map<Watcher, bv8>, b: map<Watcher, bv8>) {
    forall w :: w in b ==> w in a && b[w] == a[w]
  }

  lemma OrInKept(lists: seq<seq<Watcher>>, masks: map<Watcher, bv8>, lists': seq<seq<Watcher>>, masks': map<Watcher, bv8>, fd: int, x: int)
    requires OthersSame(lists, lists', fd) && Masked(lists, masks) && Masked(lists', masks') && MasksLeft(masks, masks') && x != fd
    ensures OrIn(lists', masks', x) == OrIn(lists, masks, x)
  {
    if 0 <= x < |lists| {
      assert lists'[x] == lists[x];
      OrFrame(lists[x], masks, masks');
    }
  }

  /** Only the list of `fd` differs. */
  ghost predicate OthersSame(a: seq<seq<Watcher>>, b: seq<seq<Watcher>>, fd: int) {
    |a| == |b| && forall x :: 0 <= x < |a| && x != fd ==> b[x] == a[x]
  }

  /** The list of `fd` has lost its head. */
  ghost predicate HeadTaken(a: seq<seq<Watcher>>, b: seq<seq<Watcher>>, fd: int) {
    OthersSame(a, b, fd) && 0 <= fd < |a| && a[fd] != [] && b[fd] == a[fd][1..]
  }

  /** And the queues show it killed. */
  ghost predicate HeadKilled(s: Queues, s': Queues, dummy: Watcher, a: seq<seq<Watcher>>, fd: int) {
    && 0 <= fd < |a| && a[fd] != [] && Ok(s, dummy) && Known(s, a[fd]) && s' == KillOne(s, dummy, a[fd][0])
  }

  lemma HeadIsKilled(s: Queues, dummy: Watcher, a: seq<seq<Watcher>>, fd: int)
    requires 0 <= fd < |a| && a[fd] != [] && Ok(s, dummy) && Known(s, a[fd])
    ensures a[fd][0] in s.slot && DebtOk(s, a[fd][0])
    ensures var w := a[fd][0]; var r := Clear(s, dummy, w);
      && w in r.slot && w in r.prio && 0 <= r.prio[w] < |r.q| && r.slot[w] <= |r.q[r.prio[w]]|
      && HeadKilled(s, Feed(r, w, FAILED), dummy, a, fd)
  {
    ClearKeeps(s, dummy, a[fd][0]);
    FeedKeeps(Clear(s, dummy, a[fd][0]), dummy, a[fd][0], FAILED);
    hide Clear, Feed;
  }

  /** What `fd_kill` does to lists, changes and queues, if it is called at all. */
  ghost predicate KilledIf(kill: bool, fd: int, lists: seq<seq<Watcher>>, changes: seq<int>, s: Queues, dummy: Watcher,
                           lists': seq<seq<Watcher>>, changes': seq<int>, s': Queues) {
    if kill then
      && changes <= changes' && OthersSame(lists, lists', fd)
      && 0 <= fd < |lists| && lists'[fd] == [] && KilledTo(s', s, dummy, lists[fd], |lists[fd]|)
    else
      changes' == changes && lists' == lists && s' == s
  }

  /** Only what is cached for `fd` differs. */
  ghost predicate OthersCached(a: seq<ANFD>, b: seq<ANFD>, fd: int) {
    |a| == |b| && forall x {:trigger CachedAt(b, x)} :: x != fd ==> CachedAt(b, x) == CachedAt(a, x)
  }

  lemma OthersCachedTrans(a: seq<ANFD>, b: seq<ANFD>, c: seq<ANFD>, fd: int)
    requires OthersCached(a, b, fd) && OthersCached(b, c, fd)
    ensures OthersCached(a, c, fd)
  {
  }

  lemma SameIsOthersCached(a: seq<ANFD>, b: seq<ANFD>, fd: int)
    requires SameCaches(a, b) && |a| == |b|
    ensures OthersCached(a, b, fd) && CachedAt(b, fd) == CachedAt(a, fd)
  {
  }

  /** What `ev_io_start` passes to `fd_change`. */
  function StartFlags(events: bv8): bv8 { (events & IOFDSET) | REIFY }

  /** The mask without `EV__IOFDSET`. */
  function Plain(events: bv8): bv8 { events & !IOFDSET }

  lemma StartIsSane(events: bv8)
    requires events & !(IOFDSET | DIRECTIONS) == 0
    ensures StartFlags(events) != 0 && Directed(Plain(events))
    ensures SameDirections(events, Plain(events)) && (Hits(StartFlags(events), IOFDSET) <==> Hits(events, IOFDSET))
  {
  }

  /** The started watcher waits for what it was set to wait for, and no longer carries
      `EV__IOFDSET`. */
  predicate SameDirections(before: bv8, after: bv8) {
    && (after & EV_READ != 0 <==> before & EV_READ != 0)
    && (after & EV_WRITE != 0 <==> before & EV_WRITE != 0)
    && after & IOFDSET == 0
  }

  /** What `ev_io_start` leaves behind: the watcher is first on its list, the descriptor is flagged
      and, if the watcher was just set, may be a new file under an old number. */
  lemma AddedIs(t: Tables, n: nat, w: Watcher, fd: nat, flags: bv8, mask: bv8)
    requires fd < |t.anfds| + n == |t.lists| + n && flags != 0
    ensures var t' := Added(Grown(t, n), w, fd, flags, mask);
      && |t'.anfds| == |t'.lists| == |t.anfds| + n
      && Flagged(t'.anfds, fd) && (Fdset(t'.anfds, fd) <==> Fdset(t.anfds, fd) || Hits(flags, IOFDSET))
      && t'.lists[fd] == [w] + (if fd < |t.lists| then t.lists[fd] else [])
      && w in t'.masks && t'.masks[w] == mask
  {
    var g := Grown(t, n);
    assert fd < |t.anfds| ==> g.anfds[fd] == t.anfds[fd];
    assert fd >= |t.anfds| ==> g.anfds[fd] == ZEROED;
    HeadFlags(g.anfds[fd], w, flags);
    hide Hits, Flag;
  }

  lemma HeadFlags(a: ANFD, head: Watcher?, flags: bv8)
    requires flags != 0
    ensures Flag(a.(head := head), flags).reify != 0
    ensures Hits(Flag(a.(head := head), flags).reify, IOFDSET) <==> Hits(a.reify, IOFDSET) || Hits(flags, IOFDSET)
    ensures !Hits(ZEROED.reify, IOFDSET)
  {
    assert !Hits(0, IOFDSET);
    FlagSets(a.(head := head), flags);
    OrHits(a.reify, flags, IOFDSET);
    hide Or, Hits;
  }

  ghost predicate ListsDistinct(lists: seq<seq<Watcher>>) {
    forall fd {:trigger lists[fd]} :: 0 <= fd < |lists| ==> NoDup(lists[fd])
  }

  class FdTable {
    const loop: Loop
    var anfds: seq<ANFD>
    var fdchanges: seq<int>
    ghost var lists: seq<seq<Watcher>>
    ghost var members: set<Watcher>

    ghost function Nexts(): map<Watcher, Watcher?>
      reads this`members, members`next
    {
      map w | w in members :: w.next
    }

    ghost function Fds(): map<Watcher, int>
      reads this`members, members`fd
    {
      map w | w in members :: w.fd
    }

    ghost function Masks(): map<Watcher, bv8>
      reads this`members, members`events
    {
      map w | w in members :: w.events
    }

    ghost function Abs(): Tables
      reads this, members`next, members`fd, members`events
    {
      Tables(anfds, fdchanges, lists, Nexts(), Fds(), Masks())
    }

    /** The lists hold the active io watchers. */
    ghost predicate Linked()
      reads this`members, members`active, members`priority, loop`running
    {
      && (forall w :: w in members ==> w in loop.running && w.kind == Io && w.active == 1 && 0 <= w.Pri() < NUMPRI)
      && (forall w :: w in loop.running && w.kind == Io ==> w in members)
    }

    /** Everything is in order with `i` changes already taken. */
    ghost predicate ValidFrom(i: nat)
      reads this, members`next, members`fd, members`events, members`active, members`priority
      reads loop`pendings, loop`all, loop`hist, loop`activecnt, loop`running, loop`refs
      reads loop.all`pending, loop.all`priority, loop.all`active, loop.dummy`pending
    {
      loop.Valid() && loop.Counted() && Linked() && TablesOk(Abs(), i)
    }

    constructor (loop: Loop)
      requires loop.Valid() && loop.Counted() && forall w :: w in loop.running ==> w.kind != Io
      ensures ValidFrom(0) && this.loop == loop && anfds == [] && fdchanges == [] && members == {} && lists == []
    {
      EmptyIsOk();
      hide Loop.Valid, Loop.Counted, TablesOk;
      this.loop := loop;
      anfds, fdchanges, lists, members := [], [], [], {};
      new;
      assert Nexts() == map[] && Fds() == map[] && Masks() == map[];
    }

    /** `fd_change`, as it stands */
    method PutFlag(fd: int, flags: bv8)
      requires 0 <= fd < |anfds|
      modifies this`anfds, this`fdchanges
      ensures anfds == old(anfds)[fd := Flag(old(anfds)[fd], flags)]
      ensures fdchanges == if old(anfds)[fd].reify == 0 then old(fdchanges) + [fd] else old(fdchanges)
    {
      var reify := anfds[fd].reify;
      anfds := anfds[fd := anfds[fd].(reify := Or(reify, flags))];
      if reify == 0 {
        fdchanges := fdchanges + [fd];
      }
    }

    /** `fd_change` */
    method FdChange(fd: int, flags: bv8, ghost i: nat)
      requires TablesOk(Abs(), i) && 0 <= fd < |anfds| && flags != 0
      modifies this`anfds, this`fdchanges
      ensures TablesOk(Abs(), i) && Abs() == Changed(old(Abs()), fd, flags)
      ensures SameCaches(old(anfds), anfds)
    {
      hide Nexts, Fds, Masks, TablesOk, SameBackendView, SameCaches;
      ChangedKeeps(Abs(), i, fd, flags);
      SameViewSameCaches(anfds, Changed(Abs(), fd, flags).anfds);
      PutFlag(fd, flags);
    }

    /** The same on the whole table. */
    method Change(fd: int, flags: bv8, ghost i: nat)
      requires ValidFrom(i) && 0 <= fd < |anfds| && flags != 0
      modifies this`anfds, this`fdchanges
      ensures ValidFrom(i) && |anfds| == |old(anfds)|
      ensures old(fdchanges) <= fdchanges && SameCaches(old(anfds), anfds)
      ensures FlaggedWith(old(anfds), anfds, fd, flags)
    {
      hide Loop.Valid, Loop.Counted, Nexts, Fds, Masks, TablesOk, FlaggedWith, SameCaches;
      FlagFlags(anfds, fd, flags);
      FdChange(fd, flags, i);
    }

    /** `array_needsize` on `anfds`, with zeroes */
    method NeedSize(size: int, ghost i: nat) returns (ghost n: nat)
      requires TablesOk(Abs(), i) && 0 <= size
      modifies this`anfds, this`lists
      ensures TablesOk(Abs(), i) && Abs() == Grown(old(Abs()), n) && size <= |anfds|
      ensures SameCaches(old(anfds), anfds)
    {
      hide Nexts, Fds, Masks, TablesOk, SameCaches;
      n := 0;
      if size > |anfds| {
        var ncur := Growth.ArrayNextsize(24, |anfds|, size);
        n := ncur - |anfds|;
        GrownKeeps(Abs(), i, n);
        GrownSameCaches(anfds, n);
        anfds := anfds + seq(ncur - |anfds|, _ => ZEROED);
        lists := lists + seq(n, _ => []);
      } else {
        GrownSameCaches(anfds, n);
        assert anfds + seq(n, _ => ZEROED) == anfds && lists + seq(n, _ => []) == lists;
      }
    }

    /** `ev_io_start`: the watcher is the head of its descriptor's list, and the descriptor is
        flagged for reification. */
    method IoStart(w: Watcher, ghost i: nat) returns (ghost n: nat)
      requires ValidFrom(i) && w in loop.all && w.kind == Io
      requires w.active == 0 ==> w.fd >= 0 && w.events & !(IOFDSET | DIRECTIONS) == 0
      modifies this`anfds, this`fdchanges, this`lists, this`members
      modifies loop`activecnt, loop`running, w`active, w`priority, w`next, w`events
      ensures ValidFrom(i) && w.active == 1 && SameCaches(old(anfds), anfds)
      ensures members == old(members) + {w} && loop.running == old(loop.running) + {w}
      ensures old(w.active) != 0 ==> Abs() == old(Abs()) && loop.activecnt == old(loop.activecnt)
      ensures old(w.active) == 0 ==>
        && loop.activecnt == old(loop.activecnt) + 1 && w.events == Plain(old(w.events))
        && w.fd < |old(Abs()).anfds| + n == |old(Abs()).lists| + n
        && Abs() == Added(Grown(old(Abs()), n), w, w.fd, StartFlags(old(w.events)), Plain(old(w.events)))
      ensures old(w.active) == 0 ==>
        && SameDirections(old(w.events), w.events) && w.fd < |lists| && lists[w.fd] != [] && lists[w.fd][0] == w
        && Flagged(anfds, w.fd) && (Hits(old(w.events), IOFDSET) ==> Fdset(anfds, w.fd))
    {
      hide Loop.Valid, Loop.Counted, Nexts, Fds, Masks, TablesOk, Added, Grown, StartFlags, Plain, Directed,
           SameDirections, Flagged, Fdset, Hits;
      n := 0;
      loop.InactiveIs(w);
      if w.active != 0 {
        return;
      }
      ghost var t, events := Abs(), w.events;
      StartIsSane(w.events);
      loop.EvStart(w, 1);
      n := Enlist(w, i);
      AddedIs(t, n, w, w.fd, StartFlags(events), Plain(events));
    }

    /** The part of `ev_io_start` that is about the table. */
    method Enlist(w: Watcher, ghost i: nat) returns (ghost n: nat)
      requires TablesOk(Abs(), i) && w !in members && 0 <= w.fd
      requires StartFlags(w.events) != 0 && Directed(Plain(w.events))
      modifies this`anfds, this`fdchanges, this`lists, this`members, w`next, w`events
      ensures TablesOk(Abs(), i) && SameCaches(old(anfds), anfds)
      ensures members == old(members) + {w} && w.events == Plain(old(w.events))
      ensures w.fd < |old(Abs()).anfds| + n == |old(Abs()).lists| + n
      ensures Abs() == Added(Grown(old(Abs()), n), w, w.fd, StartFlags(old(w.events)), Plain(old(w.events)))
    {
      hide Nexts, Fds, Masks, TablesOk, StartFlags, Plain, Directed;
      n := NeedSize(w.fd + 1, i);
      LinkHead(w, i);
    }

    /** `wlist_add`, `fd_change` and the statement that forgets `EV__IOFDSET`. */
    method LinkHead(w: Watcher, ghost i: nat)
      requires TablesOk(Abs(), i) && w !in members && 0 <= w.fd < |anfds|
      requires StartFlags(w.events) != 0 && Directed(Plain(w.events))
      modifies this`anfds, this`fdchanges, this`lists, this`members, w`next, w`events
      ensures TablesOk(Abs(), i) && SameCaches(old(anfds), anfds)
      ensures members == old(members) + {w} && |old(anfds)| == |old(lists)| && w.events == Plain(old(w.events))
      ensures Abs() == Added(old(Abs()), w, w.fd, StartFlags(old(w.events)), Plain(old(w.events)))
    {
      hide TablesOk, SameBackendView, SameCaches, Directed, Nexts, Fds, Masks;
      assert Masks().Keys == Fds().Keys == Nexts().Keys == members by { KeysAre(); }
      AddedKeeps(Abs(), i, w, w.fd, StartFlags(w.events), Plain(w.events));
      SameViewSameCaches(anfds, Added(Abs(), w, w.fd, StartFlags(w.events), Plain(w.events)).anfds);
      PutHead(w);
    }

    lemma KeysAre()
      ensures Masks().Keys == Fds().Keys == Nexts().Keys == members
    {
    }

    /** `wlist_add` */
    method WlistAdd(fd: int, w: Watcher)
      requires 0 <= fd < |anfds| == |lists|
      modifies this`anfds, this`lists, w`next
      ensures w.next == old(anfds)[fd].head && lists == old(lists)[fd := [w] + old(lists)[fd]]
      ensures anfds == old(anfds)[fd := old(anfds)[fd].(head := w)]
    {
      w.next := anfds[fd].head;
      anfds := anfds[fd := anfds[fd].(head := w)];
      lists := lists[fd := [w] + lists[fd]];
    }

    method PutHead(w: Watcher)
      requires w !in members && 0 <= w.fd < |anfds| == |lists|
      modifies this`anfds, this`fdchanges, this`lists, this`members, w`next, w`events
      ensures members == old(members) + {w} && w.events == Plain(old(w.events))
      ensures Abs() == Added(old(Abs()), w, w.fd, StartFlags(old(w.events)), Plain(old(w.events)))
    {
      hide StartFlags, Plain, Flag, Nexts, Fds, Masks;
      WlistAdd(w.fd, w);
      PutFlag(w.fd, StartFlags(w.events));
      Enroll(w);
    }

    method Enroll(w: Watcher)
      requires w !in members
      modifies this`members, w`events
      ensures members == old(members) + {w} && w.events == Plain(old(w.events))
      ensures Nexts() == old(Nexts())[w := w.next] && Fds() == old(Fds())[w := w.fd] && Masks() == old(Masks())[w := w.events]
    {
      hide Plain;
      w.events := Plain(w.events);
      members := members + {w};
    }

    /** `wlist_del`: the loop stops at the watcher, which is on the list, and takes it out. */
    method WlistDel(fd: int, w: Watcher) returns (ghost k: nat)
      requires 0 <= fd < |anfds| == |lists| && w in lists[fd] && NoDup(lists[fd]) && w in members
      requires Chain(anfds[fd].head, lists[fd], Nexts())
      modifies this`anfds, this`lists, members`next
      ensures k < |old(lists)[fd]| && old(lists)[fd][k] == w
      ensures lists == old(lists)[fd := Without(old(lists)[fd], k)]
      ensures anfds == old(anfds)[fd := old(anfds)[fd].(head := if k == 0 then old(Nexts())[w] else old(anfds)[fd].head)]
      ensures w in old(Nexts())
      ensures Nexts() == if k == 0 then old(Nexts()) else old(Nexts())[old(lists)[fd][k - 1] := old(Nexts())[w]]
    {
      hide Chain, NoDup, Without;
      var last;
      last, k := Find(fd, w);
      ghost var list, nexts := lists[fd], Nexts();
      if last == null {
        anfds := anfds[fd := anfds[fd].(head := w.next)];
      } else {
        last.next := w.next;
        assert Nexts() == nexts[list[k - 1] := nexts[w]];
        assert anfds[fd := anfds[fd].(head := anfds[fd].head)] == anfds;
      }
      lists := lists[fd := Without(list, k)];
    }

    /** The loop of `wlist_del`; `last` is the watcher before. */
    method Find(fd: int, w: Watcher) returns (last: Watcher?, ghost k: nat)
      requires 0 <= fd < |anfds| == |lists| && w in lists[fd] && Chain(anfds[fd].head, lists[fd], Nexts())
      ensures k < |lists[fd]| && lists[fd][k] == w && last == if k == 0 then null else lists[fd][k - 1]
      ensures forall i :: 0 <= i < |lists[fd]| ==> lists[fd][i] in members
    {
      ghost var list := lists[fd];
      k := 0;
      last := null;
      var cur := anfds[fd].head;
      assert forall i :: 0 <= i < |list| ==> list[i] in Nexts();
      while cur != w
        invariant 0 <= k < |list| && cur == list[k] && w !in list[..k]
        invariant last == if k == 0 then null else list[k - 1]
        decreases |list| - k
      {
        assert Nexts()[list[k]] == list[k].next;
        last, cur := cur, cur.next;
        k := k + 1;
      }
    }

    /** What the table knows of a running watcher. */
    lemma WhereIs(w: Watcher, i: nat)
      requires TablesOk(Abs(), i) && w in members
      ensures 0 <= w.fd < |anfds| == |lists| && w in lists[w.fd]
      ensures NoDup(lists[w.fd]) && Chain(anfds[w.fd].head, lists[w.fd], Nexts())
    {
      assert w in Fds();
      assert ListOk(anfds, lists, Nexts(), Fds(), w.fd);
    }

    /** The part of `ev_io_stop` that is about the lists. */
    method Unlink(w: Watcher, ghost i: nat) returns (ghost k: nat)
      requires TablesOk(Abs(), i) && w in members
      modifies this`anfds, this`fdchanges, this`lists, this`members, members`next
      ensures TablesOk(Abs(), i) && SameCaches(old(anfds), anfds)
      ensures members == old(members) - {w} && 0 <= w.fd < |old(anfds)| == |old(lists)|
      ensures k < |old(lists)[w.fd]| && old(lists)[w.fd][k] == w && w in old(Nexts())
      ensures Abs() == Dropped(old(Abs()), w.fd, k)
    {
      hide TablesOk, SameBackendView, SameCaches, Dropped, Nexts, Fds, Masks;
      ghost var t := Abs();
      WhereIs(w, i);
      hide Chain, NoDup;
      k := Extract(w);
      DroppedKeeps(t, i, w.fd, k);
      SameViewSameCaches(t.anfds, Dropped(t, w.fd, k).anfds);
    }

    method Extract(w: Watcher) returns (ghost k: nat)
      requires w in members && 0 <= w.fd < |anfds| == |lists| && w in lists[w.fd]
      requires NoDup(lists[w.fd]) && Chain(anfds[w.fd].head, lists[w.fd], Nexts())
      modifies this`anfds, this`fdchanges, this`lists, this`members, members`next
      ensures members == old(members) - {w}
      ensures k < |old(lists)[w.fd]| && old(lists)[w.fd][k] == w && w in old(Nexts())
      ensures Abs() == Dropped(old(Abs()), w.fd, k)
    {
      hide Chain, NoDup, Without, Flag, Nexts, Fds, Masks;
      k := Detach(w);
      PutFlag(w.fd, REIFY);
    }

    method Detach(w: Watcher) returns (ghost k: nat)
      requires w in members && 0 <= w.fd < |anfds| == |lists| && w in lists[w.fd]
      requires NoDup(lists[w.fd]) && Chain(anfds[w.fd].head, lists[w.fd], Nexts())
      modifies this`anfds, this`lists, this`members, members`next
      ensures members == old(members) - {w}
      ensures k < |old(lists)[w.fd]| && old(lists)[w.fd][k] == w && w in old(Nexts())
      ensures lists == old(lists)[w.fd := Without(old(lists)[w.fd], k)]
      ensures anfds == old(anfds)[w.fd := old(anfds)[w.fd].(head := if k == 0 then old(Nexts())[w] else old(anfds)[w.fd].head)]
      ensures Nexts() == (if k == 0 then old(Nexts()) else old(Nexts())[old(lists)[w.fd][k - 1] := old(Nexts())[w]]) - {w}
      ensures Fds() == old(Fds()) - {w} && Masks() == old(Masks()) - {w}
    {
      hide Chain, NoDup, Without;
      k := WlistDel(w.fd, w);
      ghost var nexts := Nexts();
      members := members - {w};
      assert Nexts() == nexts - {w};
    }

    /** `ev_io_stop` */
    method IoStop(w: Watcher, ghost i: nat) returns (ghost k: nat)
      requires ValidFrom(i) && w in loop.all && w.kind == Io
      modifies this`anfds, this`fdchanges, this`lists, this`members, members`next
      modifies loop`pendings, loop`hist, loop`activecnt, loop`running, w`active, w`pending
      ensures ValidFrom(i) && w.active == 0 && w.pending == 0 && SameCaches(old(anfds), anfds)
      ensures DebtOk(old(loop.Abs()), w) && w != loop.dummy
      ensures loop.Abs() == Clear(old(loop.Abs()), loop.dummy, w)
      ensures members == old(members) - {w} && loop.running == old(loop.running) - {w}
      ensures old(w.active) == 0 ==> Abs() == old(Abs()) && loop.activecnt == old(loop.activecnt)
      ensures old(w.active) != 0 ==>
        && loop.activecnt == old(loop.activecnt) - 1
        && w in old(members) && 0 <= w.fd < |old(anfds)| == |old(lists)|
        && k < |old(lists)[w.fd]| && old(lists)[w.fd][k] == w && w in old(Nexts())
        && Abs() == Dropped(old(Abs()), w.fd, k)
    {
      hide Loop.Valid, Loop.Counted, Nexts, Fds, Masks, TablesOk, Clear, DebtOk, Dropped;
      k := 0;
      loop.InactiveIs(w);
      var _ := loop.ClearPending(w);
      if w.active == 0 {
        return;
      }
      k := Deactivate(w, i);
    }

    /** The exit from the list, then `ev_stop`. */
    method Deactivate(w: Watcher, ghost i: nat) returns (ghost k: nat)
      requires ValidFrom(i) && w in members
      modifies this`anfds, this`fdchanges, this`lists, this`members, members`next
      modifies loop`activecnt, loop`running, w`active
      ensures ValidFrom(i) && w.active == 0 && SameCaches(old(anfds), anfds)
      ensures loop.running == old(loop.running) - {w} && loop.activecnt == old(loop.activecnt) - 1
      ensures members == old(members) - {w} && 0 <= w.fd < |old(anfds)| == |old(lists)|
      ensures k < |old(lists)[w.fd]| && old(lists)[w.fd][k] == w && w in old(Nexts())
      ensures Abs() == Dropped(old(Abs()), w.fd, k)
    {
      hide Loop.Valid, Loop.Counted, Nexts, Fds, Masks, TablesOk, Dropped;
      loop.InactiveIs(w);
      k := Unlink(w, i);
      loop.EvStop(w);
    }

    /** The watchers of a list are running, each once, and can be fed. */
    lemma ListIs(fd: int, i: nat)
      requires ValidFrom(i) && 0 <= fd < |anfds|
      ensures |lists| == |anfds| && NoDup(lists[fd]) && Known(loop.Abs(), lists[fd])
      ensures Chain(anfds[fd].head, lists[fd], Nexts())
      ensures forall j :: 0 <= j < |lists[fd]| ==> lists[fd][j] in members && lists[fd][j].fd == fd && lists[fd][j] in Masks()
    {
      hide Ok;
      assert ListOk(anfds, lists, Nexts(), Fds(), fd);
      assert loop.running <= loop.all;
      forall j | 0 <= j < |lists[fd]|
        ensures lists[fd][j] in loop.Slot() && loop.Prio()[lists[fd][j]] == lists[fd][j].Pri()
      {
        assert lists[fd][j] in members;
      }
    }

    lemma AllDistinct(i: nat)
      requires ValidFrom(i)
      ensures ListsDistinct(lists)
    {
      hide Loop.Valid, Loop.Counted, Chain, NoDup;
      forall fd {:trigger lists[fd]} | 0 <= fd < |lists|
        ensures NoDup(lists[fd])
      {
        assert ListOk(anfds, lists, Nexts(), Fds(), fd);
      }
    }

    lemma FirstIs(fd: int, i: nat)
      requires ValidFrom(i) && 0 <= fd < |anfds| && anfds[fd].head != null
      ensures |lists| == |anfds| && lists[fd] != []
      ensures var w := lists[fd][0];
        && anfds[fd].head == w && w in members && w in loop.all && w.kind == Io && w.fd == fd && w.active != 0 && 0 <= w.Pri() < NUMPRI
        && forall j :: 0 < j < |lists[fd]| ==> lists[fd][j] != w
      ensures Ok(loop.Abs(), loop.dummy) && Known(loop.Abs(), lists[fd])
    {
      ListIs(fd, i);
      loop.InactiveIs(lists[fd][0]);
    }

    /** One round of `fd_kill`. */
    method KillHead(fd: int, ghost i: nat)
      requires ValidFrom(i) && 0 <= fd < |anfds| && anfds[fd].head != null
      modifies this`anfds, this`fdchanges, this`lists, this`members, members`next
      modifies loop`pendings, loop`pendingpri, loop`hist, loop`activecnt, loop`running, members`active, members`pending
      ensures ValidFrom(i) && SameCaches(old(anfds), anfds) && SameFdsets(old(anfds), anfds, fd)
      ensures HeadTaken(old(lists), lists, fd) && members <= old(members) && old(fdchanges) <= fdchanges
      ensures HeadKilled(old(loop.Abs()), loop.Abs(), loop.dummy, old(lists), fd)
    {
      hide Loop.Counted, TablesOk, DebtOk, Ok, Nexts, Masks, Fds, Clear, Feed, Known, FdTable.Abs, Loop.Abs,
           SameCaches, SameFdsets, HeadTaken, HeadKilled;
      FirstIs(fd, i);
      HeadIsKilled(loop.Abs(), loop.dummy, lists, fd);
      var w := StopHead(fd, i);
      loop.FeedEvent(w, FAILED);
    }

    method StopHead(fd: int, ghost i: nat) returns (w: Watcher)
      requires ValidFrom(i) && 0 <= fd < |anfds| && anfds[fd].head != null
      modifies this`anfds, this`fdchanges, this`lists, this`members, members`next
      modifies loop`pendings, loop`hist, loop`activecnt, loop`running, members`active, members`pending
      ensures ValidFrom(i) && SameCaches(old(anfds), anfds) && SameFdsets(old(anfds), anfds, fd)
      ensures w in old(members) && w in loop.all && 0 <= w.Pri() < NUMPRI
      ensures HeadTaken(old(lists), lists, fd) && w == old(lists)[fd][0]
      ensures members <= old(members) && old(fdchanges) <= fdchanges
      ensures DebtOk(old(loop.Abs()), w) && w != loop.dummy && loop.Abs() == Clear(old(loop.Abs()), loop.dummy, w)
    {
      FirstIs(fd, i);
      hide Loop.Valid, Loop.Counted, Loop.Abs, TablesOk, DebtOk, Ok, Nexts, Masks, Fds, Clear, Known, SameCaches,
           SameFdsets, HeadTaken, Dropped;
      w := anfds[fd].head;
      ghost var t := Abs();
      ghost var k := IoStop(w, i);
      DroppedHead(t, fd, k);
    }

    /** `fd_kill`: the list is empty afterwards, and every watcher that was on it has been
        stopped and is owed an error. */
    method FdKill(fd: int, ghost i: nat)
      requires ValidFrom(i) && 0 <= fd < |anfds|
      modifies this`anfds, this`fdchanges, this`lists, this`members, members`next
      modifies loop`pendings, loop`pendingpri, loop`hist, loop`activecnt, loop`running, members`active, members`pending
      ensures ValidFrom(i) && SameCaches(old(anfds), anfds) && old(fdchanges) <= fdchanges
      ensures SameFdsets(old(anfds), anfds, fd) && |anfds| == |old(lists)| && anfds[fd].head == null
      ensures OthersSame(old(lists), lists, fd) && lists[fd] == []
      ensures members <= old(members)
      ensures KilledTo(loop.Abs(), old(loop.Abs()), loop.dummy, old(lists)[fd], |old(lists)[fd]|)
    {
      ghost var list, k, s0 := lists[fd], 0, loop.Abs();
      HeadIs(fd, i);
      assert list[k..] == list && SameCaches(anfds, anfds) && SameFdsets(anfds, anfds, fd);
      hide TablesOk, Nexts, Masks, Fds, Abs, FdTable.ValidFrom, KilledTo, Loop.Abs, SameCaches, SameFdsets, OthersSame;
      while anfds[fd].head != null
        invariant ValidFrom(i) && SameCaches(old(anfds), anfds) && old(fdchanges) <= fdchanges
        invariant SameFdsets(old(anfds), anfds, fd) && |anfds| == |old(anfds)| == |lists| && k <= |list| && OthersSame(old(lists), lists, fd) && lists[fd] == list[k..]
        invariant anfds[fd].head == null <==> k == |list|
        invariant members <= old(members)
        invariant KilledTo(loop.Abs(), s0, loop.dummy, list, k)
        decreases |list| - k
      {
        ghost var before, listed := anfds, lists;
        KillRound(fd, i, s0, list, k);
        SameFdsetsTrans(old(anfds), before, anfds, fd);
        k := k + 1;
      }
    }

    /** After `fd_kill` every former member of the list is pending, and is owed the error and
        nothing else. */
    lemma KilledArePending(list: seq<Watcher>, s0: Queues, w: Watcher)
      requires loop.Valid() && KilledTo(loop.Abs(), s0, loop.dummy, list, |list|) && w in list
      ensures w in loop.all && w.pending > 0 && Owed(loop.hist, w) == Debt(w.Pri(), FAILED)
    {
      KilledAll(loop.Abs(), s0, loop.dummy, list);
      KilledOwed(s0, loop.dummy, list, w);
      hide Ok, Killed, KilledTo;
      assert w in loop.Slot() && loop.Slot()[w] == w.pending && loop.Prio()[w] == w.Pri();
      OwedIsPending(loop.Abs(), loop.dummy, w);
    }

    /** One round, seen from the start of the loop. */
    method KillRound(fd: int, ghost i: nat, ghost s0: Queues, ghost list: seq<Watcher>, ghost k: nat)
      requires ValidFrom(i) && 0 <= fd < |anfds| == |lists| && k < |list| && lists[fd] == list[k..]
      requires KilledTo(loop.Abs(), s0, loop.dummy, list, k)
      modifies this`anfds, this`fdchanges, this`lists, this`members, members`next
      modifies loop`pendings, loop`pendingpri, loop`hist, loop`activecnt, loop`running, members`active, members`pending
      ensures ValidFrom(i) && SameCaches(old(anfds), anfds) && SameFdsets(old(anfds), anfds, fd)
      ensures |anfds| == |old(anfds)| == |lists|
      ensures OthersSame(old(lists), lists, fd) && lists[fd] == list[k + 1..] && members <= old(members) && old(fdchanges) <= fdchanges
      ensures anfds[fd].head == null <==> k + 1 == |list|
      ensures KilledTo(loop.Abs(), s0, loop.dummy, list, k + 1)
    {
      HeadIs(fd, i);
      assert lists[fd][0] == list[k] && lists[fd][1..] == list[k + 1..];
      KilledNext(loop.Abs(), s0, loop.dummy, list, k);
      hide TablesOk, Ok, Nexts, Masks, Fds, Abs, FdTable.ValidFrom, KilledTo, Known, KillOne, SameCaches, OthersSame,
           Loop.Abs;
      ghost var before := anfds;
      KillHead(fd, i);
      assert |anfds| == |before|;
      hide SameFdsets;
      HeadIs(fd, i);
    }

    lemma HeadIs(fd: int, i: nat)
      requires ValidFrom(i) && 0 <= fd < |anfds|
      ensures |lists| == |anfds| && (anfds[fd].head == null <==> lists[fd] == [])
      ensures Ok(loop.Abs(), loop.dummy) && Known(loop.Abs(), lists[fd])
    {
      ListIs(fd, i);
    }

    /** `fd_event_nocheck`: exactly the descriptor's watchers that want one of the events are
        fed. */
    method FdEventNocheck(fd: int, revents: bv32, ghost i: nat)
      requires ValidFrom(i) && 0 <= fd < |anfds| == |lists|
      modifies loop`pendings, loop`pendingpri, loop`hist, members`pending
      ensures ValidFrom(i)
      ensures FedTo(loop.Abs(), old(loop.Abs()), loop.dummy, lists[fd], Masks(), revents, |lists[fd]|)
    {
      ghost var k, s0, list, masks := 0, loop.Abs(), lists[fd], Masks();
      FeedStarts(fd, revents, i);
      var w := anfds[fd].head;
      hide *;
      while w != null
        invariant ValidFrom(i) && Walk(fd, list, masks, revents, k, w, s0)
        decreases |list| - k
      {
        w := FeedOne(fd, w, revents, i, list, masks, k, s0);
        k := k + 1;
      }
    }

    /** Where the walk of `fd_event_nocheck` is. */
    ghost predicate Walk(fd: int, list: seq<Watcher>, masks: map<Watcher, bv8>, revents: bv32, k: nat, w: Watcher?, s0: Queues)
      reads this`anfds, this`lists, this`members, members`events
      reads loop`pendings, loop`all, loop`hist, loop.all`pending, loop.all`priority
    {
      && 0 <= fd < |anfds| == |lists| && lists[fd] == list && Masks() == masks
      && k <= |list| && w == (if k == |list| then null else list[k])
      && FedTo(loop.Abs(), s0, loop.dummy, list, masks, revents, k)
    }

    /** How the walk starts, and how it goes on. */
    lemma NextIs(fd: int, i: nat, k: nat)
      requires ValidFrom(i) && 0 <= fd < |anfds| && |lists| == |anfds| && k <= |lists[fd]|
      ensures anfds[fd].head == if lists[fd] == [] then null else lists[fd][0]
      ensures k < |lists[fd]| ==> lists[fd][k].next == if k + 1 < |lists[fd]| then lists[fd][k + 1] else null
    {
      ListIs(fd, i);
      assert k < |lists[fd]| ==> lists[fd][k] in members;
    }

    lemma FeedStarts(fd: int, revents: bv32, i: nat)
      requires ValidFrom(i) && 0 <= fd < |anfds| == |lists|
      ensures Walk(fd, lists[fd], Masks(), revents, 0, anfds[fd].head, loop.Abs())
    {
      NextIs(fd, i, 0);
      HeadIs(fd, i);
      ListIs(fd, i);
    }

    lemma FeedReady(fd: int, w: Watcher, revents: bv32, i: nat, list: seq<Watcher>, masks: map<Watcher, bv8>, k: nat, s0: Queues)
      requires ValidFrom(i) && Walk(fd, list, masks, revents, k, w, s0)
      ensures k < |list| && w == list[k] && w in members && w in loop.all && 0 <= w.Pri() < NUMPRI
      ensures w.next == if k + 1 < |list| then list[k + 1] else null
      ensures var s, ev := loop.Abs(), Wanted(w.events, revents);
        && w in s.slot && w in s.prio && 0 <= s.prio[w] < |s.q| && s.slot[w] <= |s.q[s.prio[w]]|
        && FedTo(if ev == 0 then s else Feed(s, w, ev), s0, loop.dummy, list, masks, revents, k + 1)
    {
      hide TablesOk, FedTo, Loop.Abs, Chain, NoDup, Feed, Wanted;
      ListIs(fd, i);
      NextIs(fd, i, k);
      FedNext(loop.Abs(), s0, loop.dummy, list, masks, revents, k);
      assert w in members && Masks()[w] == w.events;
    }

    /** The body of the loop of `fd_event_nocheck`. */
    method FeedOne(fd: int, w: Watcher, revents: bv32, ghost i: nat, ghost list: seq<Watcher>, ghost masks: map<Watcher, bv8>,
                   ghost k: nat, ghost s0: Queues) returns (next: Watcher?)
      requires k < |list| && ValidFrom(i) && Walk(fd, list, masks, revents, k, w, s0)
      modifies loop`pendings, loop`pendingpri, loop`hist, members`pending
      ensures ValidFrom(i) && Walk(fd, list, masks, revents, k + 1, next, s0)
    {
      hide TablesOk, Nexts, Masks, Fds, Abs, FedTo, Loop.Abs, Loop.Counted, Loop.Valid, Chain, NoDup, Feed, Wanted;
      FeedReady(fd, w, revents, i, list, masks, k, s0);
      var ev := Wanted(w.events, revents);
      if ev != 0 {
        loop.FeedEvent(w, ev);
      }
      next := w.next;
    }

    /** `fd_event`: nothing is fed to watchers of a descriptor that is flagged. */
    method FdEvent(fd: int, revents: bv32)
      requires ValidFrom(0) && 0 <= fd < |anfds|
      modifies loop`pendings, loop`pendingpri, loop`hist, members`pending
      ensures ValidFrom(0) && |lists| == |anfds|
      ensures anfds[fd].reify != 0 ==> loop.Abs() == old(loop.Abs())
      ensures anfds[fd].reify == 0 ==>
        FedTo(loop.Abs(), old(loop.Abs()), loop.dummy, lists[fd], Masks(), revents, |lists[fd]|)
    {
      hide TablesOk, FedTo, Loop.Abs, FdTable.ValidFrom, Abs;
      HeadIs(fd, 0);
      if anfds[fd].reify == 0 {
        FdEventNocheck(fd, revents, 0);
      }
    }

    // ---------- the table's part of fd_reify ----------

    /** Where the inner loop of `fd_reify` is. */
    ghost predicate Gathering(fd: int, k: nat, w: Watcher?, events: bv8)
      reads this`anfds, this`lists, this`members, members`events
    {
      && 0 <= fd < |anfds| == |lists| && k <= |lists[fd]|
      && (forall j :: 0 <= j < |lists[fd]| ==> lists[fd][j] in Masks())
      && w == (if k == |lists[fd]| then null else lists[fd][k])
      && events == OrOf(lists[fd][..k], Masks())
    }

    lemma GatherStarts(fd: int, i: nat)
      requires ValidFrom(i) && 0 <= fd < |anfds| == |lists|
      ensures Gathering(fd, 0, anfds[fd].head, 0)
    {
      NextIs(fd, i, 0);
      ListIs(fd, i);
    }

    lemma GatherOne(fd: int, i: nat, k: nat, w: Watcher, events: bv8)
      requires ValidFrom(i) && Gathering(fd, k, w, events)
      ensures k < |lists[fd]| && Gathering(fd, k + 1, w.next, Or(events, w.events))
    {
      hide Or, TablesOk, Ok, Loop.Counted;
      NextIs(fd, i, k);
      ghost var list := lists[fd];
      assert list[..k + 1][..k] == list[..k];
      assert Masks()[w] == w.events;
    }

    lemma GatherEnds(fd: int, k: nat, events: bv8)
      requires Gathering(fd, k, null, events)
      ensures 0 <= fd < |lists| && forall j :: 0 <= j < |lists[fd]| ==> lists[fd][j] in Masks()
      ensures events == OrOf(lists[fd], Masks())
    {
      assert lists[fd][..k] == lists[fd];
    }

    /** The inner loop of `fd_reify`. */
    method Gather(fd: int, ghost i: nat) returns (events: bv8)
      requires ValidFrom(i) && 0 <= fd < |anfds| == |lists|
      ensures forall j :: 0 <= j < |lists[fd]| ==> lists[fd][j] in Masks()
      ensures events == OrOf(lists[fd], Masks())
    {
      hide FdTable.ValidFrom, FdTable.Gathering, FdTable.Masks, OrOf, Or;
      events := 0;
      var w := anfds[fd].head;
      ghost var k := 0;
      GatherStarts(fd, i);
      while w != null
        invariant Gathering(fd, k, w, events)
        decreases |lists[fd]| - k
      {
        GatherOne(fd, i, k, w, events);
        events := Or(events, w.events);
        w := w.next;
        k := k + 1;
      }
      GatherEnds(fd, k, events);
    }

    /** One round of `fd_reify` up to the decision whether the backend must be told. */
    method TakeChange(i: nat) returns (fd: int, o_events: bv8, o_reify: bv8)
      requires ValidFrom(i) && i < |fdchanges|
      modifies this`anfds
      ensures ValidFrom(i + 1) && fd == fdchanges[i] && 0 <= fd < |anfds| == |old(anfds)| && o_events == old(anfds)[fd].events
      ensures o_reify == if o_events != anfds[fd].events then IOFDSET else old(anfds)[fd].reify
      ensures Directed(anfds[fd].events) && anfds == old(anfds)[fd := anfds[fd]]
      ensures anfds[fd] == old(anfds)[fd].(reify := 0, events := anfds[fd].events)
      ensures |lists| == |anfds| && anfds[fd].events == OrFor(fd)
    {
      hide Loop.Valid, Loop.Counted, Nexts, Fds, Masks, OrOf, TablesOk;
      TakenKeeps(Abs(), i);
      fd := fdchanges[i];
      o_events := anfds[fd].events;
      o_reify := anfds[fd].reify;
      var events := Gather(fd, i);
      anfds := anfds[fd := anfds[fd].(reify := 0, events := events)];
      if o_events != events {
        o_reify := IOFDSET;
      }
    }

    /** What the watchers of `fd` ask for. */
    ghost function OrFor(fd: int): bv8
      reads this`lists, this`members, members`events
    {
      OrIn(lists, Masks(), fd)
    }

    lemma AllMasked(i: nat)
      requires ValidFrom(i)
      ensures Masked(lists, Masks()) && |lists| == |anfds|
    {
      hide Loop.Valid, Loop.Counted, OrOf;
    }

    /** The end of `fd_reify`: what was added meanwhile moves to the front. */
    method ForgetChanges(i: nat)
      requires ValidFrom(i)
      modifies this`fdchanges
      ensures ValidFrom(0) && i <= |old(fdchanges)| && fdchanges == old(fdchanges)[i..]
    {
      hide Loop.Valid, Loop.Counted, Nexts, Fds, Masks;
      MovedKeeps(Abs(), i);
      hide TablesOk;
      fdchanges := fdchanges[i..];
    }

    /** A descriptor without a pending change caches what its watchers ask for. */
    lemma Settled(fd: int)
      requires ValidFrom(0) && 0 <= fd < |anfds| && fd !in fdchanges
      ensures anfds[fd].reify == 0 && anfds[fd].events == OrFor(fd)
    {
      hide Loop.Valid, Loop.Counted, OrOf;
      ReifiedInterest(Abs(), fd);
    }

    /** Stores to `emask` and `egen`. */
    method SetEpoll(fd: int, emask: bv8, egen: Gen, ghost i: nat)
      requires ValidFrom(i) && 0 <= fd < |anfds|
      modifies this`anfds
      ensures ValidFrom(i) && |anfds| == |old(anfds)|
      ensures CachedAt(anfds, fd) == Cached(old(anfds)[fd].events, emask, egen)
      ensures OthersCached(old(anfds), anfds, fd) && SameFlags(old(anfds), anfds) && SameFdsets(old(anfds), anfds, fd)
    {
      hide Loop.Valid, Loop.Counted, Nexts, Fds, Masks;
      EpollFieldsKeep(Abs(), i, fd, emask, egen);
      hide TablesOk, OthersCached, SameFlags, SameFdsets, CachedAt;
      anfds := anfds[fd := anfds[fd].(emask := emask, egen := egen)];
    }

    lemma CachedIs(fd: int)
      requires 0 <= fd < |anfds|
      ensures CachedAt(anfds, fd) == Cached(anfds[fd].events, anfds[fd].emask, anfds[fd].egen)
    {
    }

    /** `fd_kill`, or not. */
    method KillIf(kill: bool, fd: int, ghost i: nat)
      requires ValidFrom(i) && 0 <= fd < |anfds|
      modifies this`anfds, this`fdchanges, this`lists, this`members, members`next
      modifies loop`pendings, loop`pendingpri, loop`hist, loop`activecnt, loop`running, members`active, members`pending
      ensures ValidFrom(i) && members <= old(members) && |anfds| == |old(anfds)|
      ensures OthersCached(old(anfds), anfds, fd) && CachedAt(anfds, fd) == CachedAt(old(anfds), fd)
      ensures SameFdsets(old(anfds), anfds, fd)
      ensures KilledIf(kill, fd, old(lists), old(fdchanges), old(loop.Abs()), loop.dummy, lists, fdchanges, loop.Abs())
    {
      hide FdTable.ValidFrom, KilledTo, Loop.Abs, SameCaches, OthersSame, CachedAt, Fdset;
      if kill {
        FdKill(fd, i);
        SameIsOthersCached(old(anfds), anfds, fd);
      }
    }

    /** A bit is asked for exactly if some watcher of the descriptor asks for it. */
    lemma OrForBits(fd: int, bit: bv8)
      requires ValidFrom(0) && 0 <= fd < |anfds|
      ensures Hits(OrFor(fd), bit) <==> exists w :: w in members && w.fd == fd && Hits(w.events, bit)
    {
      ListIs(fd, 0);
      AllMasked(0);
      hide Loop.Valid, Loop.Counted, OrOf, Hits, NoDup, Chain, Known;
      var list := lists[fd];
      assert OrFor(fd) == OrOf(list, Masks());
      OrBits(list, Masks(), bit);
      assert forall j :: 0 <= j < |list| ==> list[j] in members && list[j].fd == fd && Masks()[list[j]] == list[j].events;
      if w :| w in members && w.fd == fd && Hits(w.events, bit) {
        WhereIs(w, 0);
        var j :| 0 <= j < |list| && list[j] == w;
        assert Hits(Masks()[list[j]], bit);
      }
    }

    lemma InTable(w: Watcher, i: nat)
      requires ValidFrom(i) && w in members
      ensures 0 <= w.fd < |anfds|
    {
      WhereIs(w, i);
    }

    lemma OnListIsMember(fd: int, w: Watcher, i: nat)
      requires ValidFrom(i) && 0 <= fd < |lists| && w in lists[fd]
      ensures w in members
    {
      ListIs(fd, i);
    }

    lemma NoList(fd: int)
      requires ValidFrom(0) && fd >= |anfds|
      ensures OrFor(fd) == 0
    {
    }

    /** A flagged descriptor is on the change list. */
    lemma FlaggedIsListed(fd: int)
      requires ValidFrom(0) && Flagged(anfds, fd)
      ensures fd in fdchanges
    {
    }

    /** From `i` on, the change list holds the flagged descriptors, each once. */
    lemma ChangesAre(i: nat)
      requires ValidFrom(i)
      ensures i <= |fdchanges| && forall fd {:trigger Flagged(anfds, fd)} :: Flagged(anfds, fd) <==> fd in fdchanges[i..]
      ensures forall j, k :: i <= j < k < |fdchanges| ==> fdchanges[j] != fdchanges[k]
    {
      hide Loop.Valid, Loop.Counted, OrOf;
      forall fd {:trigger Flagged(anfds, fd)}
        ensures Flagged(anfds, fd) <==> fd in fdchanges[i..]
      {
        if Flagged(anfds, fd) {
          var j :| i <= j < |fdchanges| && fdchanges[j] == fd;
          assert fdchanges[i..][j - i] == fd;
        }
      }
    }

    lemma LoopIsValid(i: nat)
      requires ValidFrom(i)
      ensures loop.Valid() && loop.Counted() && Linked()
    {
    }

    /** `ev_clear_pending` does not disturb the table. */
    method Forget(w: Watcher, ghost i: nat) returns (events: bv32)
      requires ValidFrom(i) && w in loop.all
      modifies loop`pendings, loop`hist, w`pending
      ensures ValidFrom(i) && w.pending == 0
      ensures events == (match Owed(old(loop.hist), w) case Nothing => 0 case Debt(_, ev) => ev)
    {
      hide Loop.Valid, Loop.Counted, Loop.Abs, Nexts, Fds, Masks, FdTable.Abs, TablesOk, Clear, DebtOk, Owed;
      LoopIsValid(i);
      events := loop.ClearPending(w);
    }

    /** Nor does taking the top of a queue. */
    method TakeTop(ghost i: nat) returns (p: Pending)
      requires ValidFrom(i) && 0 <= loop.pendingpri < NUMPRI && loop.pendings[loop.pendingpri] != []
      requires EmptyFrom(loop.pendings, loop.pendingpri + 1)
      modifies loop`pendings, loop`hist, loop.all`pending, loop.dummy`pending
      ensures ValidFrom(i) && loop.Abs() == Pop(old(loop.Abs()), loop.dummy, loop.pendingpri)
      ensures p == old(loop.pendings[loop.pendingpri][|loop.pendings[loop.pendingpri]| - 1])
    {
      hide Loop.Valid, Loop.Counted, Nexts, Fds, Masks, FdTable.Abs, TablesOk, Pop;
      LoopIsValid(i);
      p := loop.TakeTop();
    }

    /** The list of a descriptor holds exactly the active io watchers on it; following `next` from
        the head visits each of them once and ends. */
    lemma ListIsExact(fd: int, i: nat, w: Watcher)
      requires ValidFrom(i) && 0 <= fd < |anfds| && w in loop.all
      ensures |lists| == |anfds| && NoDup(lists[fd]) && Chain(anfds[fd].head, lists[fd], Nexts())
      ensures w in lists[fd] <==> w.kind == Io && w.active != 0 && w.fd == fd
    {
      ListIs(fd, i);
      LoopIsValid(i);
      loop.InactiveIs(w);
      if w in members {
        WhereIs(w, i);
      }
    }
  }
}
