/** The descriptor table as values: watcher lists, the change list, and what the cached events
    of a descriptor must be. */
module Interest {
  import opened Events
  import opened Watchers

  const REIFY: bv8 := 1       // EV_ANFD_REIFY
  const IOFDSET: bv8 := 0x80  // EV__IOFDSET

  /** `ANFD` */
  datatype ANFD = ANFD(head: Watcher?, events: bv8, reify: bv8, emask: bv8, egen: Gen)

  const ZEROED := ANFD(null, 0, 0, 0, 0)

  // ---------- the intrusive lists ----------

  /** Following `nexts` from `head` visits `list` and ends. */
  ghost predicate Chain(head: Watcher?, list: seq<Watcher>, nexts: map<Watcher, Watcher?>) {
    && head == (if list == [] then null else list[0])
    && forall i {:trigger list[i]} :: 0 <= i < |list| ==>
         list[i] in nexts && nexts[list[i]] == if i + 1 < |list| then list[i + 1] else null
  }

  ghost predicate NoDup(list: seq<Watcher>) {
    forall i, j :: 0 <= i < j < |list| ==> list[i] != list[j]
  }

  /** The list of `fd`: a chain without repetition of watchers of `fd`. */
  ghost predicate ListOk(anfds: seq<ANFD>, lists: seq<seq<Watcher>>, nexts: map<Watcher, Watcher?>, fds: map<Watcher, int>, fd: int)
    requires 0 <= fd < |anfds| == |lists|
  {
    && Chain(anfds[fd].head, lists[fd], nexts) && NoDup(lists[fd])
    && forall i :: 0 <= i < |lists[fd]| ==> lists[fd][i] in fds && fds[lists[fd][i]] == fd
  }

  /** Every descriptor's list is in order, and every watcher of `fds` is on its list. */
  ghost predicate ListsOk(anfds: seq<ANFD>, lists: seq<seq<Watcher>>, nexts: map<Watcher, Watcher?>, fds: map<Watcher, int>) {
    && |anfds| == |lists| && nexts.Keys == fds.Keys
    && (forall fd {:trigger ListOk(anfds, lists, nexts, fds, fd)} ::
          0 <= fd < |lists| ==> ListOk(anfds, lists, nexts, fds, fd))
    && (forall w :: w in fds ==> 0 <= fds[w] < |lists| && w in lists[fds[w]])
  }

  lemma GrowLists(anfds: seq<ANFD>, lists: seq<seq<Watcher>>, nexts: map<Watcher, Watcher?>, fds: map<Watcher, int>, n: nat)
    requires ListsOk(anfds, lists, nexts, fds)
    ensures ListsOk(anfds + seq(n, _ => ZEROED), lists + seq(n, _ => []), nexts, fds)
  {
    var anfds', lists' := anfds + seq(n, _ => ZEROED), lists + seq(n, _ => []);
    forall fd {:trigger ListOk(anfds', lists', nexts, fds, fd)} | 0 <= fd < |lists'|
      ensures ListOk(anfds', lists', nexts, fds, fd)
    {
      assert fd < |lists| ==> ListOk(anfds, lists, nexts, fds, fd);
    }
    forall w | w in fds
      ensures w in lists'[fds[w]]
    {
      assert lists'[fds[w]] == lists[fds[w]];
    }
  }

  lemma AddToChain(head: Watcher?, list: seq<Watcher>, nexts: map<Watcher, Watcher?>, w: Watcher)
    requires Chain(head, list, nexts) && NoDup(list) && w !in nexts
    ensures Chain(w, [w] + list, nexts[w := head]) && NoDup([w] + list)
  {
    var longer := [w] + list;
    forall i {:trigger longer[i]} | 0 <= i < |longer|
      ensures longer[i] in nexts[w := head]
      ensures nexts[w := head][longer[i]] == if i + 1 < |longer| then longer[i + 1] else null
    {
      assert i > 0 ==> longer[i] == list[i - 1];
    }
  }

  /** `wlist_add` */
  lemma AddToList(anfds: seq<ANFD>, lists: seq<seq<Watcher>>, nexts: map<Watcher, Watcher?>, fds: map<Watcher, int>, w: Watcher, fd: nat)
    requires ListsOk(anfds, lists, nexts, fds) && fd < |anfds| && w !in fds
    ensures ListsOk(anfds[fd := anfds[fd].(head := w)], lists[fd := [w] + lists[fd]], nexts[w := anfds[fd].head], fds[w := fd])
  {
    var anfds', lists' := anfds[fd := anfds[fd].(head := w)], lists[fd := [w] + lists[fd]];
    var nexts', fds' := nexts[w := anfds[fd].head], fds[w := fd];
    forall x {:trigger ListOk(anfds', lists', nexts', fds', x)} | 0 <= x < |lists'|
      ensures ListOk(anfds', lists', nexts', fds', x)
    {
      assert ListOk(anfds, lists, nexts, fds, x);
      if x == fd {
        AddToChain(anfds[fd].head, lists[fd], nexts, w);
      } else {
      }
    }
    forall v | v in fds'
      ensures 0 <= fds'[v] < |lists'| && v in lists'[fds'[v]]
    {
      if v == w {
        assert lists'[fd][0] == w;
      }
    }
  }

  function Without(list: seq<Watcher>, k: nat): seq<Watcher>
    requires k < |list|
  {
    list[..k] + list[k + 1..]
  }

  lemma WithoutNoDup(list: seq<Watcher>, k: nat)
    requires NoDup(list) && k < |list|
    ensures NoDup(Without(list, k)) && list[k] !in Without(list, k)
    ensures forall w :: w in list && w != list[k] ==> w in Without(list, k)
  {
    var rest := Without(list, k);
    assert forall i :: 0 <= i < |rest| ==> rest[i] == list[if i < k then i else i + 1];
    forall w | w in list && w != list[k]
      ensures w in rest
    {
      var i :| 0 <= i < |list| && list[i] == w;
      assert rest[if i < k then i else i - 1] == w;
    }
  }

  lemma WithoutIn(list: seq<Watcher>, k: nat)
    requires NoDup(list) && k < |list|
    ensures forall j :: 0 <= j < |Without(list, k)| ==> Without(list, k)[j] in list && Without(list, k)[j] != list[k]
  {
    assert forall j :: 0 <= j < |list| - 1 ==> Without(list, k)[j] == list[if j < k then j else j + 1];
  }

  /** What `wlist_del` leaves when the head is removed. */
  lemma DelHead(head: Watcher?, list: seq<Watcher>, nexts: map<Watcher, Watcher?>)
    requires Chain(head, list, nexts) && list != []
    ensures list[0] in nexts && Chain(nexts[list[0]], Without(list, 0), nexts)
  {
    assert Without(list, 0) == list[1..];
    forall i {:trigger list[1..][i]} | 0 <= i < |list| - 1
      ensures list[1..][i] in nexts
      ensures nexts[list[1..][i]] == if i + 1 < |list| - 1 then list[1..][i + 1] else null
    {
      assert list[1..][i] == list[i + 1];
    }
  }

  /** What `wlist_del` leaves when a later element is bypassed. */
  lemma DelLater(head: Watcher?, list: seq<Watcher>, nexts: map<Watcher, Watcher?>, k: nat)
    requires Chain(head, list, nexts) && NoDup(list) && 0 < k < |list|
    ensures list[k] in nexts && list[k - 1] in nexts
    ensures Chain(head, Without(list, k), nexts[list[k - 1] := nexts[list[k]]])
  {
    assert list[k] in nexts && list[k - 1] in nexts;
    var rest, nexts' := Without(list, k), nexts[list[k - 1] := nexts[list[k]]];
    forall i {:trigger rest[i]} | 0 <= i < |rest|
      ensures rest[i] in nexts'
      ensures nexts'[rest[i]] == if i + 1 < |rest| then rest[i + 1] else null
    {
      var j := if i < k then i else i + 1;
      assert rest[i] == list[j] && list[j] in nexts;
      if i != k - 1 {
        assert list[j] != list[k - 1];
      }
    }
  }

  lemma DropNext(head: Watcher?, list: seq<Watcher>, nexts: map<Watcher, Watcher?>, w: Watcher)
    requires Chain(head, list, nexts) && w !in list
    ensures Chain(head, list, nexts - {w})
  {
  }

  // ---------- the change list ----------

  /** From index `i` on, the change list holds exactly the descriptors that are flagged, each
      once. */
  ghost predicate ChangesOk(anfds: seq<ANFD>, changes: seq<int>, i: nat) {
    && i <= |changes|
    && (forall j :: i <= j < |changes| ==> 0 <= changes[j] < |anfds| && anfds[changes[j]].reify != 0)
    && (forall j, k :: i <= j < k < |changes| ==> changes[j] != changes[k])
    && (forall fd :: 0 <= fd < |anfds| && anfds[fd].reify != 0 ==> exists j :: i <= j < |changes| && changes[j] == fd)
  }

  function Or(a: bv8, b: bv8): bv8 { a | b }

  function Flag(a: ANFD, flags: bv8): ANFD { a.(reify := Or(a.reify, flags)) }

  /** `fd_change` */
  lemma FlagKeepsChanges(anfds: seq<ANFD>, changes: seq<int>, i: nat, fd: nat, flags: bv8)
    requires ChangesOk(anfds, changes, i) && fd < |anfds| && flags != 0
    ensures ChangesOk(anfds[fd := Flag(anfds[fd], flags)], if anfds[fd].reify == 0 then changes + [fd] else changes, i)
  {
    hide Flag;
    var anfds' := anfds[fd := Flag(anfds[fd], flags)];
    assert anfds'[fd].reify != 0 by { FlagSets(anfds[fd], flags); }
    var changes' := if anfds[fd].reify == 0 then changes + [fd] else changes;
    forall x | 0 <= x < |anfds'| && anfds'[x].reify != 0
      ensures exists j :: i <= j < |changes'| && changes'[j] == x
    {
      if x == fd && anfds[fd].reify == 0 {
        assert changes'[|changes|] == fd;
      } else {
        var j :| i <= j < |changes| && changes[j] == x;
        assert changes'[j] == x;
      }
    }
  }

  lemma FlagSets(a: ANFD, flags: bv8)
    requires flags != 0
    ensures Flag(a, flags).reify != 0 && Flag(a, flags) == a.(reify := Flag(a, flags).reify)
  {
  }

  /** Taking the next descriptor off the list and clearing its flags. */
  lemma TakeChange(anfds: seq<ANFD>, changes: seq<int>, i: nat, a: ANFD)
    requires ChangesOk(anfds, changes, i) && i < |changes| && a.reify == 0
    ensures 0 <= changes[i] < |anfds| && ChangesOk(anfds[changes[i] := a], changes, i + 1)
  {
    var anfds' := anfds[changes[i] := a];
    forall x | 0 <= x < |anfds'| && anfds'[x].reify != 0
      ensures exists j :: i + 1 <= j < |changes| && changes[j] == x
    {
      var j :| i <= j < |changes| && changes[j] == x;
      assert j != i;
    }
  }

  /** Moving the rest of the change list to the front. */
  lemma MoveToFront(anfds: seq<ANFD>, changes: seq<int>, i: nat)
    requires ChangesOk(anfds, changes, i)
    ensures ChangesOk(anfds, changes[i..], 0)
  {
    var rest := changes[i..];
    forall x | 0 <= x < |anfds| && anfds[x].reify != 0
      ensures exists j :: 0 <= j < |rest| && rest[j] == x
    {
      var j :| i <= j < |changes| && changes[j] == x;
      assert rest[j - i] == x;
    }
  }

  // ---------- the interest ----------

  /** The OR of the masks of the watchers of a list. */
  function OrOf(list: seq<Watcher>, masks: map<Watcher, bv8>): bv8
    requires forall i :: 0 <= i < |list| ==> list[i] in masks
  {
    if list == [] then 0 else Or(OrOf(list[..|list| - 1], masks), masks[list[|list| - 1]])
  }

  predicate Hits(mask: bv8, bit: bv8) { mask & bit != 0 }

  lemma OrHits(a: bv8, b: bv8, bit: bv8)
    ensures Hits(Or(a, b), bit) <==> Hits(a, bit) || Hits(b, bit)
  {
    assert (a | b) & bit == (a & bit) | (b & bit);
  }

  /** A bit is in the OR exactly when some watcher asks for it. */
  lemma {:induction false} OrBits(list: seq<Watcher>, masks: map<Watcher, bv8>, bit: bv8)
    requires forall i :: 0 <= i < |list| ==> list[i] in masks
    ensures Hits(OrOf(list, masks), bit) <==> exists i :: 0 <= i < |list| && Hits(masks[list[i]], bit)
  {
    hide Or;
    if list == [] {
      assert !Hits(0, bit);
    } else {
      hide Hits;
      var n := |list| - 1;
      OrBits(list[..n], masks, bit);
      OrHits(OrOf(list[..n], masks), masks[list[n]], bit);
      assert forall i :: 0 <= i < n ==> list[..n][i] == list[i];
    }
  }

  lemma {:induction false} OrFrame(list: seq<Watcher>, masks: map<Watcher, bv8>, masks': map<Watcher, bv8>)
    requires forall i :: 0 <= i < |list| ==> list[i] in masks && list[i] in masks' && masks[list[i]] == masks'[list[i]]
    ensures OrOf(list, masks) == OrOf(list, masks')
  {
    if list != [] {
      OrFrame(list[..|list| - 1], masks, masks');
    }
  }

  /** `mask` has no bits but the two directions. */
  predicate Directed(mask: bv8) { mask & DIRECTIONS == mask }

  lemma {:induction false} OrOfDirected(list: seq<Watcher>, masks: map<Watcher, bv8>)
    requires forall i :: 0 <= i < |list| ==> list[i] in masks && Directed(masks[list[i]])
    ensures Directed(OrOf(list, masks))
  {
    if list != [] {
      OrOfDirected(list[..|list| - 1], masks);
    }
  }

  /** A descriptor that is not flagged caches exactly what its watchers ask for. */
  ghost predicate InterestOk(anfds: seq<ANFD>, lists: seq<seq<Watcher>>, masks: map<Watcher, bv8>)
    requires |anfds| == |lists|
  {
    forall fd {:trigger lists[fd]} :: 0 <= fd < |anfds| ==>
      && (forall i :: 0 <= i < |lists[fd]| ==> lists[fd][i] in masks)
      && (anfds[fd].reify == 0 ==> anfds[fd].events == OrOf(lists[fd], masks))
  }

  /** Changing the list and the watcher masks of a flagged descriptor disturbs no other. */
  lemma InterestFrame(anfds: seq<ANFD>, lists: seq<seq<Watcher>>, masks: map<Watcher, bv8>,
                      anfds': seq<ANFD>, lists': seq<seq<Watcher>>, masks': map<Watcher, bv8>, fd: nat)
    requires |anfds| == |lists| == |anfds'| == |lists'| && fd < |anfds|
    requires InterestOk(anfds, lists, masks) && anfds'[fd].reify != 0
    requires forall i :: 0 <= i < |lists'[fd]| ==> lists'[fd][i] in masks'
    requires forall x :: 0 <= x < |anfds| && x != fd ==> anfds'[x] == anfds[x] && lists'[x] == lists[x]
    requires forall x, i :: 0 <= x < |anfds| && x != fd && 0 <= i < |lists[x]| && lists[x][i] in masks ==>
      lists[x][i] in masks' && masks'[lists[x][i]] == masks[lists[x][i]]
    ensures InterestOk(anfds', lists', masks')
  {
    forall x {:trigger lists'[x]} | 0 <= x < |anfds'|
      ensures forall i :: 0 <= i < |lists'[x]| ==> lists'[x][i] in masks'
      ensures anfds'[x].reify == 0 ==> anfds'[x].events == OrOf(lists'[x], masks')
    {
      if x != fd {
        assert lists'[x] == lists[x];
        OrFrame(lists[x], masks, masks');
      }
    }
  }

  // ---------- the whole table ----------

  /** `anfds` and `fdchanges`, with the watchers' `next`, `fd` and `events` fields; `lists` is
      what following `next` visits. */
  datatype Tables = Tables(
    anfds: seq<ANFD>,
    changes: seq<int>,
    lists: seq<seq<Watcher>>,
    nexts: map<Watcher, Watcher?>,
    fds: map<Watcher, int>,
    masks: map<Watcher, bv8>)

  ghost predicate MasksOk(t: Tables) {
    t.masks.Keys == t.fds.Keys && forall w :: w in t.masks ==> Directed(t.masks[w])
  }

  /** The table is in order, with the first `i` changes already taken. */
  ghost predicate TablesOk(t: Tables, i: nat) {
    && ListsOk(t.anfds, t.lists, t.nexts, t.fds)
    && ChangesOk(t.anfds, t.changes, i)
    && InterestOk(t.anfds, t.lists, t.masks)
    && MasksOk(t)
  }

  lemma EmptyIsOk()
    ensures TablesOk(Tables([], [], [], map[], map[], map[]), 0)
  {
  }

  /** The fields that only reification and the backends change. */
  ghost predicate SameBackendView(a: seq<ANFD>, b: seq<ANFD>) {
    |a| == |b| && forall fd {:trigger b[fd]} :: 0 <= fd < |a| ==>
      a[fd].events == b[fd].events && a[fd].emask == b[fd].emask && a[fd].egen == b[fd].egen
  }

  function Grown(t: Tables, n: nat): Tables {
    t.(anfds := t.anfds + seq(n, _ => ZEROED), lists := t.lists + seq(n, _ => []))
  }

  lemma GrownKeeps(t: Tables, i: nat, n: nat)
    requires TablesOk(t, i)
    ensures TablesOk(Grown(t, n), i)
  {
    GrowLists(t.anfds, t.lists, t.nexts, t.fds, n);
  }

  /** `fd_change` */
  function Changed(t: Tables, fd: nat, flags: bv8): Tables
    requires fd < |t.anfds|
  {
    t.(anfds := t.anfds[fd := Flag(t.anfds[fd], flags)],
       changes := if t.anfds[fd].reify == 0 then t.changes + [fd] else t.changes)
  }

  lemma FlagKeepsLists(anfds: seq<ANFD>, lists: seq<seq<Watcher>>, nexts: map<Watcher, Watcher?>, fds: map<Watcher, int>, fd: nat, flags: bv8)
    requires ListsOk(anfds, lists, nexts, fds) && fd < |anfds|
    ensures ListsOk(anfds[fd := Flag(anfds[fd], flags)], lists, nexts, fds)
  {
    var anfds' := anfds[fd := Flag(anfds[fd], flags)];
    forall x {:trigger ListOk(anfds', lists, nexts, fds, x)} | 0 <= x < |lists|
      ensures ListOk(anfds', lists, nexts, fds, x)
    {
      assert ListOk(anfds, lists, nexts, fds, x);
    }
  }

  lemma FlagKeepsInterest(anfds: seq<ANFD>, lists: seq<seq<Watcher>>, masks: map<Watcher, bv8>, fd: nat, flags: bv8)
    requires |anfds| == |lists| && InterestOk(anfds, lists, masks) && fd < |anfds| && flags != 0
    ensures InterestOk(anfds[fd := Flag(anfds[fd], flags)], lists, masks)
    ensures SameBackendView(anfds, anfds[fd := Flag(anfds[fd], flags)])
  {
    FlagSets(anfds[fd], flags);
    hide Flag, OrOf;
  }

  lemma ChangedKeeps(t: Tables, i: nat, fd: nat, flags: bv8)
    requires TablesOk(t, i) && fd < |t.anfds| && flags != 0
    ensures TablesOk(Changed(t, fd, flags), i)
    ensures SameBackendView(t.anfds, Changed(t, fd, flags).anfds)
  {
    assert |t.anfds| == |t.lists|;
    hide Flag, ListsOk, ChangesOk, InterestOk, MasksOk, SameBackendView;
    FlagKeepsChanges(t.anfds, t.changes, i, fd, flags);
    FlagKeepsLists(t.anfds, t.lists, t.nexts, t.fds, fd, flags);
    FlagKeepsInterest(t.anfds, t.lists, t.masks, fd, flags);
  }

  /** `wlist_add` and `fd_change` in `ev_io_start`. */
  function Added(t: Tables, w: Watcher, fd: nat, flags: bv8, mask: bv8): Tables
    requires fd < |t.anfds| == |t.lists|
  {
    Tables(
      t.anfds[fd := Flag(t.anfds[fd].(head := w), flags)],
      if t.anfds[fd].reify == 0 then t.changes + [fd] else t.changes,
      t.lists[fd := [w] + t.lists[fd]],
      t.nexts[w := t.anfds[fd].head],
      t.fds[w := fd],
      t.masks[w := mask])
  }

  lemma AddedInterest(t: Tables, w: Watcher, fd: nat, flags: bv8, mask: bv8)
    requires |t.anfds| == |t.lists| && InterestOk(t.anfds, t.lists, t.masks) && fd < |t.anfds| && w !in t.masks && flags != 0
    ensures var t' := Added(t, w, fd, flags, mask);
      InterestOk(t'.anfds, t'.lists, t'.masks) && SameBackendView(t.anfds, t'.anfds)
  {
    var t' := Added(t, w, fd, flags, mask);
    FlagSets(t.anfds[fd].(head := w), flags);
    hide Flag, OrOf;
    assert forall j :: 0 < j < |t'.lists[fd]| ==> t'.lists[fd][j] == t.lists[fd][j - 1];
    assert forall j :: 0 <= j < |t.lists[fd]| ==> t.lists[fd][j] in t.masks;
    InterestFrame(t.anfds, t.lists, t.masks, t'.anfds, t'.lists, t'.masks, fd);
  }

  lemma AddedMasks(t: Tables, w: Watcher, fd: nat, flags: bv8, mask: bv8)
    requires MasksOk(t) && Directed(mask) && fd < |t.anfds| == |t.lists|
    ensures MasksOk(Added(t, w, fd, flags, mask))
  {
  }

  lemma AddedKeeps(t: Tables, i: nat, w: Watcher, fd: nat, flags: bv8, mask: bv8)
    requires TablesOk(t, i) && fd < |t.anfds| && w !in t.fds && flags != 0 && Directed(mask)
    ensures |t.anfds| == |t.lists| && TablesOk(Added(t, w, fd, flags, mask), i)
    ensures SameBackendView(t.anfds, Added(t, w, fd, flags, mask).anfds)
  {
    assert |t.anfds| == |t.lists| && t.masks.Keys == t.fds.Keys;
    hide Flag, ListsOk, ChangesOk, InterestOk, MasksOk, SameBackendView, Directed;
    var mid := t.anfds[fd := t.anfds[fd].(head := w)];
    AddToList(t.anfds, t.lists, t.nexts, t.fds, w, fd);
    HeadKeepsChanges(t.anfds, t.changes, i, fd, w);
    FlagKeepsChanges(mid, t.changes, i, fd, flags);
    FlagKeepsLists(mid, t.lists[fd := [w] + t.lists[fd]], t.nexts[w := t.anfds[fd].head], t.fds[w := fd], fd, flags);
    AddedInterest(t, w, fd, flags, mask);
    AddedMasks(t, w, fd, flags, mask);
    assert Added(t, w, fd, flags, mask).anfds == mid[fd := Flag(mid[fd], flags)];
  }

  lemma HeadKeepsChanges(anfds: seq<ANFD>, changes: seq<int>, i: nat, fd: nat, head: Watcher?)
    requires ChangesOk(anfds, changes, i) && fd < |anfds|
    ensures ChangesOk(anfds[fd := anfds[fd].(head := head)], changes, i)
  {
    var anfds' := anfds[fd := anfds[fd].(head := head)];
    forall x | 0 <= x < |anfds'| && anfds'[x].reify != 0
      ensures exists j :: i <= j < |changes| && changes[j] == x
    {
      assert anfds[x].reify != 0;
    }
  }

  /** `wlist_del` and `fd_change` in `ev_io_stop`; `k` is where the watcher is on its list. */
  function Dropped(t: Tables, fd: nat, k: nat): Tables
    requires fd < |t.anfds| == |t.lists| && k < |t.lists[fd]|
    requires t.lists[fd][k] in t.nexts
  {
    var w := t.lists[fd][k];
    var head := if k == 0 then t.nexts[w] else t.anfds[fd].head;
    Tables(
      t.anfds[fd := Flag(t.anfds[fd].(head := head), REIFY)],
      if t.anfds[fd].reify == 0 then t.changes + [fd] else t.changes,
      t.lists[fd := Without(t.lists[fd], k)],
      (if k == 0 then t.nexts else t.nexts[t.lists[fd][k - 1] := t.nexts[w]]) - {w},
      t.fds - {w},
      t.masks - {w})
  }

  lemma OnlyOnOwnList(anfds: seq<ANFD>, lists: seq<seq<Watcher>>, nexts: map<Watcher, Watcher?>, fds: map<Watcher, int>, fd: nat, x: nat)
    requires ListsOk(anfds, lists, nexts, fds) && fd < |anfds| && x < |anfds| && x != fd
    ensures forall i, j :: 0 <= i < |lists[fd]| && 0 <= j < |lists[x]| ==> lists[fd][i] != lists[x][j]
  {
    assert ListOk(anfds, lists, nexts, fds, fd) && ListOk(anfds, lists, nexts, fds, x);
  }

  /** The lists after `wlist_del`, before `fd_change`. */
  lemma DroppedList(t: Tables, fd: nat, k: nat, x: nat)
    requires ListsOk(t.anfds, t.lists, t.nexts, t.fds) && fd < |t.anfds| && k < |t.lists[fd]| && x < |t.anfds| && x != fd
    ensures t.lists[fd][k] in t.nexts
    ensures var t' := Dropped(t, fd, k);
      Chain(t.anfds[x].head, t.lists[x], t'.nexts)
  {
    assert ListOk(t.anfds, t.lists, t.nexts, t.fds, fd) && ListOk(t.anfds, t.lists, t.nexts, t.fds, x);
    hide Chain;
    var list, w := t.lists[fd], t.lists[fd][k];
    if k > 0 {
    }
    DropNext(t.anfds[x].head, t.lists[x], if k == 0 then t.nexts else t.nexts[list[k - 1] := t.nexts[w]], w);
  }

  lemma DroppedOwnList(t: Tables, fd: nat, k: nat)
    requires ListsOk(t.anfds, t.lists, t.nexts, t.fds) && fd < |t.anfds| && k < |t.lists[fd]|
    ensures t.lists[fd][k] in t.nexts
    ensures var t' := Dropped(t, fd, k);
      Chain(if k == 0 then t.nexts[t.lists[fd][k]] else t.anfds[fd].head, t'.lists[fd], t'.nexts)
  {
    assert ListOk(t.anfds, t.lists, t.nexts, t.fds, fd);
    var list, w := t.lists[fd], t.lists[fd][k];
    WithoutNoDup(list, k);
    if k == 0 {
      DelHead(t.anfds[fd].head, list, t.nexts);
      hide Chain, Without;
      DropNext(t.nexts[w], Without(list, 0), t.nexts, w);
    } else {
      DelLater(t.anfds[fd].head, list, t.nexts, k);
      hide Chain, Without;
      DropNext(t.anfds[fd].head, Without(list, k), t.nexts[list[k - 1] := t.nexts[w]], w);
    }
  }

  /** What has changed for the descriptor itself. */
  lemma DroppedIs(t: Tables, fd: nat, k: nat)
    requires fd < |t.anfds| == |t.lists| && k < |t.lists[fd]| && t.lists[fd][k] in t.nexts
    ensures var t' := Dropped(t, fd, k);
      && |t'.anfds| == |t'.lists| == |t.anfds| && t'.lists[fd] == Without(t.lists[fd], k) && t'.fds == t.fds - {t.lists[fd][k]}
      && t'.anfds[fd].head == if k == 0 then t.nexts[t.lists[fd][k]] else t.anfds[fd].head
  {
    FlagSets(t.anfds[fd].(head := if k == 0 then t.nexts[t.lists[fd][k]] else t.anfds[fd].head), REIFY);
    hide Flag;
  }

  lemma ListAt(t: Tables, fd: nat)
    requires ListsOk(t.anfds, t.lists, t.nexts, t.fds) && fd < |t.anfds|
    ensures |t.lists| == |t.anfds| && ListOk(t.anfds, t.lists, t.nexts, t.fds, fd)
  {
  }

  lemma DroppedOwnListOk(t: Tables, fd: nat, k: nat)
    requires ListsOk(t.anfds, t.lists, t.nexts, t.fds) && fd < |t.anfds| && k < |t.lists[fd]|
    ensures t.lists[fd][k] in t.nexts
    ensures var t' := Dropped(t, fd, k);
      ListOk(t'.anfds, t'.lists, t'.nexts, t'.fds, fd)
  {
    hide ListsOk, Chain, Without, NoDup, Dropped;
    ListAt(t, fd);
    var list, w := t.lists[fd], t.lists[fd][k];
    WithoutNoDup(list, k);
    WithoutIn(list, k);
    DroppedOwnList(t, fd, k);
    DroppedIs(t, fd, k);
    assert forall j :: 0 <= j < |Without(list, k)| ==> Without(list, k)[j] in list;
  }

  lemma DroppedListOk(t: Tables, fd: nat, k: nat, x: nat)
    requires ListsOk(t.anfds, t.lists, t.nexts, t.fds) && fd < |t.anfds| && k < |t.lists[fd]| && x < |t.anfds| && x != fd
    ensures t.lists[fd][k] in t.nexts
    ensures var t' := Dropped(t, fd, k);
      ListOk(t'.anfds, t'.lists, t'.nexts, t'.fds, x)
  {
    assert ListOk(t.anfds, t.lists, t.nexts, t.fds, fd) && ListOk(t.anfds, t.lists, t.nexts, t.fds, x);
    DroppedList(t, fd, k, x);
    OnlyOnOwnList(t.anfds, t.lists, t.nexts, t.fds, fd, x);
    hide Chain, Without, NoDup, Flag, ListsOk;
  }

  /** Every watcher that is left is still on its list. */
  lemma DroppedStays(t: Tables, fd: nat, k: nat, v: Watcher)
    requires ListsOk(t.anfds, t.lists, t.nexts, t.fds) && fd < |t.anfds| && k < |t.lists[fd]|
    requires v in t.fds && v != t.lists[fd][k]
    ensures 0 <= t.fds[v] < |t.lists|
    ensures v in (if t.fds[v] == fd then Without(t.lists[fd], k) else t.lists[t.fds[v]])
  {
    assert ListOk(t.anfds, t.lists, t.nexts, t.fds, fd);
    WithoutNoDup(t.lists[fd], k);
  }

  lemma DroppedListsOk(t: Tables, fd: nat, k: nat)
    requires ListsOk(t.anfds, t.lists, t.nexts, t.fds) && fd < |t.anfds| && k < |t.lists[fd]|
    ensures t.lists[fd][k] in t.nexts
    ensures var t' := Dropped(t, fd, k);
      forall x {:trigger ListOk(t'.anfds, t'.lists, t'.nexts, t'.fds, x)} :: 0 <= x < |t'.lists| ==>
        ListOk(t'.anfds, t'.lists, t'.nexts, t'.fds, x)
  {
    assert ListOk(t.anfds, t.lists, t.nexts, t.fds, fd);
    hide ListOk, ListsOk, Flag, Without, Chain, NoDup;
    var t' := Dropped(t, fd, k);
    forall x {:trigger ListOk(t'.anfds, t'.lists, t'.nexts, t'.fds, x)} | 0 <= x < |t'.lists|
      ensures ListOk(t'.anfds, t'.lists, t'.nexts, t'.fds, x)
    {
      if x == fd {
        DroppedOwnListOk(t, fd, k);
      } else {
        DroppedListOk(t, fd, k, x);
      }
    }
  }

  lemma DroppedLists(t: Tables, fd: nat, k: nat)
    requires ListsOk(t.anfds, t.lists, t.nexts, t.fds) && fd < |t.anfds| && k < |t.lists[fd]|
    ensures t.lists[fd][k] in t.nexts
    ensures var t' := Dropped(t, fd, k); ListsOk(t'.anfds, t'.lists, t'.nexts, t'.fds)
  {
    assert ListOk(t.anfds, t.lists, t.nexts, t.fds, fd);
    DroppedListsOk(t, fd, k);
    var t' := Dropped(t, fd, k);
    assert k > 0 ==> t.lists[fd][k - 1] in t.nexts;
    hide Chain, Without, NoDup, Flag, ListOk;
    assert t'.nexts.Keys == t'.fds.Keys;
    forall v | v in t'.fds
      ensures 0 <= t'.fds[v] < |t'.lists| && v in t'.lists[t'.fds[v]]
    {
      DroppedStays(t, fd, k, v);
    }
  }

  /** The lists of the other descriptors do not mention the watcher that goes. */
  lemma OthersWithout(t: Tables, fd: nat, k: nat)
    requires ListsOk(t.anfds, t.lists, t.nexts, t.fds) && fd < |t.anfds| && k < |t.lists[fd]|
    ensures forall x, j :: 0 <= x < |t.lists| && x != fd && 0 <= j < |t.lists[x]| ==> t.lists[x][j] != t.lists[fd][k]
  {
    forall x, j | 0 <= x < |t.lists| && x != fd && 0 <= j < |t.lists[x]|
      ensures t.lists[x][j] != t.lists[fd][k]
    {
      OnlyOnOwnList(t.anfds, t.lists, t.nexts, t.fds, fd, x);
    }
  }

  lemma DroppedMasked(t: Tables, fd: nat, k: nat)
    requires ListsOk(t.anfds, t.lists, t.nexts, t.fds) && InterestOk(t.anfds, t.lists, t.masks)
    requires fd < |t.anfds| && k < |t.lists[fd]|
    ensures var list := Without(t.lists[fd], k);
      forall j :: 0 <= j < |list| ==> list[j] in t.masks - {t.lists[fd][k]}
  {
    assert ListOk(t.anfds, t.lists, t.nexts, t.fds, fd);
    assert forall j :: 0 <= j < |t.lists[fd]| ==> t.lists[fd][j] in t.masks;
    WithoutIn(t.lists[fd], k);
  }

  lemma DroppedInterest(t: Tables, fd: nat, k: nat)
    requires ListsOk(t.anfds, t.lists, t.nexts, t.fds) && InterestOk(t.anfds, t.lists, t.masks)
    requires fd < |t.anfds| && k < |t.lists[fd]| && t.lists[fd][k] in t.nexts
    ensures var t' := Dropped(t, fd, k);
      InterestOk(t'.anfds, t'.lists, t'.masks) && SameBackendView(t.anfds, t'.anfds)
  {
    var t' := Dropped(t, fd, k);
    var w := t.lists[fd][k];
    FlagSets(t.anfds[fd].(head := if k == 0 then t.nexts[w] else t.anfds[fd].head), REIFY);
    OthersWithout(t, fd, k);
    DroppedMasked(t, fd, k);
    hide Flag, OrOf, ListsOk, Without;
    InterestFrame(t.anfds, t.lists, t.masks, t'.anfds, t'.lists, t'.masks, fd);
  }

  lemma DroppedChanges(t: Tables, i: nat, fd: nat, k: nat)
    requires ChangesOk(t.anfds, t.changes, i) && fd < |t.anfds| == |t.lists| && k < |t.lists[fd]| && t.lists[fd][k] in t.nexts
    ensures var t' := Dropped(t, fd, k); ChangesOk(t'.anfds, t'.changes, i)
  {
    hide Flag, ChangesOk;
    var w := t.lists[fd][k];
    var a := t.anfds[fd].(head := if k == 0 then t.nexts[w] else t.anfds[fd].head);
    HeadKeepsChanges(t.anfds, t.changes, i, fd, a.head);
    FlagKeepsChanges(t.anfds[fd := a], t.changes, i, fd, REIFY);
    assert Dropped(t, fd, k).anfds == t.anfds[fd := a][fd := Flag(a, REIFY)];
  }

  lemma DroppedKeeps(t: Tables, i: nat, fd: nat, k: nat)
    requires TablesOk(t, i) && fd < |t.anfds| && k < |t.lists[fd]|
    ensures t.lists[fd][k] in t.nexts
    ensures TablesOk(Dropped(t, fd, k), i)
    ensures SameBackendView(t.anfds, Dropped(t, fd, k).anfds)
  {
    assert |t.anfds| == |t.lists|;
    DroppedMasks(t, fd, k);
    hide Flag, ListsOk, ChangesOk, InterestOk, MasksOk, SameBackendView, Dropped;
    DroppedLists(t, fd, k);
    DroppedInterest(t, fd, k);
    DroppedChanges(t, i, fd, k);
  }

  lemma DroppedMasks(t: Tables, fd: nat, k: nat)
    requires MasksOk(t) && ListsOk(t.anfds, t.lists, t.nexts, t.fds) && fd < |t.anfds| && k < |t.lists[fd]|
    ensures t.lists[fd][k] in t.nexts && MasksOk(Dropped(t, fd, k))
  {
    assert ListOk(t.anfds, t.lists, t.nexts, t.fds, fd);
  }

  // ---------- one step of fd_reify ----------

  /** Change `i` is taken: its flags are cleared and its events computed afresh. */
  function Taken(t: Tables, i: nat, events: bv8): Tables
    requires i < |t.changes| && 0 <= t.changes[i] < |t.anfds|
  {
    t.(anfds := t.anfds[t.changes[i] := t.anfds[t.changes[i]].(reify := 0, events := events)])
  }

  lemma TakenLists(anfds: seq<ANFD>, lists: seq<seq<Watcher>>, nexts: map<Watcher, Watcher?>, fds: map<Watcher, int>, fd: nat, events: bv8)
    requires ListsOk(anfds, lists, nexts, fds) && fd < |anfds|
    ensures ListsOk(anfds[fd := anfds[fd].(reify := 0, events := events)], lists, nexts, fds)
  {
    ListsSame(anfds, anfds[fd := anfds[fd].(reify := 0, events := events)], lists, nexts, fds);
  }

  lemma TakenKeeps(t: Tables, i: nat)
    requires TablesOk(t, i) && i < |t.changes|
    ensures 0 <= t.changes[i] < |t.anfds| == |t.lists|
    ensures forall j :: 0 <= j < |t.lists[t.changes[i]]| ==> t.lists[t.changes[i]][j] in t.masks
    ensures TablesOk(Taken(t, i, OrOf(t.lists[t.changes[i]], t.masks)), i + 1)
    ensures Directed(OrOf(t.lists[t.changes[i]], t.masks))
  {
    var fd := t.changes[i];
    var events := OrOf(t.lists[fd], t.masks);
    TakenDirected(t, fd);
    TakeChange(t.anfds, t.changes, i, t.anfds[fd].(reify := 0, events := events));
    TakenLists(t.anfds, t.lists, t.nexts, t.fds, fd, events);
    TakenInterest(t.anfds, t.lists, t.masks, fd);
    hide ListsOk, ChangesOk, InterestOk, MasksOk, OrOf, Directed;
  }

  lemma TakenDirected(t: Tables, fd: nat)
    requires MasksOk(t) && fd < |t.lists| && forall j :: 0 <= j < |t.lists[fd]| ==> t.lists[fd][j] in t.masks
    ensures Directed(OrOf(t.lists[fd], t.masks))
  {
    OrOfDirected(t.lists[fd], t.masks);
  }

  lemma TakenInterest(anfds: seq<ANFD>, lists: seq<seq<Watcher>>, masks: map<Watcher, bv8>, fd: nat)
    requires |anfds| == |lists| && fd < |anfds| && InterestOk(anfds, lists, masks)
    requires forall j :: 0 <= j < |lists[fd]| ==> lists[fd][j] in masks
    ensures InterestOk(anfds[fd := anfds[fd].(reify := 0, events := OrOf(lists[fd], masks))], lists, masks)
  {
    hide OrOf;
  }

  /** Once the rest of the changes is moved to the front, none is taken. */
  lemma MovedKeeps(t: Tables, i: nat)
    requires TablesOk(t, i)
    ensures i <= |t.changes| && TablesOk(t.(changes := t.changes[i..]), 0)
  {
    MoveToFront(t.anfds, t.changes, i);
    hide ListsOk, InterestOk;
  }

  /** With no change left, every descriptor caches exactly what its watchers ask for. */
  lemma ReifiedInterest(t: Tables, fd: nat)
    requires TablesOk(t, 0) && fd < |t.anfds| && fd !in t.changes
    ensures |t.lists| == |t.anfds| && t.anfds[fd].reify == 0
    ensures forall j :: 0 <= j < |t.lists[fd]| ==> t.lists[fd][j] in t.masks
    ensures t.anfds[fd].events == OrOf(t.lists[fd], t.masks)
  {
    assert t.lists[fd] == t.lists[fd];
  }

  /** The epoll backend's fields play no part in the invariant. */
  lemma EpollFieldsKeep(t: Tables, i: nat, fd: nat, emask: bv8, egen: Gen)
    requires TablesOk(t, i) && fd < |t.anfds|
    ensures TablesOk(t.(anfds := t.anfds[fd := t.anfds[fd].(emask := emask, egen := egen)]), i)
  {
    var t' := t.(anfds := t.anfds[fd := t.anfds[fd].(emask := emask, egen := egen)]);
    ChangesSame(t.anfds, t'.anfds, t.changes, i);
    ListsSame(t.anfds, t'.anfds, t.lists, t.nexts, t.fds);
    assert |t.anfds| == |t.lists|;
    hide OrOf, ListsOk, ChangesOk, MasksOk;
    assert InterestOk(t'.anfds, t.lists, t.masks);
  }

  lemma ListsSame(anfds: seq<ANFD>, anfds': seq<ANFD>, lists: seq<seq<Watcher>>, nexts: map<Watcher, Watcher?>, fds: map<Watcher, int>)
    requires ListsOk(anfds, lists, nexts, fds) && |anfds'| == |anfds|
    requires forall x :: 0 <= x < |anfds| ==> anfds'[x].head == anfds[x].head
    ensures ListsOk(anfds', lists, nexts, fds)
  {
    forall x {:trigger ListOk(anfds', lists, nexts, fds, x)} | 0 <= x < |lists|
      ensures ListOk(anfds', lists, nexts, fds, x)
    {
      assert ListOk(anfds, lists, nexts, fds, x);
    }
  }

  lemma ChangesSame(anfds: seq<ANFD>, anfds': seq<ANFD>, changes: seq<int>, i: nat)
    requires ChangesOk(anfds, changes, i) && |anfds'| == |anfds|
    requires forall x :: 0 <= x < |anfds| ==> anfds'[x].reify == anfds[x].reify
    ensures ChangesOk(anfds', changes, i)
  {
    forall x | 0 <= x < |anfds'| && anfds'[x].reify != 0
      ensures exists j :: i <= j < |changes| && changes[j] == x
    {
      assert anfds[x].reify != 0;
    }
  }
}
