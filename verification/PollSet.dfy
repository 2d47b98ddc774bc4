/** The poll backend's set of descriptors: a dense array of `struct pollfd` and an index from
    descriptors into it, with removal by moving the last element. */
module PollSets {
  import opened Events
  import Growth

  const POLLIN: bv16 := 0x001
  const POLLOUT: bv16 := 0x004

  datatype PollFd = PollFd(fd: int, events: bv16)

  function ToPoll(mask: bv8): bv16 {
    (if mask & EV_READ != 0 then POLLIN else 0) | (if mask & EV_WRITE != 0 then POLLOUT else 0)
  }

  function FromPoll(events: bv16): bv8 {
    (if events & POLLIN != 0 then EV_READ else 0) | (if events & POLLOUT != 0 then EV_WRITE else 0)
  }

  /** The direction bits survive the translation. */
  lemma PollRoundTrip(mask: bv8)
    ensures FromPoll(ToPoll(mask)) == mask & (EV_READ | EV_WRITE)
    ensures mask & (EV_READ | EV_WRITE) != 0 <==> ToPoll(mask) != 0
  {
  }

  /** The kernel is asked for input exactly if the mask has reading, and for output exactly if it
      has writing. */
  ghost predicate PolledFor(polls: seq<PollFd>, fd: int, mask: bv8) {
    exists i :: 0 <= i < |polls| && polls[i].fd == fd
      && (polls[i].events & POLLIN != 0 <==> mask & EV_READ != 0) && (polls[i].events & POLLOUT != 0 <==> mask & EV_WRITE != 0)
  }

  lemma PolledIs(polls: seq<PollFd>, i: nat, mask: bv8)
    requires i < |polls| && polls[i].events == ToPoll(mask)
    ensures PolledFor(polls, polls[i].fd, mask)
  {
  }

  /** `idxs` is the inverse of `polls`: -1 for descriptors that are not there. */
  ghost predicate Inverse(polls: seq<PollFd>, idxs: seq<int>) {
    && (forall i {:trigger polls[i]} :: 0 <= i < |polls| ==> 0 <= polls[i].fd < |idxs| && idxs[polls[i].fd] == i)
    && (forall fd {:trigger idxs[fd]} :: 0 <= fd < |idxs| ==>
          idxs[fd] == -1 || (0 <= idxs[fd] < |polls| && polls[idxs[fd]].fd == fd))
  }

  /** The mask that is polled for `fd`, in `EV_` terms; 0 if it is not in the set. */
  function MaskOf(polls: seq<PollFd>, idxs: seq<int>, fd: int): bv8 {
    if 0 <= fd < |idxs| && 0 <= idxs[fd] < |polls| then FromPoll(polls[idxs[fd]].events) else 0
  }

  /** No entry but the one at `k` is there for nothing. */
  predicate UsefulBut(polls: seq<PollFd>, k: int) {
    forall i :: 0 <= i < |polls| && i != k ==> FromPoll(polls[i].events) != 0
  }

  ghost predicate SameMasks(polls: seq<PollFd>, idxs: seq<int>, polls': seq<PollFd>, idxs': seq<int>, but: int) {
    forall fd {:trigger MaskOf(polls', idxs', fd)} :: fd != but ==> MaskOf(polls', idxs', fd) == MaskOf(polls, idxs, fd)
  }

  lemma WidenKeeps(polls: seq<PollFd>, idxs: seq<int>, n: nat)
    requires Inverse(polls, idxs)
    ensures Inverse(polls, idxs + seq(n, _ => -1)) && SameMasks(polls, idxs, polls, idxs + seq(n, _ => -1), -1)
    ensures MaskOf(polls, idxs + seq(n, _ => -1), -1) == MaskOf(polls, idxs, -1)
  {
  }

  lemma AllocKeeps(polls: seq<PollFd>, idxs: seq<int>, fd: nat)
    requires Inverse(polls, idxs) && fd < |idxs| && idxs[fd] == -1
    ensures var polls', idxs' := polls + [PollFd(fd, 0)], idxs[fd := |polls|];
      Inverse(polls', idxs') && SameMasks(polls, idxs, polls', idxs', fd) && MaskOf(polls', idxs', fd) == 0
  {
  }

  lemma SetKeeps(polls: seq<PollFd>, idxs: seq<int>, fd: nat, events: bv16)
    requires Inverse(polls, idxs) && fd < |idxs| && 0 <= idxs[fd] < |polls|
    ensures var polls' := polls[idxs[fd] := PollFd(fd, events)];
      Inverse(polls', idxs) && SameMasks(polls, idxs, polls', idxs, fd) && MaskOf(polls', idxs, fd) == FromPoll(events)
  {
  }

  function DropPoll(polls: seq<PollFd>, idx: nat): seq<PollFd>
    requires idx < |polls|
  {
    if idx < |polls| - 1 then polls[idx := polls[|polls| - 1]][..|polls| - 1] else polls[..|polls| - 1]
  }

  function DropIdx(polls: seq<PollFd>, idxs: seq<int>, fd: nat): seq<int>
    requires fd < |idxs| && 0 <= idxs[fd] < |polls| && 0 <= polls[|polls| - 1].fd < |idxs|
  {
    if idxs[fd] < |polls| - 1 then idxs[fd := -1][polls[|polls| - 1].fd := idxs[fd]] else idxs[fd := -1]
  }

  lemma DropEntries(polls: seq<PollFd>, idxs: seq<int>, fd: nat, i: nat)
    requires Inverse(polls, idxs) && fd < |idxs| && 0 <= idxs[fd] < |polls| && 0 <= polls[|polls| - 1].fd < |idxs|
    requires i < |polls| - 1
    ensures var polls', idxs' := DropPoll(polls, idxs[fd]), DropIdx(polls, idxs, fd);
      |polls'| == |polls| - 1 && 0 <= polls'[i].fd < |idxs'| && idxs'[polls'[i].fd] == i
  {
    assert polls[i].fd == fd <==> i == idxs[fd];
  }

  lemma DropIndexes(polls: seq<PollFd>, idxs: seq<int>, fd: nat, x: nat)
    requires Inverse(polls, idxs) && fd < |idxs| && 0 <= idxs[fd] < |polls| && 0 <= polls[|polls| - 1].fd < |idxs|
    requires x < |idxs|
    ensures var polls', idxs' := DropPoll(polls, idxs[fd]), DropIdx(polls, idxs, fd);
      |idxs'| == |idxs| && (idxs'[x] == -1 || (0 <= idxs'[x] < |polls'| && polls'[idxs'[x]].fd == x))
  {
    assert idxs[x] != -1 ==> polls[idxs[x]].fd == x;
  }

  lemma DropInverse(polls: seq<PollFd>, idxs: seq<int>, fd: nat)
    requires Inverse(polls, idxs) && fd < |idxs| && 0 <= idxs[fd] < |polls| && 0 <= polls[|polls| - 1].fd < |idxs|
    ensures Inverse(DropPoll(polls, idxs[fd]), DropIdx(polls, idxs, fd))
  {
    hide DropPoll, DropIdx;
    var polls', idxs' := DropPoll(polls, idxs[fd]), DropIdx(polls, idxs, fd);
    DropLengths(polls, idxs, fd);
    forall i {:trigger polls'[i]} | 0 <= i < |polls'|
      ensures 0 <= polls'[i].fd < |idxs'| && idxs'[polls'[i].fd] == i
    {
      DropEntries(polls, idxs, fd, i);
    }
    forall x {:trigger idxs'[x]} | 0 <= x < |idxs'|
      ensures idxs'[x] == -1 || (0 <= idxs'[x] < |polls'| && polls'[idxs'[x]].fd == x)
    {
      DropIndexes(polls, idxs, fd, x);
    }
  }

  lemma DropLengths(polls: seq<PollFd>, idxs: seq<int>, fd: nat)
    requires fd < |idxs| && 0 <= idxs[fd] < |polls| && 0 <= polls[|polls| - 1].fd < |idxs|
    ensures |DropPoll(polls, idxs[fd])| == |polls| - 1 && |DropIdx(polls, idxs, fd)| == |idxs|
  {
  }

  lemma DropMask(polls: seq<PollFd>, idxs: seq<int>, fd: nat, x: int)
    requires Inverse(polls, idxs) && fd < |idxs| && 0 <= idxs[fd] < |polls| && 0 <= polls[|polls| - 1].fd < |idxs|
    ensures MaskOf(DropPoll(polls, idxs[fd]), DropIdx(polls, idxs, fd), x) == if x == fd then 0 else MaskOf(polls, idxs, x)
  {
    hide FromPoll;
    var n := |polls| - 1;
    if x != fd && 0 <= x < |idxs| && idxs[x] != -1 {
      assert polls[idxs[x]].fd == x;
      if idxs[x] == n {
        assert DropIdx(polls, idxs, fd)[x] == idxs[fd];
      } else {
        assert DropIdx(polls, idxs, fd)[x] == idxs[x] != idxs[fd];
      }
    }
  }

  lemma DropKeeps(polls: seq<PollFd>, idxs: seq<int>, fd: nat)
    requires Inverse(polls, idxs) && fd < |idxs| && 0 <= idxs[fd] < |polls|
    ensures 0 <= polls[|polls| - 1].fd < |idxs|
    ensures var polls', idxs' := DropPoll(polls, idxs[fd]), DropIdx(polls, idxs, fd);
      Inverse(polls', idxs') && SameMasks(polls, idxs, polls', idxs', fd) && MaskOf(polls', idxs', fd) == 0
  {
    DropInverse(polls, idxs, fd);
    forall x
      ensures MaskOf(DropPoll(polls, idxs[fd]), DropIdx(polls, idxs, fd), x) == if x == fd then 0 else MaskOf(polls, idxs, x)
    {
      DropMask(polls, idxs, fd, x);
    }
  }

  class PollSet {
    var polls: seq<PollFd>
    var pollidxs: seq<int>

    ghost predicate Valid()
      reads this
    {
      Inverse(polls, pollidxs) && UsefulBut(polls, -1)
    }

    function Mask(fd: int): bv8
      reads this
    {
      MaskOf(polls, pollidxs, fd)
    }

    constructor ()
      ensures Valid() && forall fd :: Mask(fd) == 0
    {
      polls, pollidxs := [], [];
    }

    /** The first half of `poll_modify`: find the entry of `fd` or append one. */
    method Locate(fd: int) returns (idx: int)
      requires Valid() && 0 <= fd
      modifies this
      ensures fd < |pollidxs| && pollidxs[fd] == idx && 0 <= idx < |polls|
      ensures Inverse(polls, pollidxs) && UsefulBut(polls, idx)
      ensures SameMasks(old(polls), old(pollidxs), polls, pollidxs, fd)
    {
      hide MaskOf, FromPoll;
      if fd + 1 > |pollidxs| {
        var size := Growth.ArrayNextsize(4, |pollidxs|, fd + 1);
        WidenKeeps(polls, pollidxs, size - |pollidxs|);
        pollidxs := pollidxs + seq(size - |pollidxs|, _ => -1);
      }
      idx := pollidxs[fd];
      if idx < 0 {
        AllocKeeps(polls, pollidxs, fd);
        idx := |polls|;
        pollidxs := pollidxs[fd := idx];
        polls := polls + [PollFd(fd, 0)];
      }
    }

    /** `poll_modify`: afterwards `fd` is polled for exactly `nev`, and no entry is wasted. */
    method Modify(fd: int, oev: bv8, nev: bv8)
      requires Valid() && 0 <= fd && nev & (EV_READ | EV_WRITE) == nev
      modifies this
      ensures Valid()
      ensures Mask(fd) == if oev == nev then old(Mask(fd)) else nev
      ensures forall x :: x != fd ==> Mask(x) == old(Mask(x))
      ensures oev != nev && nev != 0 ==> PolledFor(polls, fd, nev)
    {
      hide MaskOf, Inverse, ToPoll, FromPoll, PolledFor;
      if oev == nev {
        return;
      }
      var idx := Locate(fd);
      if nev != 0 {
        PollRoundTrip(nev);
        SetKeeps(polls, pollidxs, fd, ToPoll(nev));
        polls := polls[idx := PollFd(fd, ToPoll(nev))];
        PolledIs(polls, idx, nev);
      } else {
        DropKeeps(polls, pollidxs, fd);
        pollidxs := pollidxs[fd := -1];
        if idx < |polls| - 1 {
          pollidxs := pollidxs[polls[|polls| - 1].fd := idx];
          polls := polls[idx := polls[|polls| - 1]][..|polls| - 1];
        } else {
          polls := polls[..|polls| - 1];
        }
      }
    }
  }

  /** The entries list every descriptor with a mask exactly once. */
  lemma EachOnce(polls: seq<PollFd>, idxs: seq<int>, fd: int)
    requires Inverse(polls, idxs) && UsefulBut(polls, -1)
    ensures MaskOf(polls, idxs, fd) != 0 <==> exists i :: 0 <= i < |polls| && polls[i].fd == fd
    ensures forall i, j :: 0 <= i < j < |polls| ==> polls[i].fd != polls[j].fd
  {
    if MaskOf(polls, idxs, fd) != 0 {
      assert polls[idxs[fd]].fd == fd;
    }
    if i :| 0 <= i < |polls| && polls[i].fd == fd {
      assert idxs[fd] == i;
    }
  }
}
