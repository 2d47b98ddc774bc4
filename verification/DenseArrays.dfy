/** The dense arrays of prepare, check, fork, cleanup, async and (one for each priority) idle
    watchers: append at the end, remove by moving the last element. */
module DenseArrays {
  import opened Watchers
  import opened Queues
  import opened Dispatch

  // ---------- as values ----------

  /** `ws` lists the watchers of `index`, each once, and `index` says where, counting from 1. */
  ghost predicate Dense(ws: seq<Watcher>, index: map<Watcher, int>) {
    && (forall i :: 0 <= i < |ws| ==> ws[i] in index && index[ws[i]] == i + 1)
    && (forall w :: w in index ==> 0 < index[w] <= |ws| && ws[index[w] - 1] == w)
  }

  lemma AppendKeeps(ws: seq<Watcher>, index: map<Watcher, int>, w: Watcher)
    requires Dense(ws, index) && w !in index
    ensures Dense(ws + [w], index[w := |ws| + 1])
  {
  }

  /** The last element moves to the place of the one removed, which may be itself. */
  function Removed(ws: seq<Watcher>, active: int): seq<Watcher>
    requires 0 < active <= |ws|
  {
    ws[active - 1 := ws[|ws| - 1]][..|ws| - 1]
  }

  lemma RemoveKeeps(ws: seq<Watcher>, index: map<Watcher, int>, w: Watcher)
    requires Dense(ws, index) && w in index
    ensures 0 < index[w] <= |ws| && ws[index[w] - 1] == w && ws[|ws| - 1] in index
    ensures Dense(Removed(ws, index[w]), index[ws[|ws| - 1] := index[w]] - {w})
  {
  }

  // ---------- in place ----------

  class DenseArray {
    const loop: Loop
    const kind: Kind
    const pri: int // for idle watchers, the priority this array serves
    var ws: seq<Watcher>
    ghost var members: set<Watcher>

    ghost function Index(): map<Watcher, int>
      reads this`members, members`active
    {
      map w | w in members :: w.active
    }

    predicate Mine(w: Watcher)
      reads w`priority
    {
      w.kind == kind && (kind == Idle ==> w.Pri() == pri)
    }

    /** The members are the active watchers of this kind (and, if idle, of this priority). */
    ghost predicate Linked()
      reads this`members, loop`running, members`priority, loop.running`priority
    {
      && (forall w :: w in members ==> w in loop.running && Mine(w))
      && (forall w :: w in loop.running && Mine(w) ==> w in members)
    }

    ghost predicate Valid()
      reads this`ws, this`members, members`active, members`priority, loop.running`priority
      reads loop`pendings, loop`all, loop`hist, loop`activecnt, loop`running, loop`refs
      reads loop.all`pending, loop.all`priority, loop.all`active, loop.dummy`pending
    {
      loop.Valid() && loop.Counted() && Linked() && Dense(ws, Index())
    }

    constructor (loop: Loop, kind: Kind, pri: int)
      requires loop.Valid() && loop.Counted()
      requires forall w :: w in loop.running ==> w.kind != kind || (kind == Idle && w.Pri() != pri)
      ensures Valid() && ws == [] && this.loop == loop && this.kind == kind && this.pri == pri
    {
      this.loop, this.kind, this.pri := loop, kind, pri;
      ws, members := [], {};
    }

    /** `ev_start` and the store at the end of the array. */
    method Append(w: Watcher)
      requires Valid() && w in loop.all && w.kind == kind && w.active == 0
      requires kind == Idle ==> Clamp(w.priority) - EV_MINPRI == pri
      modifies this`ws, this`members, loop`activecnt, loop`running, w`active, w`priority
      ensures Valid() && ws == old(ws) + [w] && members == old(members) + {w} && w.active == |ws|
      ensures loop.activecnt == old(loop.activecnt) + 1
    {
      hide Loop.Valid, Loop.Counted, Dense, Clamp;
      loop.InactiveIs(w);
      AppendKeeps(ws, Index(), w);
      ghost var index := Index();
      loop.EvStart(w, |ws| + 1);
      ws := ws + [w];
      members := members + {w};
      assert Index() == index[w := |ws|];
    }

    /** `ev_prepare_start` and its likes. A cleanup watcher gives its reference back. */
    method Start(w: Watcher)
      requires Valid() && w in loop.all && w.kind == kind
      requires kind == Idle ==> Clamp(w.priority) - EV_MINPRI == pri
      modifies this`ws, this`members, loop`activecnt, loop`running, loop`refs, w`active, w`priority
      ensures Valid() && w.active != 0
      ensures ws == if old(w.active) != 0 then old(ws) else old(ws) + [w]
      ensures loop.activecnt == old(loop.activecnt) + if old(w.active) != 0 || kind == Cleanup then 0 else 1
    {
      hide Loop.Valid, Loop.Counted, Dense, Linked;
      if w.active != 0 {
        return;
      }
      Append(w);
      if kind == Cleanup {
        loop.Unref();
      }
    }

    /** The array work of `ev_prepare_stop` and its likes, then `ev_stop`. */
    method Remove(w: Watcher)
      requires Valid() && w in members
      modifies this`ws, this`members, members`active, loop`activecnt, loop`running
      ensures Valid() && w.active == 0 && members == old(members) - {w}
      ensures 0 < old(w.active) <= |old(ws)| && ws == Removed(old(ws), old(w.active))
      ensures loop.activecnt == old(loop.activecnt) - 1
    {
      hide Loop.Valid, Loop.Counted, Dense, Removed;
      ghost var index := Index();
      RemoveKeeps(ws, index, w);
      loop.InactiveIs(w);
      var active := w.active;
      var last := ws[|ws| - 1];
      ws := Removed(ws, active);
      last.active := active;
      loop.CountedKept();
      loop.EvStop(w);
      members := members - {w};
      assert Index() == index[last := active] - {w};
    }

    /** `ev_prepare_stop` and its likes. */
    method Stop(w: Watcher)
      requires Valid() && w in loop.all && w.kind == kind && (w.active != 0 ==> Mine(w))
      modifies this`ws, this`members, members`active, w`active, w`pending
      modifies loop`pendings, loop`hist, loop`activecnt, loop`running, loop`refs
      ensures Valid() && w.active == 0 && w.pending == 0
      ensures old(w.active) == 0 ==> ws == old(ws)
      ensures old(w.active) != 0 ==> 0 < old(w.active) <= |old(ws)| && ws == Removed(old(ws), old(w.active))
      ensures loop.activecnt == old(loop.activecnt) - if old(w.active) == 0 || kind == Cleanup then 0 else 1
    {
      hide Loop.Valid, Loop.Counted, Clear, DebtOk, Dense, Removed;
      loop.InactiveIs(w);
      var _ := loop.ClearPending(w);
      if w.active != 0 {
        if kind == Cleanup {
          loop.Ref();
        }
        Remove(w);
      }
    }
  }
}
