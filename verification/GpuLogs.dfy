/** What the answered messages alone say about the databases: who is stored, who watches whom, and
    how the next message must be answered. */
module GpuLogs {
  import opened GpuRefs

  /** A message and its answer. */
  datatype Entry = Entry(m: Msg, ret: Ret)

  function Log(msgs: seq<Msg>): seq<Entry> {
    if msgs == [] then []
    else
      var n := |msgs| - 1;
      Log(msgs[..n]) + [Entry(msgs[n], Step(Run(msgs[..n]).s, msgs[n]).1)]
  }

  lemma LogAppend(msgs: seq<Msg>, m: Msg)
    ensures Log(msgs + [m]) == Log(msgs) + [Entry(m, Step(Run(msgs).s, m).1)]
  {
    assert (msgs + [m])[..|msgs|] == msgs;
  }

  // ---------- what stands ----------

  /** Something that turns a fact on or off. */
  datatype Mark =
    | HasGpu(key: Key)                    // the GPU is stored
    | HasHandle(key: Key, handle: Handle) // and was discovered with this handle
    | HasWatch(key: Key)                  // the watch is stored
    | Names(key: Key, gpus: seq<Key>)     // and names these GPUs
    | Subscribed(key: Key)                // and has subscribers

  predicate On(e: Entry, f: Mark) {
    match f
    case HasGpu(k) => e.ret == OK && (e.m.CreateGpu? || e.m.DiscoverGpu?) && e.m.key == k
    case HasHandle(k, h) => e.ret == OK && e.m.DiscoverGpu? && e.m.key == k && e.m.handle == h
    case HasWatch(k) => e.ret == OK && e.m.CreateWatch? && e.m.key == k
    case Names(k, gpus) => e.ret == OK && e.m.CreateWatch? && e.m.key == k && e.m.gpus == gpus
    case Subscribed(k) => e.ret == OK && e.m.SetSubscribers? && e.m.key == k && e.m.subscribers != 0
  }

  predicate Off(e: Entry, f: Mark) {
    match f
    case HasGpu(k) => e.ret == OK && e.m.DeleteGpu? && e.m.key == k
    case HasHandle(k, _) => e.ret == OK && e.m.DeleteGpu? && e.m.key == k
    case HasWatch(k) => e.ret == OK && e.m.DeleteWatch? && e.m.key == k
    case Names(k, _) => e.ret == OK && e.m.DeleteWatch? && e.m.key == k
    case Subscribed(k) =>
      e.ret == OK && ((e.m.SetSubscribers? && e.m.key == k && e.m.subscribers == 0) || (e.m.DeleteWatch? && e.m.key == k))
  }

  /** It was turned on and not off again. */
  ghost predicate Stands(log: seq<Entry>, f: Mark) {
    exists i {:trigger On(log[i], f)} :: 0 <= i < |log| && On(log[i], f) && forall j {:trigger Off(log[j], f)} :: i < j < |log| ==> !Off(log[j], f)
  }

  lemma StandsAppend(log: seq<Entry>, e: Entry, f: Mark)
    ensures Stands(log + [e], f) <==> On(e, f) || (Stands(log, f) && !Off(e, f))
  {
    hide On, Off;
    var log' := log + [e];
    assert forall j {:trigger log'[j]} :: 0 <= j < |log| ==> log'[j] == log[j];
    assert log'[|log|] == e;
    if i {:trigger On(log[i], f)} :| 0 <= i < |log| && On(log[i], f) && forall j {:trigger Off(log[j], f)} :: i < j < |log| ==> !Off(log[j], f) {
      if !Off(e, f) {
        assert On(log'[i], f);
      }
    }
    if On(e, f) {
      assert On(log'[|log|], f);
    }
    if i {:trigger On(log'[i], f)} :| 0 <= i < |log'| && On(log'[i], f) && forall j {:trigger Off(log'[j], f)} :: i < j < |log'| ==> !Off(log'[j], f) {
      if i < |log| {
        assert On(log[i], f);
        assert forall j {:trigger Off(log[j], f)} :: i < j < |log| ==> !Off(log[j], f) by {
          forall j {:trigger Off(log[j], f)} | i < j < |log|
            ensures !Off(log[j], f)
          {
            assert !Off(log'[j], f);
          }
        }
        assert !Off(log'[|log|], f);
      }
    }
  }

  // ---------- the databases hold what stands ----------

  ghost predicate GpusLogged(s: State, log: seq<Entry>) {
    && (forall k :: k in s.gpus <==> Stands(log, HasGpu(k)))
    && (forall k, h :: Stands(log, HasHandle(k, h)) ==> k in s.gpus && s.gpus[k].handle == h)
    && (forall k :: k in s.gpus && s.gpus[k].handle != 0 ==> Stands(log, HasHandle(k, s.gpus[k].handle)))
  }

  ghost predicate WatchesLogged(s: State, log: seq<Entry>) {
    && (forall k :: k in s.watches <==> Stands(log, HasWatch(k)))
    && (forall k, gpus :: Stands(log, Names(k, gpus)) <==> k in s.watches && s.watches[k].gpus == gpus)
    && (forall k :: Stands(log, Subscribed(k)) <==> k in s.watches && s.watches[k].subscribers > 0)
  }

  lemma KeysStay(s: State, m: Msg)
    ensures m.CreateWatch? || m.DeleteWatch? ==>
      && Step(s, m).0.gpus.Keys == s.gpus.Keys
      && forall k :: k in s.gpus ==> Step(s, m).0.gpus[k].handle == s.gpus[k].handle
  {
    match m
    case CreateWatch(_, refs, _) =>
      CountersKeepHandles(s.gpus, refs[..Found(s.gpus, refs)]);
    case DeleteWatch(key) =>
      if key in s.watches {
        CountersKeepHandles(s.gpus, s.watches[key].gpus);
      }
    case _ =>
  }

  lemma StepLogsGpus(s: State, log: seq<Entry>, m: Msg)
    requires GpusLogged(s, log)
    ensures GpusLogged(Step(s, m).0, log + [Entry(m, Step(s, m).1)])
  {
    var e, s' := Entry(m, Step(s, m).1), Step(s, m).0;
    var log' := log + [e];
    KeysStay(s, m);
    forall f
      ensures Stands(log', f) <==> On(e, f) || (Stands(log, f) && !Off(e, f))
    {
      StandsAppend(log, e, f);
    }
    hide Stands, AddAll, DecAll, Found;
  }

  /** What a message can do to the watches. */
  lemma WatchStep(s: State, m: Msg)
    ensures var (s', ret) := Step(s, m);
      s'.watches ==
        if ret != OK then s.watches
        else if m.CreateWatch? then s.watches[m.key := Watch.Watch(m.gpus, 0)]
        else if m.DeleteWatch? then s.watches - {m.key}
        else if m.SetSubscribers? && m.key in s.watches
        then s.watches[m.key := Watch.Watch(s.watches[m.key].gpus, m.subscribers)]
        else s.watches
    ensures m.SetSubscribers? && Step(s, m).1 == OK ==> m.key in s.watches
    ensures m.CreateWatch? && Step(s, m).1 == OK ==> m.key !in s.watches
  {
    hide AddAll, DecAll, Found;
  }

  lemma StepLogsWatches(s: State, log: seq<Entry>, m: Msg)
    requires WatchesLogged(s, log)
    ensures WatchesLogged(Step(s, m).0, log + [Entry(m, Step(s, m).1)])
  {
    var e, s' := Entry(m, Step(s, m).1), Step(s, m).0;
    var log' := log + [e];
    WatchStep(s, m);
    hide Step, Stands;
    forall f
      ensures Stands(log', f) <==> On(e, f) || (Stands(log, f) && !Off(e, f))
    {
      StandsAppend(log, e, f);
    }
    if e.ret != OK || !(m.CreateWatch? || m.DeleteWatch? || m.SetSubscribers?) {
      assert s'.watches == s.watches;
    } else if m.CreateWatch? {
    } else if m.DeleteWatch? {
    } else {
    }
  }

  /** In every run. */
  lemma {:induction false} LogTells(msgs: seq<Msg>)
    ensures GpusLogged(Run(msgs).s, Log(msgs)) && WatchesLogged(Run(msgs).s, Log(msgs))
  {
    hide GpusLogged, WatchesLogged, Step;
    if msgs == [] {
      NothingLogged();
    } else {
      var n := |msgs| - 1;
      LogTells(msgs[..n]);
      StepLogsGpus(Run(msgs[..n]).s, Log(msgs[..n]), msgs[n]);
      StepLogsWatches(Run(msgs[..n]).s, Log(msgs[..n]), msgs[n]);
    }
  }

  lemma NothingLogged()
    ensures GpusLogged(EMPTY, []) && WatchesLogged(EMPTY, [])
  {
  }

  // ---------- how a message is answered ----------

  /** The answer, from the log alone; whether a GPU can be deleted is settled below. */
  ghost predicate Answered(log: seq<Entry>, m: Msg, ret: Ret) {
    match m
    case CreateGpu(k, alloc) => ret == if Stands(log, HasGpu(k)) then ENTRY_EXISTS else if alloc then OK else OOM
    case DiscoverGpu(k, _, alloc) => ret == if Stands(log, HasGpu(k)) then ENTRY_EXISTS else if alloc then OK else OOM
    case UpdateGpu(k, smi) => ret == if !Stands(log, HasGpu(k)) then ENTRY_NOT_FOUND else if smi then OK else SMI_ERR
    case DeleteGpu(k) => if Stands(log, HasGpu(k)) then ret == IN_USE || ret == OK else ret == ENTRY_NOT_FOUND
    case CreateWatch(k, gpus, alloc) =>
      ret == if Stands(log, HasWatch(k)) then ENTRY_EXISTS
             else if !alloc then OOM
             else if forall i :: 0 <= i < |gpus| ==> Stands(log, HasGpu(gpus[i])) then OK
             else INVALID_ARG
    case UpdateWatch(k) => ret == if Stands(log, HasWatch(k)) then INVALID_OP else ENTRY_NOT_FOUND
    case DeleteWatch(k) =>
      ret == if !Stands(log, HasWatch(k)) then ENTRY_NOT_FOUND else if Stands(log, Subscribed(k)) then IN_USE else OK
    case SetSubscribers(k, _) => ret == if Stands(log, HasWatch(k)) then OK else ENTRY_NOT_FOUND
  }

  /** In every run every message is answered as the log demands. */
  lemma RunAnswers(msgs: seq<Msg>, m: Msg)
    ensures Answered(Log(msgs), m, Step(Run(msgs).s, m).1)
  {
    LogTells(msgs);
  }

  // ---------- subscribers protect a watch ----------

  /** A watch with subscribers stays, and goes on naming the same GPUs, whatever the message; to
      delete it is refused. */
  lemma SubscribedWatchStays(msgs: seq<Msg>, m: Msg, k: Key)
    requires Stands(Log(msgs), Subscribed(k))
    ensures k in Run(msgs).s.watches && k in Run(msgs + [m]).s.watches
    ensures Run(msgs + [m]).s.watches[k].gpus == Run(msgs).s.watches[k].gpus
    ensures m == DeleteWatch(k) ==> Step(Run(msgs).s, m).1 == IN_USE
  {
    LogTells(msgs);
    RunAnswers(msgs, m);
    RunAppend(msgs, m);
    WatchStep(Run(msgs).s, m);
    hide Run, Log, Step, Stands;
  }

  /** A stored watch without subscribers is gone once its deletion is asked for. */
  lemma UnsubscribedWatchGoes(msgs: seq<Msg>, k: Key)
    requires k in Run(msgs).s.watches && !Stands(Log(msgs), Subscribed(k))
    ensures Step(Run(msgs).s, DeleteWatch(k)).1 == OK && k !in Run(msgs + [DeleteWatch(k)]).s.watches
  {
    LogTells(msgs);
    RunAnswers(msgs, DeleteWatch(k));
    RunAppend(msgs, DeleteWatch(k));
    WatchStep(Run(msgs).s, DeleteWatch(k));
    hide Run, Log, Step, Stands;
  }

  /** Nothing else removes a watch or changes what it names. */
  lemma OnlyDeletionRemoves(msgs: seq<Msg>, m: Msg, k: Key)
    requires k in Run(msgs).s.watches && m != DeleteWatch(k)
    ensures k in Run(msgs + [m]).s.watches && Run(msgs + [m]).s.watches[k].gpus == Run(msgs).s.watches[k].gpus
  {
    RunAppend(msgs, m);
    WatchStep(Run(msgs).s, m);
    hide Run, Step;
  }

  // ---------- watches protect a GPU ----------

  /** Some stored watch names the GPU. */
  ghost predicate Watched(log: seq<Entry>, k: Key) {
    exists w, gpus :: Stands(log, Names(w, gpus)) && k in gpus
  }

  /** A creation with these GPUs would count `k` before it comes to a missing one. */
  ghost predicate CountedBy(log: seq<Entry>, gpus: seq<Key>, k: Key) {
    exists j :: 0 <= j < |gpus| && gpus[j] == k && forall i :: 0 <= i <= j ==> Stands(log, HasGpu(gpus[i]))
  }

  /** A creation that failed on a missing GPU has counted `k`, which has not been deleted since. */
  ghost predicate Leaked(log: seq<Entry>, k: Key) {
    if log == [] then false
    else
      var n := |log| - 1;
      || (log[n].m.CreateWatch? && log[n].ret == INVALID_ARG && CountedBy(log[..n], log[n].m.gpus, k))
      || (Leaked(log[..n], k) && !Off(log[n], HasGpu(k)))
  }

  lemma {:induction false} ReferredIsNamed(watches: map<Key, GpuRefs.Watch>, k: Key)
    ensures Refs(watches)[k] > 0 <==> exists w :: w in watches && k in watches[w].gpus
  {
    if w :| w in watches && k in watches[w].gpus {
      RefsWithout(watches, w);
      assert k in multiset(watches[w].gpus);
    }
    if watches != map[] && Refs(watches)[k] > 0 {
      var x :| x in watches && Refs(watches) == multiset(watches[x].gpus) + Refs(watches - {x});
      ReferredIsNamed(watches - {x}, k);
      if multiset(watches[x].gpus)[k] > 0 {
        assert k in watches[x].gpus;
      }
    }
  }

  lemma CountedIs(s: State, log: seq<Entry>, m: Msg, k: Key)
    requires GpusLogged(s, log) && m.CreateWatch? && m.key !in s.watches && m.alloc
    ensures k in Counted(s, m) <==> CountedBy(log, m.gpus, k)
  {
    var n := Found(s.gpus, m.gpus);
    hide Stands;
    assert Counted(s, m) == m.gpus[..n];
    assert forall i :: 0 <= i < |m.gpus| ==> (m.gpus[i] in s.gpus <==> Stands(log, HasGpu(m.gpus[i])));
    if k in m.gpus[..n] {
      var j :| 0 <= j < n && m.gpus[j] == k;
      assert forall i :: 0 <= i <= j ==> Stands(log, HasGpu(m.gpus[i]));
    }
  }

  lemma LeakedAppend(log: seq<Entry>, e: Entry, k: Key)
    ensures Leaked(log + [e], k) <==>
      || (e.m.CreateWatch? && e.ret == INVALID_ARG && CountedBy(log, e.m.gpus, k))
      || (Leaked(log, k) && !Off(e, HasGpu(k)))
  {
    hide CountedBy;
    assert (log + [e])[..|log|] == log;
  }

  lemma {:induction false} LeakedIs(msgs: seq<Msg>, k: Key)
    ensures Run(msgs).leaked[k] > 0 <==> Leaked(Log(msgs), k)
  {
    hide Leaked, CountedBy, Account, Step, GpusLogged, WatchesLogged;
    if msgs == [] {
      NothingLeaks(k);
    } else {
      var n := |msgs| - 1;
      LeakedIs(msgs[..n], k);
      LogTells(msgs[..n]);
      LeakStep(Run(msgs[..n]), Log(msgs[..n]), msgs[n], k);
      LeakedAppend(Log(msgs[..n]), Entry(msgs[n], Step(Run(msgs[..n]).s, msgs[n]).1), k);
    }
  }

  lemma NothingLeaks(k: Key)
    ensures !Leaked([], k)
  {
  }

  lemma {:induction false} LogLength(msgs: seq<Msg>)
    ensures |Log(msgs)| == |msgs|
  {
    if msgs != [] {
      LogLength(msgs[..|msgs| - 1]);
    }
  }

  lemma LeakStep(l: Ledger, log: seq<Entry>, m: Msg, k: Key)
    requires GpusLogged(l.s, log) && WatchesLogged(l.s, log)
    ensures var ret := Step(l.s, m).1;
      Account(l, m).leaked[k] > 0 <==>
        || (m.CreateWatch? && ret == INVALID_ARG && CountedBy(log, m.gpus, k))
        || (l.leaked[k] > 0 && !Off(Entry(m, ret), HasGpu(k)))
  {
    if m.CreateWatch? && m.key !in l.s.watches && m.alloc {
      CountedIs(l.s, log, m, k);
      assert k in Counted(l.s, m) <==> multiset(Counted(l.s, m))[k] > 0;
    }
    hide Stands, CountedBy, AddAll, DecAll, Found;
  }

  /** Unless a counter could have wrapped around: a GPU can be deleted exactly if no stored watch
      names it and no failed creation has counted it. */
  lemma DeleteGpuExactly(msgs: seq<Msg>, k: Key)
    requires Narrow(Run(msgs)) && Stands(Log(msgs), HasGpu(k))
    ensures Step(Run(msgs).s, DeleteGpu(k)).1 == if Watched(Log(msgs), k) || Leaked(Log(msgs), k) then IN_USE else OK
  {
    hide Run, Log, Stands, Watched, Leaked, Refs, Narrow, Sound, WatchesLogged;
    Integrity(msgs);
    LogTells(msgs);
    LeakedIs(msgs, k);
    ReferredIsNamed(Run(msgs).s.watches, k);
    WatchedIs(Run(msgs).s, Log(msgs), k);
  }

  lemma WatchedIs(s: State, log: seq<Entry>, k: Key)
    requires WatchesLogged(s, log)
    ensures Watched(log, k) <==> exists w :: w in s.watches && k in s.watches[w].gpus
  {
    hide Stands;
    if w :| w in s.watches && k in s.watches[w].gpus {
      assert Stands(log, Names(w, s.watches[w].gpus));
    }
  }

  // ---------- the handle index ----------

  lemma {:induction false} LogAt(msgs: seq<Msg>, i: nat)
    requires i < |msgs|
    ensures |Log(msgs)| == |msgs| && Log(msgs)[i].m == msgs[i]
  {
    var n := |msgs| - 1;
    LogLength(msgs[..n]);
    if i < n {
      LogAt(msgs[..n], i);
    }
  }

  lemma HandleIsDiscovered(msgs: seq<Msg>, k: Key, h: Handle)
    requires Stands(Log(msgs), HasHandle(k, h))
    ensures exists i :: 0 <= i < |msgs| && msgs[i].DiscoverGpu? && msgs[i].handle == h && msgs[i].key == k
  {
    var i {:trigger On(Log(msgs)[i], HasHandle(k, h))} :| 0 <= i < |Log(msgs)| && On(Log(msgs)[i], HasHandle(k, h));
    LogLength(msgs);
    LogAt(msgs, i);
  }

  /** The handle index after one more message. */
  lemma HandleStep(s: State, log: seq<Entry>, m: Msg, k: Key, h: Handle)
    requires GpusLogged(s, log) && h != 0 && (m.DiscoverGpu? && m.handle == h ==> m.key == k)
    requires Stands(log, HasHandle(k, h)) ==> h in s.handles && s.handles[h] == k
    requires forall x :: Stands(log, HasHandle(x, h)) ==> x == k
    ensures var e := Entry(m, Step(s, m).1);
      On(e, HasHandle(k, h)) || (Stands(log, HasHandle(k, h)) && !Off(e, HasHandle(k, h))) ==>
        h in Step(s, m).0.handles && Step(s, m).0.handles[h] == k
  {
    hide Stands, AddAll, DecAll, Found;
    if m.DeleteGpu? && m.key in s.gpus && s.gpus[m.key].handle == h {
      assert Stands(log, HasHandle(m.key, h));
    }
  }

  /** A GPU is found under the handle it was discovered with, until it is deleted, unless another
      one is discovered with the same handle. Handle 0 belongs to GPUs that were not discovered. */
  lemma {:induction false} FoundByHandle(msgs: seq<Msg>, k: Key, h: Handle)
    requires h != 0 && Stands(Log(msgs), HasHandle(k, h))
    requires forall i {:trigger msgs[i]} :: 0 <= i < |msgs| && msgs[i].DiscoverGpu? && msgs[i].handle == h ==> msgs[i].key == k
    ensures h in Run(msgs).s.handles && Run(msgs).s.handles[h] == k
  {
    if msgs != [] {
      var n := |msgs| - 1;
      var s, log, m := Run(msgs[..n]).s, Log(msgs[..n]), msgs[n];
      LogTells(msgs[..n]);
      StandsAppend(log, Entry(m, Step(s, m).1), HasHandle(k, h));
      if Stands(log, HasHandle(k, h)) {
        FoundByHandle(msgs[..n], k, h);
      }
      forall x | Stands(log, HasHandle(x, h))
        ensures x == k
      {
        HandleIsDiscovered(msgs[..n], x, h);
      }
      HandleStep(s, log, m, k, h);
    }
  }
}
