/** The agent's GPU and watch databases as values: what each API message does to them, and what
    holds in every run. */
module GpuRefs {
  type Key = int
  type Handle = int

  const UINT32 := 0x1_0000_0000

  /** A GPU's `num_gpu_watch_` and `handle_`. */
  datatype Gpu = Gpu(num: int, handle: Handle)

  /** A watch object's `spec_.gpu` and `num_subscriber_`. */
  datatype Watch = Watch(gpus: seq<Key>, subscribers: bv8)

  /** `gpu_key_db_`, `gpu_db_` (by the keys of its entries) and `gpu_watch_key_db_`. */
  datatype State = State(gpus: map<Key, Gpu>, handles: map<Handle, Key>, watches: map<Key, Watch>)

  const EMPTY := State(map[], map[], map[])

  /** `sdk_ret_t`, as far as it is returned here. */
  datatype Ret = OK | ENTRY_EXISTS | ENTRY_NOT_FOUND | OOM | INVALID_ARG | INVALID_OP | IN_USE | SMI_ERR

  /** Everything that reaches the databases. `alloc` says whether memory is left; `SetSubscribers`
      is what the watcher thread does, which is not modelled. */
  datatype Msg =
    | CreateGpu(key: Key, alloc: bool)
    | DiscoverGpu(key: Key, handle: Handle, alloc: bool) // one GPU in create_gpus
    | UpdateGpu(key: Key, smi: bool)
    | DeleteGpu(key: Key)
    | CreateWatch(key: Key, gpus: seq<Key>, alloc: bool)
    | UpdateWatch(key: Key)
    | DeleteWatch(key: Key)
    | SetSubscribers(key: Key, subscribers: bv8)

  /** The value of a `uint32_t`. */
  function Wrap(n: int): int { n % UINT32 }

  lemma WrapAdd(a: int, b: int)
    ensures Wrap(Wrap(a) + b) == Wrap(a + b)
  {
  }

  lemma WrapSmall(n: int)
    requires 0 <= n < UINT32
    ensures Wrap(n) == n
  {
  }

  function Inc(g: Gpu): Gpu { g.(num := Wrap(g.num + 1)) }

  function Dec(g: Gpu): Gpu { g.(num := Wrap(g.num - 1)) }

  /** How many of the first references of a new watch are found. */
  function Found(gpus: map<Key, Gpu>, refs: seq<Key>): (n: nat)
    ensures n <= |refs| && (forall i :: 0 <= i < n ==> refs[i] in gpus) && (n < |refs| ==> refs[n] !in gpus)
  {
    if refs == [] || refs[0] !in gpus then 0
    else
      assert forall i :: 0 < i < |refs| ==> refs[i] == refs[1..][i - 1];
      1 + Found(gpus, refs[1..])
  }

  lemma {:induction false} FoundIs(gpus: map<Key, Gpu>, refs: seq<Key>, n: nat)
    requires n <= |refs| && (forall i :: 0 <= i < n ==> refs[i] in gpus) && (n < |refs| ==> refs[n] !in gpus)
    ensures Found(gpus, refs) == n
  {
    if n > 0 {
      FoundIs(gpus, refs[1..], n - 1);
    }
  }

  /** `gpu_watch_add` on each. */
  function AddAll(gpus: map<Key, Gpu>, refs: seq<Key>): (r: map<Key, Gpu>)
    requires forall i :: 0 <= i < |refs| ==> refs[i] in gpus
    ensures r.Keys == gpus.Keys
  {
    if refs == [] then gpus
    else
      var n := |refs| - 1;
      var r := AddAll(gpus, refs[..n]);
      r[refs[n] := Inc(r[refs[n]])]
  }

  /** `r` is what has become of `gpus` after the first `i` references, which were all found. */
  ghost predicate Added(gpus: map<Key, Gpu>, refs: seq<Key>, i: nat, r: map<Key, Gpu>) {
    i <= |refs| && (forall j :: 0 <= j < i ==> refs[j] in gpus) && r == AddAll(gpus, refs[..i])
  }

  lemma NoneAdded(gpus: map<Key, Gpu>, refs: seq<Key>)
    ensures Added(gpus, refs, 0, gpus)
  {
  }

  lemma AddedNext(gpus: map<Key, Gpu>, refs: seq<Key>, i: nat, r: map<Key, Gpu>)
    requires Added(gpus, refs, i, r) && i < |refs| && refs[i] in r
    ensures Added(gpus, refs, i + 1, r[refs[i] := Inc(r[refs[i]])])
  {
    assert refs[..i + 1][..i] == refs[..i];
  }

  lemma AddedUpTo(gpus: map<Key, Gpu>, refs: seq<Key>, i: nat, r: map<Key, Gpu>)
    requires Added(gpus, refs, i, r) && (i < |refs| ==> refs[i] !in r)
    ensures Found(gpus, refs) == i && r == AddAll(gpus, refs[..i])
  {
    FoundIs(gpus, refs, i);
  }

  /** `gpu_watch_dec` on each that is still there. */
  function DecAll(gpus: map<Key, Gpu>, refs: seq<Key>): (r: map<Key, Gpu>)
    ensures r.Keys == gpus.Keys
  {
    if refs == [] then gpus
    else
      var n := |refs| - 1;
      var r := DecAll(gpus, refs[..n]);
      if refs[n] in r then r[refs[n] := Dec(r[refs[n]])] else r
  }

  function Create(s: State, key: Key, handle: Handle, alloc: bool): (State, Ret) {
    if key in s.gpus then (s, ENTRY_EXISTS)
    else if !alloc then (s, OOM)
    else (s.(gpus := s.gpus[key := Gpu(0, handle)]), OK)
  }

  /** `api_msg_handle_cb`, with the handlers it calls. */
  function Step(s: State, m: Msg): (State, Ret) {
    match m
    case CreateGpu(key, alloc) => Create(s, key, 0, alloc)
    case DiscoverGpu(key, handle, alloc) =>
      var (s', ret) := Create(s, key, handle, alloc);
      (if ret == OK then s'.(handles := s.handles[handle := key]) else s', ret)
    case UpdateGpu(key, smi) =>
      (s, if key !in s.gpus then ENTRY_NOT_FOUND else if smi then OK else SMI_ERR)
    case DeleteGpu(key) =>
      if key !in s.gpus then (s, ENTRY_NOT_FOUND)
      else if s.gpus[key].num != 0 then (s, IN_USE)
      else (s.(gpus := s.gpus - {key}, handles := s.handles - {s.gpus[key].handle}), OK)
    case CreateWatch(key, refs, alloc) =>
      if key in s.watches then (s, ENTRY_EXISTS)
      else if !alloc then (s, OOM)
      else
        var n := Found(s.gpus, refs);
        var s' := s.(gpus := AddAll(s.gpus, refs[..n]));
        if n < |refs| then (s', INVALID_ARG)
        else (s'.(watches := s.watches[key := Watch(refs, 0)]), OK)
    case UpdateWatch(key) => (s, if key !in s.watches then ENTRY_NOT_FOUND else INVALID_OP)
    case DeleteWatch(key) =>
      if key !in s.watches then (s, ENTRY_NOT_FOUND)
      else if s.watches[key].subscribers > 0 then (s, IN_USE)
      else (s.(gpus := DecAll(s.gpus, s.watches[key].gpus), watches := s.watches - {key}), OK)
    case SetSubscribers(key, subscribers) =>
      if key in s.watches then (s.(watches := s.watches[key := s.watches[key].(subscribers := subscribers)]), OK)
      else (s, ENTRY_NOT_FOUND)
  }

  // ---------- the reference: what the watches refer to ----------

  lemma SomeKey(watches: map<Key, Watch>)
    ensures watches == map[] || exists k :: k in watches
  {
    if forall k :: k !in watches {
      assert watches == map[];
    }
  }

  /** Every reference of every stored watch, with multiplicity. */
  ghost function Refs(watches: map<Key, Watch>): multiset<Key> {
    if watches == map[] then multiset{}
    else
      SomeKey(watches);
      var k :| k in watches;
      multiset(watches[k].gpus) + Refs(watches - {k})
  }

  lemma {:induction false} RefsWithout(watches: map<Key, Watch>, k: Key)
    requires k in watches
    ensures Refs(watches) == multiset(watches[k].gpus) + Refs(watches - {k})
  {
    var x :| x in watches && Refs(watches) == multiset(watches[x].gpus) + Refs(watches - {x});
    if x != k {
      RefsWithout(watches - {x}, k);
      RefsWithout(watches - {k}, x);
      assert watches - {x} - {k} == watches - {k} - {x};
    }
  }

  lemma RefsAdd(watches: map<Key, Watch>, k: Key, w: Watch)
    requires k !in watches
    ensures Refs(watches[k := w]) == Refs(watches) + multiset(w.gpus)
  {
    RefsWithout(watches[k := w], k);
    assert watches[k := w] - {k} == watches;
  }

  lemma RefsSame(watches: map<Key, Watch>, k: Key, w: Watch)
    requires k in watches && w.gpus == watches[k].gpus
    ensures Refs(watches[k := w]) == Refs(watches)
  {
    RefsWithout(watches, k);
    RefsWithout(watches[k := w], k);
    assert watches[k := w] - {k} == watches - {k};
  }

  /** A key that some watch names has references. */
  lemma NamedIsReferred(watches: map<Key, Watch>, w: Key, i: nat)
    requires w in watches && i < |watches[w].gpus|
    ensures Refs(watches)[watches[w].gpus[i]] > 0
  {
    RefsWithout(watches, w);
    assert watches[w].gpus[i] in multiset(watches[w].gpus);
  }

  // ---------- runs ----------

  /** A state with an account of the increments that failed creations have left behind on the
      GPUs, and of all increments so far. */
  datatype Ledger = Ledger(s: State, leaked: multiset<Key>, added: multiset<Key>)

  const START := Ledger(EMPTY, multiset{}, multiset{})

  /** The references that a creation has counted, whether or not it then fails. */
  function Counted(s: State, m: Msg): seq<Key> {
    if m.CreateWatch? && m.key !in s.watches && m.alloc then m.gpus[..Found(s.gpus, m.gpus)] else []
  }

  function Account(l: Ledger, m: Msg): Ledger {
    var (s', ret) := Step(l.s, m);
    var counted := Counted(l.s, m);
    Ledger(s',
           if m.DeleteGpu? && ret == OK then l.leaked[m.key := 0]
           else if ret == INVALID_ARG then l.leaked + multiset(counted)
           else l.leaked,
           l.added + multiset(counted))
  }

  function Run(msgs: seq<Msg>): Ledger {
    if msgs == [] then START else Account(Run(msgs[..|msgs| - 1]), msgs[|msgs| - 1])
  }

  /** What a GPU's counter should hold: the references of the stored watches and the leaked
      increments. */
  ghost function Claims(l: Ledger, k: Key): nat {
    Refs(l.s.watches)[k] + l.leaked[k]
  }

  /** References resolve, and counters hold what they should, modulo their width. */
  ghost predicate Sound(l: Ledger) {
    && (forall k :: k !in l.s.gpus ==> Claims(l, k) == 0)
    && (forall k :: k in l.s.gpus ==> l.s.gpus[k].num == Wrap(Claims(l, k)))
  }

  /** The one step that goes wrong: a GPU is deleted although it is watched, because its counter
      has wrapped around to 0. */
  ghost predicate Orphans(l: Ledger, m: Msg) {
    m.DeleteGpu? && m.key in l.s.gpus && Refs(l.s.watches)[m.key] > 0 && l.s.gpus[m.key].num == 0
  }

  lemma {:induction false} AddAllCounts(gpus: map<Key, Gpu>, refs: seq<Key>, k: Key, claims: int)
    requires (forall i :: 0 <= i < |refs| ==> refs[i] in gpus) && k in gpus && gpus[k].num == Wrap(claims)
    ensures AddAll(gpus, refs)[k] == Gpu(Wrap(claims + multiset(refs)[k]), gpus[k].handle)
  {
    hide Wrap;
    if refs != [] {
      var n := |refs| - 1;
      AddAllCounts(gpus, refs[..n], k, claims);
      assert refs == refs[..n] + [refs[n]];
      WrapAdd(claims + multiset(refs[..n])[k], 1);
    }
  }

  lemma {:induction false} DecAllCounts(gpus: map<Key, Gpu>, refs: seq<Key>, k: Key, claims: int)
    requires k in gpus && gpus[k].num == Wrap(claims)
    ensures DecAll(gpus, refs)[k] == Gpu(Wrap(claims - multiset(refs)[k]), gpus[k].handle)
  {
    hide Wrap;
    if refs != [] {
      var n := |refs| - 1;
      DecAllCounts(gpus, refs[..n], k, claims);
      assert refs == refs[..n] + [refs[n]];
      WrapAdd(claims - multiset(refs[..n])[k], -1);
    }
  }

  lemma CreateWatchSound(l: Ledger, m: Msg)
    requires Sound(l) && m.CreateWatch?
    ensures Sound(Account(l, m))
  {
    if m.key !in l.s.watches && m.alloc {
      CreateWatchClaims(l, m);
      hide Account, Counted, Step, Claims, Refs, Found, Sound;
      CountedSound(l, Account(l, m), Counted(l.s, m));
    } else {
      hide Refs, Wrap;
      assert Account(l, m).s == l.s;
    }
  }

  lemma CountedSound(l: Ledger, l': Ledger, counted: seq<Key>)
    requires Sound(l) && (forall i :: 0 <= i < |counted| ==> counted[i] in l.s.gpus) && l'.s.gpus == AddAll(l.s.gpus, counted)
    requires forall k :: Claims(l', k) == Claims(l, k) + multiset(counted)[k]
    ensures Sound(l')
  {
    hide Wrap, AddAll, Claims;
    assert forall k :: k !in l.s.gpus ==> multiset(counted)[k] == 0;
    forall k | k in l.s.gpus
      ensures l'.s.gpus[k].num == Wrap(Claims(l', k))
    {
      AddAllCounts(l.s.gpus, counted, k, Claims(l, k));
    }
  }

  /** A creation counts, and then either stores or leaks, the references it has found. */
  lemma CreateWatchClaims(l: Ledger, m: Msg)
    requires m.CreateWatch? && m.key !in l.s.watches && m.alloc
    ensures var counted, l' := Counted(l.s, m), Account(l, m);
      && (forall k :: k in counted ==> k in l.s.gpus) && l'.s.gpus == AddAll(l.s.gpus, counted)
      && forall k :: Claims(l', k) == Claims(l, k) + multiset(counted)[k]
  {
    var counted := Counted(l.s, m);
    if |counted| == |m.gpus| {
      assert counted == m.gpus;
      RefsAdd(l.s.watches, m.key, Watch(m.gpus, 0));
    }
    hide AddAll, Refs;
  }

  lemma DeleteWatchSound(l: Ledger, m: Msg)
    requires Sound(l) && m.DeleteWatch?
    ensures Sound(Account(l, m))
  {
    hide Wrap, DecAll;
    if m.key in l.s.watches && l.s.watches[m.key].subscribers == 0 {
      var refs := l.s.watches[m.key].gpus;
      RefsWithout(l.s.watches, m.key);
      forall k | k in l.s.gpus
        ensures Account(l, m).s.gpus[k].num == Wrap(Claims(Account(l, m), k))
      {
        DecAllCounts(l.s.gpus, refs, k, Claims(l, k));
      }
    }
  }

  lemma DeleteGpuSound(l: Ledger, m: Msg)
    requires Sound(l) && m.DeleteGpu?
    ensures Sound(Account(l, m)) <==> !Orphans(l, m)
  {
    hide Wrap, Refs;
    var l' := Account(l, m);
    if m.key in l.s.gpus && l.s.gpus[m.key].num == 0 {
      assert forall k :: k != m.key ==> Claims(l', k) == Claims(l, k);
      assert Claims(l', m.key) == Refs(l.s.watches)[m.key];
    } else {
      assert l' == l;
    }
  }

  lemma CreateGpuSound(l: Ledger, m: Msg)
    requires Sound(l) && (m.CreateGpu? || m.DiscoverGpu?)
    ensures Sound(Account(l, m))
  {
    WrapSmall(0);
    hide Wrap, Refs;
    var l' := Account(l, m);
    assert forall k :: Claims(l', k) == Claims(l, k);
  }

  lemma SetSubscribersSound(l: Ledger, m: Msg)
    requires Sound(l) && m.SetSubscribers?
    ensures Sound(Account(l, m))
  {
    if m.key in l.s.watches {
      RefsSame(l.s.watches, m.key, l.s.watches[m.key].(subscribers := m.subscribers));
    }
    hide Wrap, Refs;
    var l' := Account(l, m);
    assert forall k :: Claims(l', k) == Claims(l, k);
  }

  /** A step keeps the databases sound exactly if it does not delete a watched GPU whose counter
      has wrapped around. */
  lemma StepSound(l: Ledger, m: Msg)
    requires Sound(l)
    ensures Sound(Account(l, m)) <==> !Orphans(l, m)
  {
    match m
    case CreateGpu(_, _) => CreateGpuSound(l, m);
    case DiscoverGpu(_, _, _) => CreateGpuSound(l, m);
    case DeleteGpu(_) => DeleteGpuSound(l, m);
    case CreateWatch(_, _, _) => CreateWatchSound(l, m);
    case DeleteWatch(_) => DeleteWatchSound(l, m);
    case SetSubscribers(_, _) => SetSubscribersSound(l, m);
    case UpdateGpu(_, _) =>
    case UpdateWatch(_) =>
  }

  lemma RunStep(msgs: seq<Msg>, k: nat)
    requires k < |msgs|
    ensures Run(msgs[..k + 1]) == Account(Run(msgs[..k]), msgs[k])
  {
    assert msgs[..k + 1][..k] == msgs[..k];
  }

  /** A run keeps the databases sound all the time exactly if no step of it deletes a watched
      GPU whose counter has wrapped around. */
  lemma {:induction false} RunSound(msgs: seq<Msg>)
    ensures (forall k {:trigger msgs[..k]} :: 0 <= k <= |msgs| ==> Sound(Run(msgs[..k])))
       <==> (forall k {:trigger msgs[k]} :: 0 <= k < |msgs| ==> !Orphans(Run(msgs[..k]), msgs[k]))
  {
    hide Sound, Orphans;
    if forall k {:trigger msgs[..k]} :: 0 <= k <= |msgs| ==> Sound(Run(msgs[..k])) {
      forall k | 0 <= k < |msgs|
        ensures !Orphans(Run(msgs[..k]), msgs[k])
      {
        RunStep(msgs, k);
        assert Sound(Run(msgs[..k])) && Sound(Run(msgs[..k + 1]));
        StepSound(Run(msgs[..k]), msgs[k]);
      }
    }
    if forall k {:trigger msgs[k]} :: 0 <= k < |msgs| ==> !Orphans(Run(msgs[..k]), msgs[k]) {
      forall k | 0 <= k <= |msgs|
        ensures Sound(Run(msgs[..k]))
      {
        SoundAt(msgs, k);
      }
    }
  }

  lemma {:induction false} SoundAt(msgs: seq<Msg>, k: nat)
    requires k <= |msgs|
    requires forall j {:trigger msgs[j]} :: 0 <= j < |msgs| ==> !Orphans(Run(msgs[..j]), msgs[j])
    ensures Sound(Run(msgs[..k]))
  {
    if k > 0 {
      SoundAt(msgs, k - 1);
      RunStep(msgs, k - 1);
      StepSound(Run(msgs[..k - 1]), msgs[k - 1]);
    }
  }

  // ---------- runs in which no counter can wrap around ----------

  /** Claims never exceed the number of increments there have been. */
  lemma StepBound(l: Ledger, m: Msg)
    requires forall k :: Claims(l, k) <= l.added[k]
    ensures forall k :: Claims(Account(l, m), k) <= Account(l, m).added[k]
    ensures l.added <= Account(l, m).added
  {
    if m.CreateWatch? && m.key !in l.s.watches && m.alloc {
      CreateWatchClaims(l, m);
    } else if m.DeleteWatch? && m.key in l.s.watches {
      RefsWithout(l.s.watches, m.key);
    } else if m.SetSubscribers? && m.key in l.s.watches {
      RefsSame(l.s.watches, m.key, l.s.watches[m.key].(subscribers := m.subscribers));
    }
    hide Refs, AddAll, DecAll, Found;
    forall k
      ensures Claims(Account(l, m), k) <= Account(l, m).added[k]
    {
      assert Claims(l, k) <= l.added[k];
    }
  }

  lemma {:induction false} RunBound(msgs: seq<Msg>)
    ensures forall k :: Claims(Run(msgs), k) <= Run(msgs).added[k]
  {
    if msgs != [] {
      RunBound(msgs[..|msgs| - 1]);
      StepBound(Run(msgs[..|msgs| - 1]), msgs[|msgs| - 1]);
    }
  }

  /** Increments are few enough that no counter can wrap around. */
  ghost predicate Narrow(l: Ledger) {
    forall k {:trigger l.added[k]} :: l.added[k] < UINT32
  }

  lemma NarrowBefore(l: Ledger, m: Msg)
    requires Narrow(Account(l, m))
    ensures Narrow(l)
  {
    hide Step, Counted;
    forall k {:trigger l.added[k]}
      ensures l.added[k] < UINT32
    {
      assert l.added[k] <= Account(l, m).added[k];
    }
  }

  lemma NarrowDoesNotOrphan(l: Ledger, m: Msg)
    requires Sound(l) && Narrow(l) && forall k :: Claims(l, k) <= l.added[k]
    ensures !Orphans(l, m)
    ensures forall k :: k in l.s.gpus ==> l.s.gpus[k].num == Claims(l, k)
  {
    hide Refs;
    forall k | k in l.s.gpus
      ensures l.s.gpus[k].num == Claims(l, k)
    {
      assert Claims(l, k) <= l.added[k] < UINT32;
      WrapSmall(Claims(l, k));
    }
  }

  /** The main result: as long as no counter has been incremented 2^32 times, in every run every
      counter is exactly the number of references of the stored watches plus what failed
      creations leaked, and a GPU that is not there is not referred to. */
  lemma {:induction false} Integrity(msgs: seq<Msg>)
    requires Narrow(Run(msgs))
    ensures Sound(Run(msgs))
    ensures forall k :: k in Run(msgs).s.gpus ==> Run(msgs).s.gpus[k].num == Claims(Run(msgs), k)
  {
    if msgs != [] {
      var l, m := Run(msgs[..|msgs| - 1]), msgs[|msgs| - 1];
      NarrowBefore(l, m);
      Integrity(msgs[..|msgs| - 1]);
      RunBound(msgs[..|msgs| - 1]);
      NarrowDoesNotOrphan(l, m);
      StepSound(l, m);
    }
    RunBound(msgs);
    NarrowDoesNotOrphan(Run(msgs), UpdateGpu(0, true));
  }

  /** Every reference of a stored watch finds its GPU. */
  lemma ReferencesResolve(msgs: seq<Msg>, w: Key, i: nat)
    requires Narrow(Run(msgs)) && w in Run(msgs).s.watches && i < |Run(msgs).s.watches[w].gpus|
    ensures Run(msgs).s.watches[w].gpus[i] in Run(msgs).s.gpus
  {
    Integrity(msgs);
    var l := Run(msgs);
    NamedIsReferred(l.s.watches, w, i);
    hide Run, Refs, Wrap, Narrow;
    assert Claims(l, l.s.watches[w].gpus[i]) > 0;
  }

  /** Deleting a watch takes exactly its references off the counters, and none of them falls
      below zero. */
  lemma DeleteNeverUnderflows(msgs: seq<Msg>, w: Key, k: Key)
    requires Narrow(Run(msgs)) && w in Run(msgs).s.watches && k in Run(msgs).s.gpus
    ensures var s := Run(msgs).s; var refs := s.watches[w].gpus;
      && multiset(refs)[k] <= s.gpus[k].num
      && DecAll(s.gpus, refs)[k].num == s.gpus[k].num - multiset(refs)[k]
  {
    Integrity(msgs);
    RunBound(msgs);
    var l := Run(msgs);
    assert Claims(l, k) <= l.added[k] < UINT32;
    DeleteCounts(l, w, k);
  }

  lemma DeleteCounts(l: Ledger, w: Key, k: Key)
    requires w in l.s.watches && k in l.s.gpus && l.s.gpus[k].num == Claims(l, k) < UINT32
    ensures var refs := l.s.watches[w].gpus;
      && multiset(refs)[k] <= l.s.gpus[k].num
      && DecAll(l.s.gpus, refs)[k].num == l.s.gpus[k].num - multiset(refs)[k]
  {
    RefsWithout(l.s.watches, w);
    var n := multiset(l.s.watches[w].gpus)[k];
    assert n <= Claims(l, k);
    WrapSmall(Claims(l, k));
    hide Refs, Wrap, DecAll, Claims;
    DecAllCounts(l.s.gpus, l.s.watches[w].gpus, k, Claims(l, k));
    WrapSmall(Claims(l, k) - n);
  }

  /** No creation has failed because of a missing GPU. */
  ghost predicate NoneFailed(msgs: seq<Msg>) {
    forall j {:trigger msgs[j]} :: 0 <= j < |msgs| ==> Step(Run(msgs[..j]).s, msgs[j]).1 != INVALID_ARG
  }

  lemma {:induction false} NothingLeaked(msgs: seq<Msg>)
    requires NoneFailed(msgs)
    ensures Run(msgs).leaked == multiset{}
  {
    if msgs != [] {
      var n := |msgs| - 1;
      assert forall j :: 0 <= j < n ==> msgs[..n][..j] == msgs[..j];
      NothingLeaked(msgs[..n]);
      assert Step(Run(msgs[..n]).s, msgs[n]).1 != INVALID_ARG;
      hide Step;
    }
  }

  /** If none has, every counter is exactly the number of references. */
  lemma ExactWithoutFailures(msgs: seq<Msg>, k: Key)
    requires Narrow(Run(msgs)) && NoneFailed(msgs) && k in Run(msgs).s.gpus
    ensures Run(msgs).s.gpus[k].num == Refs(Run(msgs).s.watches)[k]
  {
    Integrity(msgs);
    NothingLeaked(msgs);
  }

  /** But a GPU that such a failure has touched can never be deleted again. */
  lemma {:induction false} LeakIsForever(msgs: seq<Msg>, more: seq<Msg>, k: Key)
    requires Narrow(Run(msgs + more)) && Run(msgs).leaked[k] > 0
    ensures Run(msgs + more).leaked[k] > 0 && k in Run(msgs + more).s.gpus
  {
    if more == [] {
      assert msgs + more == msgs;
      Integrity(msgs);
    } else {
      var n := |more| - 1;
      var l := Run(msgs + more[..n]);
      assert (msgs + more)[..|msgs + more| - 1] == msgs + more[..n];
      NarrowBefore(l, more[n]);
      LeakIsForever(msgs, more[..n], k);
      Integrity(msgs + more[..n]);
      LeakStays(l, more[n], k);
      Integrity(msgs + more);
    }
  }

  lemma LeakStays(l: Ledger, m: Msg, k: Key)
    requires l.leaked[k] > 0 && k in l.s.gpus && l.s.gpus[k].num == Claims(l, k)
    ensures Account(l, m).leaked[k] > 0
  {
    hide Refs, AddAll, DecAll, Found;
  }

  // ---------- the handle index ----------

  /** Every entry of the handle index is in the key index, under the same handle. */
  ghost predicate HandlesOk(s: State) {
    forall h :: h in s.handles ==> s.handles[h] in s.gpus && s.gpus[s.handles[h]].handle == h
  }

  lemma {:induction false} CountersKeepHandles(gpus: map<Key, Gpu>, refs: seq<Key>)
    ensures forall k :: k in gpus ==> DecAll(gpus, refs)[k].handle == gpus[k].handle
    ensures (forall i :: 0 <= i < |refs| ==> refs[i] in gpus) ==>
      forall k :: k in gpus ==> AddAll(gpus, refs)[k].handle == gpus[k].handle
  {
    if refs != [] {
      CountersKeepHandles(gpus, refs[..|refs| - 1]);
    }
  }

  lemma StepKeepsHandles(s: State, m: Msg)
    requires HandlesOk(s)
    ensures HandlesOk(Step(s, m).0)
  {
    match m
    case CreateWatch(_, refs, _) =>
      var found := refs[..Found(s.gpus, refs)];
      assert forall i :: 0 <= i < |found| ==> found[i] in s.gpus;
      CountersKeepHandles(s.gpus, found);
      var gpus' := AddAll(s.gpus, found);
      assert forall k :: k in s.gpus ==> gpus'[k].handle == s.gpus[k].handle;
      assert Step(s, m).0.handles == s.handles && (Step(s, m).0.gpus == gpus' || Step(s, m).0.gpus == s.gpus);
    case DeleteWatch(key) =>
      if key in s.watches {
        CountersKeepHandles(s.gpus, s.watches[key].gpus);
        var gpus' := DecAll(s.gpus, s.watches[key].gpus);
        assert forall k :: k in s.gpus ==> gpus'[k].handle == s.gpus[k].handle;
        assert Step(s, m).0.handles == s.handles && (Step(s, m).0.gpus == gpus' || Step(s, m).0.gpus == s.gpus);
      }
    case CreateGpu(_, _) =>
    case DiscoverGpu(_, _, _) =>
    case DeleteGpu(key) =>
      if key in s.gpus && s.gpus[key].num == 0 {
        assert Step(s, m).0.handles == s.handles - {s.gpus[key].handle};
      }
    case _ =>
  }

  lemma {:induction false} RunKeepsHandles(msgs: seq<Msg>)
    ensures HandlesOk(Run(msgs).s)
  {
    if msgs != [] {
      RunKeepsHandles(msgs[..|msgs| - 1]);
      StepKeepsHandles(Run(msgs[..|msgs| - 1]).s, msgs[|msgs| - 1]);
    }
  }

  // ---------- the wrap-around ----------

  /** GPU 1 is watched; then creations fail `n` times because GPU 2 does not exist. */
  function Failing(n: nat): seq<Msg> {
    if n == 0 then [CreateGpu(1, true), CreateWatch(0, [1], true)]
    else Failing(n - 1) + [CreateWatch(1, [1, 2], true)]
  }

  lemma {:induction false} FailingCounts(n: nat)
    ensures Run(Failing(n)).s == State(map[1 := Gpu(Wrap(n + 1), 0)], map[], map[0 := Watch([1], 0)])
  {
    hide Run, Wrap;
    if n == 0 {
      FirstTwo();
    } else {
      FailingCounts(n - 1);
      FailNext(Failing(n - 1), n);
    }
  }

  lemma FailNext(msgs: seq<Msg>, n: nat)
    requires Run(msgs).s == State(map[1 := Gpu(Wrap(n), 0)], map[], map[0 := Watch([1], 0)])
    ensures Run(msgs + [CreateWatch(1, [1, 2], true)]).s == State(map[1 := Gpu(Wrap(n + 1), 0)], map[], map[0 := Watch([1], 0)])
  {
    RunAppend(msgs, CreateWatch(1, [1, 2], true));
    FailOnce(Run(msgs).s, n);
    hide Step, Wrap, Run, Counted;
  }

  lemma RunAppend(msgs: seq<Msg>, m: Msg)
    ensures Run(msgs + [m]) == Account(Run(msgs), m)
  {
    assert (msgs + [m])[..|msgs|] == msgs;
  }

  lemma FirstTwo()
    ensures Run([CreateGpu(1, true), CreateWatch(0, [1], true)]).s ==
      State(map[1 := Gpu(Wrap(1), 0)], map[], map[0 := Watch([1], 0)])
  {
    var m1, m2 := CreateGpu(1, true), CreateWatch(0, [1], true);
    assert [m1, m2][..1] == [m1] && [m1][..0] == [];
    assert Run([m1]).s == State(map[1 := Gpu(0, 0)], map[], map[]);
    assert [1][..1] == [1] && [1][..0] == [];
    AddOne(map[1 := Gpu(0, 0)], 1);
    hide Wrap, AddAll;
  }

  lemma FailOnce(s: State, n: nat)
    requires s == State(map[1 := Gpu(Wrap(n), 0)], map[], map[0 := Watch([1], 0)])
    ensures Step(s, CreateWatch(1, [1, 2], true)).0 ==
      State(map[1 := Gpu(Wrap(n + 1), 0)], map[], map[0 := Watch([1], 0)])
  {
    assert Found(s.gpus, [1, 2]) == 1 by { assert [1, 2][1..] == [2]; }
    assert [1, 2][..1] == [1];
    AddOne(s.gpus, 1);
    WrapAdd(n, 1);
    hide Wrap, AddAll, Found;
  }

  lemma AddOne(gpus: map<Key, Gpu>, k: Key)
    requires k in gpus
    ensures AddAll(gpus, [k]) == gpus[k := Inc(gpus[k])]
  {
    assert [k][..0] == [];
  }

  /** After 2^32 - 1 failures the counter of the watched GPU is 0, and the GPU can be deleted. */
  lemma WrappedGpuIsDeleted()
    ensures var s := Run(Failing(UINT32 - 1)).s;
      && s.watches == map[0 := Watch([1], 0)] && 1 in s.gpus
      && Step(s, DeleteGpu(1)).1 == OK && 1 !in Step(s, DeleteGpu(1)).0.gpus
  {
    FailingCounts(UINT32 - 1);
    assert Wrap(UINT32) == 0;
  }
}
