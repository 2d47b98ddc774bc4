/** The API engine: the GPU and watch objects, the databases that hold them, and the handling of
    one message after the other. */
module GpuEngine {
  import opened GpuRefs
  import opened GpuLogs

  /** `gpu_entry` */
  class GpuEntry {
    var key: Key
    var handle: Handle
    var num_gpu_watch: int

    /** `calloc` and the constructor */
    constructor (key: Key)
      ensures this.key == key && handle == 0 && num_gpu_watch == 0
    {
      this.key, handle, num_gpu_watch := key, 0, 0;
    }
  }

  /** `gpu_watch_entry` */
  class WatchEntry {
    var key: Key
    var gpus: seq<Key>
    var num_subscriber: bv8

    constructor ()
      ensures num_subscriber == 0
    {
      num_subscriber := 0;
    }
  }

  class Engine {
    var gpu_key_db: map<Key, GpuEntry>
    var gpu_db: map<Handle, GpuEntry>
    var gpu_watch_key_db: map<Key, WatchEntry>
    ghost var hist: seq<Msg>

    ghost function Gpus(): map<Key, Gpu>
      reads this`gpu_key_db, gpu_key_db.Values
    {
      map k | k in gpu_key_db :: Gpu(gpu_key_db[k].num_gpu_watch, gpu_key_db[k].handle)
    }

    ghost function Handles(): map<Handle, Key>
      reads this`gpu_db, gpu_db.Values
    {
      map h | h in gpu_db :: gpu_db[h].key
    }

    ghost function Watches(): map<Key, Watch>
      reads this`gpu_watch_key_db, gpu_watch_key_db.Values
    {
      map k | k in gpu_watch_key_db :: Watch(gpu_watch_key_db[k].gpus, gpu_watch_key_db[k].num_subscriber)
    }

    ghost function Abs(): State
      reads this`gpu_key_db, this`gpu_db, this`gpu_watch_key_db
      reads gpu_key_db.Values, gpu_db.Values, gpu_watch_key_db.Values
    {
      State(Gpus(), Handles(), Watches())
    }

    /** The objects know their keys, and both indices lead to the same objects. */
    ghost predicate Linked()
      reads this`gpu_key_db, this`gpu_db, this`gpu_watch_key_db
      reads gpu_key_db.Values, gpu_db.Values, gpu_watch_key_db.Values
    {
      && (forall k :: k in gpu_key_db ==> gpu_key_db[k].key == k)
      && (forall h :: h in gpu_db ==>
            gpu_db[h].key in gpu_key_db && gpu_key_db[gpu_db[h].key] == gpu_db[h] && gpu_db[h].handle == h)
      && (forall k :: k in gpu_watch_key_db ==> gpu_watch_key_db[k].key == k)
    }

    /** The databases are what the messages so far have made of them. */
    ghost predicate Valid()
      reads this, gpu_key_db.Values, gpu_db.Values, gpu_watch_key_db.Values
    {
      Linked() && Abs() == Run(hist).s
    }

    constructor ()
      ensures Valid() && hist == []
    {
      gpu_key_db, gpu_db, gpu_watch_key_db, hist := map[], map[], map[], [];
    }

    // ---------- gpu_state ----------

    /** `find` by key */
    method FindGpu(key: Key) returns (gpu: GpuEntry?)
      ensures gpu == if key in gpu_key_db then gpu_key_db[key] else null
    {
      gpu := if key in gpu_key_db then gpu_key_db[key] else null;
    }

    /** `insert` */
    method InsertGpu(gpu: GpuEntry) returns (ret: Ret)
      modifies this`gpu_key_db
      ensures ret == if gpu.key in old(gpu_key_db) then ENTRY_EXISTS else OK
      ensures gpu_key_db == if ret == OK then old(gpu_key_db)[gpu.key := gpu] else old(gpu_key_db)
    {
      if gpu.key in gpu_key_db {
        ret := ENTRY_EXISTS;
      } else {
        gpu_key_db := gpu_key_db[gpu.key := gpu];
        ret := OK;
      }
    }

    /** `remove` */
    method RemoveGpu(gpu: GpuEntry) returns (rv: GpuEntry?)
      modifies this`gpu_key_db, this`gpu_db
      ensures rv == if gpu.key in old(gpu_key_db) then old(gpu_key_db)[gpu.key] else null
      ensures gpu_key_db == if rv != null then old(gpu_key_db) - {gpu.key} else old(gpu_key_db)
      ensures gpu_db == if rv != null then old(gpu_db) - {gpu.handle} else old(gpu_db)
    {
      if gpu.key in gpu_key_db {
        rv := gpu_key_db[gpu.key];
        gpu_key_db := gpu_key_db - {gpu.key};
        gpu_db := gpu_db - {gpu.handle};
      } else {
        rv := null;
      }
    }

    // ---------- GPU messages ----------

    /** API_OP_CREATE of a GPU. The GPU is not reachable by handle yet. */
    method CreateGpu(key: Key, alloc: bool) returns (ret: Ret)
      requires Linked()
      modifies this`gpu_key_db
      ensures Linked() && (Abs(), ret) == Step(old(Abs()), Msg.CreateGpu(key, alloc))
      ensures ret == OK ==>
        && key !in old(gpu_key_db) && key in gpu_key_db && fresh(gpu_key_db[key])
        && gpu_key_db == old(gpu_key_db)[key := gpu_key_db[key]]
    {
      var found := FindGpu(key);
      if found != null {
        return ENTRY_EXISTS;
      }
      if !alloc {
        return OOM;
      }
      ghost var gpus := Gpus();
      var gpu := new GpuEntry(key);
      ret := InsertGpu(gpu);
      assert Gpus() == gpus[key := Gpu(0, 0)];
    }

    /** What `create_gpus` does with a GPU it has found: create it, give it its handle, and enter
        it in the handle index. */
    method DiscoverGpu(key: Key, handle: Handle, alloc: bool) returns (ret: Ret)
      requires Linked()
      modifies this`gpu_key_db, this`gpu_db
      ensures Linked() && (Abs(), ret) == Step(old(Abs()), Msg.DiscoverGpu(key, handle, alloc))
    {
      hide Engine.Gpus, Engine.Watches, Engine.Handles, Engine.Linked;
      ghost var before := Abs();
      ret := CreateGpu(key, alloc);
      if ret != OK {
        return;
      }
      var entry := FindGpu(key);
      assert Abs() == before.(gpus := before.gpus[key := Gpu(0, 0)]);
      SetHandle(key, entry, handle);
      assert Gpus() == before.gpus[key := Gpu(0, handle)];
    }

    /** `set_handle` and `insert_in_handle_db` on a new GPU */
    method SetHandle(key: Key, entry: GpuEntry, handle: Handle)
      requires Linked() && key in gpu_key_db && gpu_key_db[key] == entry && entry !in gpu_db.Values
      modifies entry`handle, this`gpu_db
      ensures Linked() && Gpus() == old(Gpus())[key := old(Gpus())[key].(handle := handle)]
      ensures Handles() == old(Handles())[handle := key] && Watches() == old(Watches())
    {
      assert forall k :: k in gpu_key_db && k != key ==> gpu_key_db[k] != entry;
      assert forall h :: h in gpu_db ==> gpu_db[h] != entry;
      entry.handle := handle;
      gpu_db := gpu_db[handle := entry];
    }

    /** API_OP_DELETE of a GPU */
    method DeleteGpu(key: Key) returns (ret: Ret)
      requires Linked()
      modifies this`gpu_key_db, this`gpu_db
      ensures Linked() && (Abs(), ret) == Step(old(Abs()), Msg.DeleteGpu(key))
    {
      ghost var gpus, handles := Gpus(), Handles();
      var gpu := FindGpu(key);
      if gpu == null {
        return ENTRY_NOT_FOUND;
      }
      if gpu.num_gpu_watch != 0 {
        return IN_USE;
      }
      assert gpus[key].handle == gpu.handle;
      var rv := RemoveGpu(gpu);
      ret := if rv != null then OK else ENTRY_NOT_FOUND;
      assert Gpus() == gpus - {key};
      assert Handles() == handles - {gpu.handle};
    }

    /** API_OP_UPDATE of a GPU; `smi` says whether the hardware accepts it. The new spec does not
        reach the fields modelled here. */
    method UpdateGpu(key: Key, smi: bool) returns (ret: Ret)
      ensures (Abs(), ret) == Step(Abs(), Msg.UpdateGpu(key, smi))
    {
      var gpu := FindGpu(key);
      ret := if gpu == null then ENTRY_NOT_FOUND else if smi then OK else SMI_ERR;
    }

    // ---------- watch messages ----------

    /** API_OP_UPDATE of a watch */
    method UpdateWatch(key: Key) returns (ret: Ret)
      ensures (Abs(), ret) == Step(Abs(), Msg.UpdateWatch(key))
    {
      ret := if key in gpu_watch_key_db then INVALID_OP else ENTRY_NOT_FOUND;
    }

    /** The loop of `gpu_watch_entry::create_handler`. What it has counted when a GPU is missing
        stays counted. */
    method CountGpus(gpus: seq<Key>) returns (ret: Ret)
      requires Linked()
      modifies gpu_key_db.Values`num_gpu_watch
      ensures Linked() && Handles() == old(Handles()) && Watches() == old(Watches())
      ensures Gpus() == AddAll(old(Gpus()), gpus[..Found(old(Gpus()), gpus)])
      ensures ret == if Found(old(Gpus()), gpus) < |gpus| then INVALID_ARG else OK
    {
      ghost var gpus0 := Gpus();
      hide AddAll, Found;
      NoneAdded(gpus0, gpus);
      for i := 0 to |gpus|
        invariant Linked() && Handles() == old(Handles()) && Watches() == old(Watches())
        invariant Added(gpus0, gpus, i, Gpus())
      {
        var gpu := FindGpu(gpus[i]);
        if gpu == null {
          AddedUpTo(gpus0, gpus, i, Gpus());
          return INVALID_ARG;
        }
        AddedNext(gpus0, gpus, i, Gpus());
        WatchAdd(gpus[i], gpu);
      }
      AddedUpTo(gpus0, gpus, |gpus|, Gpus());
      ret := OK;
    }

    /** `gpu_watch_add` */
    method WatchAdd(key: Key, gpu: GpuEntry)
      requires Linked() && key in gpu_key_db && gpu_key_db[key] == gpu
      modifies gpu`num_gpu_watch
      ensures Linked() && Gpus() == old(Gpus())[key := Inc(old(Gpus())[key])]
      ensures Handles() == old(Handles()) && Watches() == old(Watches())
    {
      hide Wrap;
      assert forall k :: k in gpu_key_db && k != key ==> gpu_key_db[k] != gpu;
      gpu.num_gpu_watch := Wrap(gpu.num_gpu_watch + 1);
    }

    /** `gpu_watch_dec` */
    method WatchDec(key: Key, gpu: GpuEntry)
      requires Linked() && key in gpu_key_db && gpu_key_db[key] == gpu
      modifies gpu`num_gpu_watch
      ensures Linked() && Gpus() == old(Gpus())[key := Dec(old(Gpus())[key])]
      ensures Handles() == old(Handles()) && Watches() == old(Watches())
    {
      hide Wrap;
      assert forall k :: k in gpu_key_db && k != key ==> gpu_key_db[k] != gpu;
      gpu.num_gpu_watch := Wrap(gpu.num_gpu_watch - 1);
    }

    /** The loop of `gpu_watch_entry::delete_handler` */
    method UncountGpus(gpus: seq<Key>)
      requires Linked()
      modifies gpu_key_db.Values`num_gpu_watch
      ensures Linked() && Handles() == old(Handles()) && Watches() == old(Watches())
      ensures Gpus() == DecAll(old(Gpus()), gpus)
    {
      for i := 0 to |gpus|
        invariant Linked() && Handles() == old(Handles()) && Watches() == old(Watches())
        invariant Gpus() == DecAll(old(Gpus()), gpus[..i])
      {
        assert gpus[..i + 1][..i] == gpus[..i];
        var gpu := FindGpu(gpus[i]);
        if gpu != null {
          WatchDec(gpus[i], gpu);
        }
      }
      assert gpus[..|gpus|] == gpus;
    }

    /** API_OP_CREATE of a watch */
    method CreateWatch(key: Key, gpus: seq<Key>, alloc: bool) returns (ret: Ret)
      requires Linked()
      modifies this`gpu_watch_key_db, gpu_key_db.Values`num_gpu_watch
      ensures Linked() && (Abs(), ret) == Step(old(Abs()), Msg.CreateWatch(key, gpus, alloc))
    {
      hide AddAll, Found;
      if key in gpu_watch_key_db {
        return ENTRY_EXISTS;
      }
      if !alloc {
        return OOM;
      }
      var entry := new WatchEntry();
      ret := CountGpus(gpus);
      if ret != OK {
        return;
      }
      StoreWatch(entry, key, gpus);
    }

    /** The rest of `create_handler`, and `add_to_db`. */
    method StoreWatch(entry: WatchEntry, key: Key, gpus: seq<Key>)
      requires Linked() && key !in gpu_watch_key_db && entry !in gpu_watch_key_db.Values && entry.num_subscriber == 0
      modifies this`gpu_watch_key_db, entry`key, entry`gpus
      ensures Linked() && Gpus() == old(Gpus()) && Handles() == old(Handles())
      ensures Watches() == old(Watches())[key := Watch(gpus, 0)]
    {
      entry.key, entry.gpus := key, gpus;
      gpu_watch_key_db := gpu_watch_key_db[key := entry];
    }

    /** API_OP_DELETE of a watch */
    method DeleteWatch(key: Key) returns (ret: Ret)
      requires Linked()
      modifies this`gpu_watch_key_db, gpu_key_db.Values`num_gpu_watch
      ensures Linked() && (Abs(), ret) == Step(old(Abs()), Msg.DeleteWatch(key))
    {
      hide DecAll;
      if key !in gpu_watch_key_db {
        return ENTRY_NOT_FOUND;
      }
      var entry := gpu_watch_key_db[key];
      if entry.num_subscriber > 0 {
        return IN_USE;
      }
      UncountGpus(entry.gpus);
      DropWatch(entry);
      ret := OK;
    }

    /** `del_from_db` of a watch that is there */
    method DropWatch(entry: WatchEntry)
      requires Linked() && entry.key in gpu_watch_key_db
      modifies this`gpu_watch_key_db
      ensures Linked() && Gpus() == old(Gpus()) && Handles() == old(Handles())
      ensures Watches() == old(Watches()) - {entry.key}
    {
      gpu_watch_key_db := gpu_watch_key_db - {entry.key};
    }

    /** What the watcher thread does to a watch's number of subscribers. */
    method SetSubscribers(key: Key, subscribers: bv8) returns (ret: Ret)
      requires Linked()
      modifies gpu_watch_key_db.Values`num_subscriber
      ensures Linked() && (Abs(), ret) == Step(old(Abs()), Msg.SetSubscribers(key, subscribers))
    {
      if key !in gpu_watch_key_db {
        return ENTRY_NOT_FOUND;
      }
      var entry := gpu_watch_key_db[key];
      assert forall k :: k in gpu_watch_key_db && k != key ==> gpu_watch_key_db[k] != entry;
      entry.num_subscriber := subscribers;
      ret := OK;
      assert Watches() == old(Watches())[key := old(Watches())[key].(subscribers := subscribers)];
    }

    // ---------- all messages ----------

    /** `api_msg_handle_cb`: every message takes the databases from one state of the reference
        run to the next, and is answered accordingly. */
    method Handle(m: Msg) returns (ret: Ret)
      requires Valid()
      modifies this, gpu_key_db.Values`num_gpu_watch, gpu_watch_key_db.Values`num_subscriber
      ensures Valid() && hist == old(hist) + [m]
      ensures ret == Step(old(Abs()), m).1 && Abs() == Step(old(Abs()), m).0
      ensures Log(hist) == Log(old(hist)) + [Entry(m, ret)] && Answered(Log(old(hist)), m, ret)
      ensures m.DeleteGpu? && Narrow(Run(old(hist))) && Stands(Log(old(hist)), HasGpu(m.key)) ==>
        (ret == IN_USE <==> Watched(Log(old(hist)), m.key) || Leaked(Log(old(hist)), m.key))
    {
      hide Step, Linked, Abs, Run, Valid, Log, Answered, Stands, Watched, Leaked, Narrow;
      LogAppend(hist, m);
      RunAnswers(hist, m);
      if m.DeleteGpu? && Narrow(Run(hist)) && Stands(Log(hist), HasGpu(m.key)) {
        DeleteGpuExactly(hist, m.key);
      }
      HistIs(m);
      ret := Process(m);
      hist := hist + [m];
      StillValid();
    }

    lemma HistIs(m: Msg)
      requires Valid()
      ensures Linked() && Abs() == Run(hist).s && Run(hist + [m]).s == Step(Abs(), m).0
    {
      hide Step, Linked, Abs, Run;
      RunAppend(hist, m);
    }

    /** The databases hold what the answered messages say. */
    lemma StoredIsLogged(k: Key, gpus: seq<Key>)
      requires Valid()
      ensures k in gpu_key_db <==> Stands(Log(hist), HasGpu(k))
      ensures k in gpu_watch_key_db <==> Stands(Log(hist), HasWatch(k))
      ensures k in gpu_watch_key_db && gpu_watch_key_db[k].gpus == gpus <==> Stands(Log(hist), Names(k, gpus))
      ensures k in gpu_watch_key_db && gpu_watch_key_db[k].num_subscriber > 0 <==> Stands(Log(hist), Subscribed(k))
    {
      LogTells(hist);
      hide Run, Log, Stands;
      assert k in gpu_key_db <==> k in Gpus();
      assert k in gpu_watch_key_db <==> k in Watches();
    }

    lemma StillValid()
      requires Linked() && Abs() == Run(hist).s
      ensures Valid()
    {
    }

    /** The handlers by kind of message. */
    method Process(m: Msg) returns (ret: Ret)
      requires Linked()
      modifies this`gpu_key_db, this`gpu_db, this`gpu_watch_key_db
      modifies gpu_key_db.Values`num_gpu_watch, gpu_watch_key_db.Values`num_subscriber
      ensures Linked() && ret == Step(old(Abs()), m).1 && Abs() == Step(old(Abs()), m).0
    {
      hide Step, Linked, Abs;
      match m {
        case CreateGpu(key, alloc) => ret := CreateGpu(key, alloc);
        case DiscoverGpu(key, handle, alloc) => ret := DiscoverGpu(key, handle, alloc);
        case UpdateGpu(key, smi) => ret := UpdateGpu(key, smi);
        case DeleteGpu(key) => ret := DeleteGpu(key);
        case CreateWatch(key, gpus, alloc) => ret := CreateWatch(key, gpus, alloc);
        case UpdateWatch(key) => ret := UpdateWatch(key);
        case DeleteWatch(key) => ret := DeleteWatch(key);
        case SetSubscribers(key, subscribers) => ret := SetSubscribers(key, subscribers);
      }
    }

    /** In any run that is not long enough for a counter to wrap around, the GPUs of every stored
        watch are there, and know that they are watched. */
    lemma WatchedGpusExist(w: Key, i: nat)
      requires Valid() && Narrow(Run(hist)) && w in gpu_watch_key_db && i < |gpu_watch_key_db[w].gpus|
      ensures gpu_watch_key_db[w].gpus[i] in gpu_key_db
      ensures gpu_key_db[gpu_watch_key_db[w].gpus[i]].num_gpu_watch > 0
    {
      var l := Run(hist);
      Integrity(hist);
      assert Watches()[w].gpus == gpu_watch_key_db[w].gpus;
      NamedIsReferred(l.s.watches, w, i);
      ReferencesResolve(hist, w, i);
      hide Run, Narrow, Refs, Wrap;
      var k := gpu_watch_key_db[w].gpus[i];
      assert Gpus()[k].num == Claims(l, k);
    }
  }
}
