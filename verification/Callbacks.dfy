/** What callbacks do to the queues, and the account a dispatcher must give of it. */
module Callbacks {
  import opened Watchers
  import opened Queues
  import opened Histories

  /** What a callback does to the queues. Stopping a watcher clears it. */
  datatype Action = DoFeed(w: Watcher, events: bv32) | DoClear(w: Watcher) | DoInvokePending

  /** What the callbacks do, call by call; a call beyond the end does nothing. */
  type Script = seq<seq<Action>>

  /** How much the callbacks from `at` on do. */
  function SizeFrom(script: Script, at: nat): nat
    requires at <= |script|
    decreases |script| - at
  {
    if at == |script| then 0 else |script[at]| + SizeFrom(script, at + 1)
  }

  /** The operations that an action stands for; the nested dispatch has none of its own. */
  ghost function Asked(act: Action, prio: map<Watcher, int>): multiset<Op> {
    match act
    case DoFeed(w, events) => multiset{Fed(w, if w in prio then prio[w] else 0, events)}
    case DoClear(w) => multiset{Cleared(w)}
    case DoInvokePending => multiset{}
  }

  ghost function AskedBy(acts: seq<Action>, prio: map<Watcher, int>): multiset<Op> {
    if acts == [] then multiset{} else AskedBy(acts[..|acts| - 1], prio) + Asked(acts[|acts| - 1], prio)
  }

  /** What the callbacks from `at` up to `next` ask for. */
  ghost function AskedFrom(script: Script, at: nat, next: nat, prio: map<Watcher, int>): multiset<Op>
    requires next <= |script|
  {
    if next <= at then multiset{} else AskedFrom(script, at, next - 1, prio) + AskedBy(script[next - 1], prio)
  }

  /** The operations of a history that are not calls. */
  ghost function Told(ops: seq<Op>): multiset<Op> {
    if ops == [] then multiset{}
    else Told(ops[..|ops| - 1]) + (if ops[|ops| - 1].Invoked? then multiset{} else multiset{ops[|ops| - 1]})
  }

  function Calls(ops: seq<Op>): nat {
    if ops == [] then 0 else Calls(ops[..|ops| - 1]) + (if ops[|ops| - 1].Invoked? then 1 else 0)
  }

  lemma {:induction false} ToldSum(a: seq<Op>, b: seq<Op>)
    ensures Told(a + b) == Told(a) + Told(b) && Calls(a + b) == Calls(a) + Calls(b)
  {
    if b == [] {
      assert a + b == a;
    } else {
      var n := |b| - 1;
      assert (a + b)[..|a + b| - 1] == a + b[..n];
      ToldSum(a, b[..n]);
    }
  }

  lemma {:induction false} AskedRange(script: Script, at: nat, mid: nat, next: nat, prio: map<Watcher, int>)
    requires at <= mid <= next <= |script|
    ensures AskedFrom(script, at, next, prio) == AskedFrom(script, at, mid, prio) + AskedFrom(script, mid, next, prio)
  {
    hide AskedBy;
    if mid < next {
      AskedRange(script, at, mid, next - 1, prio);
    }
  }

  lemma {:induction false} AskedSum(a: seq<Action>, b: seq<Action>, prio: map<Watcher, int>)
    ensures AskedBy(a + b, prio) == AskedBy(a, prio) + AskedBy(b, prio)
  {
    if b == [] {
      assert a + b == a;
    } else {
      var n := |b| - 1;
      assert (a + b)[..|a + b| - 1] == a + b[..n];
      AskedSum(a, b[..n], prio);
    }
  }

  // ---------- the account ----------

  /** `ops` is what carrying out `acts` amounts to, with the callbacks of `script` from `at` up to
      `next`: the operations in it are exactly those asked for, each as often, and each callback
      has been used by one call. */
  ghost predicate CarriedOut(acts: seq<Action>, script: Script, at: nat, next: nat, prio: map<Watcher, int>, ops: seq<Op>) {
    && at <= next <= |script|
    && Told(ops) == AskedBy(acts, prio) + AskedFrom(script, at, next, prio)
    && Calls(ops) >= next - at && (next < |script| ==> Calls(ops) == next - at)
  }

  lemma NothingDone(script: Script, at: nat, prio: map<Watcher, int>)
    requires at <= |script|
    ensures CarriedOut([], script, at, at, prio, [])
  {
  }

  lemma OneDone(act: Action, script: Script, at: nat, prio: map<Watcher, int>, op: Op)
    requires at <= |script| && !op.Invoked? && Asked(act, prio) == multiset{op}
    ensures CarriedOut([act], script, at, at, prio, [op])
  {
    assert [act][..0] == [] && [op][..0] == [];
  }

  lemma NestedDone(script: Script, at: nat, next: nat, prio: map<Watcher, int>, ops: seq<Op>)
    requires CarriedOut([], script, at, next, prio, ops)
    ensures CarriedOut([DoInvokePending], script, at, next, prio, ops)
  {
    assert [DoInvokePending][..0] == [];
  }

  lemma ThenDone(a: seq<Action>, b: seq<Action>, script: Script, at: nat, mid: nat, next: nat, prio: map<Watcher, int>,
                 ops: seq<Op>, more: seq<Op>)
    requires CarriedOut(a, script, at, mid, prio, ops) && CarriedOut(b, script, mid, next, prio, more)
    ensures CarriedOut(a + b, script, at, next, prio, ops + more)
  {
    hide Told, Calls, AskedBy, AskedFrom;
    ToldSum(ops, more);
    AskedSum(a, b, prio);
    AskedRange(script, at, mid, next, prio);
  }

  lemma CallsDone(script: Script, at: nat, mid: nat, next: nat, prio: map<Watcher, int>, ops: seq<Op>, more: seq<Op>)
    requires CarriedOut([], script, at, mid, prio, ops) && CarriedOut([], script, mid, next, prio, more)
    ensures next <= |script| && CarriedOut([], script, at, next, prio, ops + more)
  {
    ThenDone([], [], script, at, mid, next, prio, ops, more);
  }

  /** The call of a callback, and then what it does. */
  lemma CallDone(script: Script, at: nat, next: nat, prio: map<Watcher, int>, call: Op, more: seq<Op>)
    requires call.Invoked? && at < |script| && CarriedOut(script[at], script, at + 1, next, prio, more)
    ensures CarriedOut([], script, at, next, prio, [call] + more)
  {
    assert [call][..0] == [];
    assert Told([call]) == multiset{} && Calls([call]) == 1;
    assert AskedFrom(script, at, at + 1, prio) == AskedBy(script[at], prio);
    assert AskedBy([], prio) == multiset{};
    hide Told, Calls, AskedBy, AskedFrom;
    ToldSum([call], more);
    AskedRange(script, at, at + 1, next, prio);
  }

  /** A call without a callback left. */
  lemma LastCallDone(script: Script, prio: map<Watcher, int>, call: Op)
    requires call.Invoked?
    ensures CarriedOut([], script, |script|, |script|, prio, [call])
  {
    assert [call][..0] == [];
  }

  // ---------- what follows for a watcher that no callback touches ----------

  /** No callback feeds or clears `w`. */
  ghost predicate Spares(script: Script, w: Watcher) {
    forall i, j :: 0 <= i < |script| && 0 <= j < |script[i]| ==>
      script[i][j].DoInvokePending? || script[i][j].w != w
  }

  lemma {:induction false} AskedNames(acts: seq<Action>, prio: map<Watcher, int>, w: Watcher, op: Op)
    requires forall j :: 0 <= j < |acts| ==> acts[j].DoInvokePending? || acts[j].w != w
    requires op.w == w
    ensures AskedBy(acts, prio)[op] == 0
  {
    if acts != [] {
      AskedNames(acts[..|acts| - 1], prio, w, op);
    }
  }

  lemma {:induction false} SparedIsNotAsked(script: Script, at: nat, next: nat, prio: map<Watcher, int>, w: Watcher, op: Op)
    requires Spares(script, w) && next <= |script| && op.w == w
    ensures AskedFrom(script, at, next, prio)[op] == 0
  {
    if next > at {
      SparedIsNotAsked(script, at, next - 1, prio, w, op);
      AskedNames(script[next - 1], prio, w, op);
    }
  }

  lemma {:induction false} ToldHas(ops: seq<Op>, i: nat)
    requires i < |ops| && !ops[i].Invoked?
    ensures Told(ops)[ops[i]] > 0
  {
    var n := |ops| - 1;
    if i < n {
      ToldHas(ops[..n], i);
    }
  }

  /** If no callback touches `w`, only calls happen to it. */
  lemma SparedIsUntouched(hist: seq<Op>, script: Script, at: nat, next: nat, prio: map<Watcher, int>, ops: seq<Op>, w: Watcher)
    requires CarriedOut([], script, at, next, prio, ops) && Spares(script, w)
    ensures Untouched(hist + ops, |hist|, w)
  {
    hide Told, AskedFrom, Spares;
    forall i {:trigger (hist + ops)[i]} | |hist| <= i < |hist + ops| && (hist + ops)[i].w == w
      ensures (hist + ops)[i].Invoked?
    {
      var op := ops[i - |hist|];
      if !op.Invoked? {
        ToldHas(ops, i - |hist|);
        SparedIsNotAsked(script, at, next, prio, w, op);
      }
    }
  }
}
