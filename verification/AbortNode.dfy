/** The abort node: a thread that removes an inner node first blocks the parent's mapping table
    entry with an abort node, so that nobody else can change the parent meanwhile. */
module AbortNodes {
  import opened Options

  type NodeId = nat
  type Thread = nat

  /** An address; nodes are never changed once they have been allocated. */
  type Ptr = nat

  datatype Node = Plain | Abort(child: Ptr)

  datatype Snapshot = Snapshot(id: NodeId, node: Ptr)

  /** A thread first loads an entry, then looks at the node and steps below an abort node, and only
      then works with the snapshot. */
  datatype Stage = Loaded | Ready

  /** `current` and `parent` are the snapshots of the context, and `blocking` is the abort node the
      thread has installed. */
  datatype ThreadState =
    ThreadState(stage: Stage, current: Option<Snapshot>, parent: Option<Snapshot>, blocking: Option<Block>)

  datatype Block = Block(id: NodeId, abort: Ptr, child: Ptr)

  datatype State = State(heap: map<Ptr, Node>, table: map<NodeId, Ptr>, threads: map<Thread, ThreadState>)

  datatype Action =
    | Load(t: Thread, id: NodeId)                          // go down: the current snapshot becomes the parent's
    | Jump(t: Thread, id: NodeId)                          // go sideways: the parent stays
    | Strip(t: Thread)                                     // look at the node loaded
    | Restart(t: Thread)                                   // abort the traversal
    | Replace(t: Thread, ofParent: bool, node: Ptr)        // post any delta or consolidated node
    | PostAbort(t: Thread, node: Ptr)
    | RemoveAbort(t: Thread)

  function Of(s: State, t: Thread): ThreadState {
    if t in s.threads then s.threads[t] else ThreadState(Ready, None, None, None)
  }

  /** The snapshot whose pointer a compare-and-swap expects to find. */
  function Expected(s: State, a: Action): Option<Snapshot> {
    var th := Of(s, a.t);
    match a
    case Replace(_, ofParent, _) => if ofParent then th.parent else th.current
    case PostAbort(_, _) => th.parent
    case _ => None
  }

  ghost predicate Enabled(s: State, a: Action) {
    var th := Of(s, a.t);
    match a
    case Load(_, id) => id in s.table && th.stage.Ready?
    case Jump(_, id) => id in s.table && th.stage.Ready?
    case Strip(_) => th.stage.Loaded? && th.current.Some? && th.current.value.node in s.heap
    case Restart(_) => true
    case Replace(_, _, node) => th.stage.Ready? && Expected(s, a).Some? && node !in s.heap
    case PostAbort(_, node) => th.stage.Ready? && Expected(s, a).Some? && node !in s.heap && th.blocking.None?
    case RemoveAbort(_) => th.blocking.Some?
  }

  ghost predicate CasWins(s: State, id: NodeId, expected: Ptr) { id in s.table && s.table[id] == expected }

  ghost function Cas(s: State, id: NodeId, expected: Ptr, node: Ptr): map<NodeId, Ptr> {
    if CasWins(s, id, expected) then s.table[id := node] else s.table
  }

  ghost function Next(s: State, a: Action): State
    requires Enabled(s, a)
  {
    var th := Of(s, a.t);
    match a
    case Load(t, id) =>
      s.(threads := s.threads[t :=
          th.(stage := Loaded, parent := th.current, current := Some(Snapshot(id, s.table[id])))])
    case Jump(t, id) =>
      s.(threads := s.threads[t := th.(stage := Loaded, current := Some(Snapshot(id, s.table[id])))])
    case Strip(t) =>
      var x := th.current.value;
      if s.heap[x.node].Abort? then
        s.(threads := s.threads[t := th.(current := Some(Snapshot(x.id, s.heap[x.node].child)))])
      else s.(threads := s.threads[t := th.(stage := Ready)])
    case Restart(t) => s.(threads := s.threads[t := th.(stage := Ready, current := None, parent := None)])
    case Replace(t, ofParent, node) =>
      var x := Expected(s, a).value;
      var mine := Some(Snapshot(x.id, node));
      var won := if ofParent then th.(parent := mine) else th.(current := mine);
      s.(heap := s.heap[node := Plain], table := Cas(s, x.id, x.node, node),
         threads := s.threads[t := if CasWins(s, x.id, x.node) then won else th])
    case PostAbort(t, node) =>
      var x := Expected(s, a).value;
      var won := th.(blocking := Some(Block(x.id, node, x.node)));
      s.(heap := s.heap[node := Abort(x.node)], table := Cas(s, x.id, x.node, node),
         threads := s.threads[t := if CasWins(s, x.id, x.node) then won else th])
    case RemoveAbort(t) =>
      var b := th.blocking.value;
      s.(table := Cas(s, b.id, b.abort, b.child), threads := s.threads[t := th.(blocking := None)])
  }

  ghost predicate IsPlain(s: State, p: Ptr) { p in s.heap && s.heap[p].Plain? }

  ghost predicate IsAbort(s: State, p: Ptr) { p in s.heap && s.heap[p].Abort? }

  ghost predicate Init(s: State) { s.threads == map[] && forall id :: id in s.table ==> IsPlain(s, s.table[id]) }

  ghost predicate ThreadOk(s: State, th: ThreadState) {
    && (th.current.Some? ==>
          && th.current.value.node in s.heap
          && (th.stage.Ready? ==> IsPlain(s, th.current.value.node)))
    && (th.parent.Some? ==> IsPlain(s, th.parent.value.node))
    && (th.blocking.Some? ==>
          var b := th.blocking.value;
          && b.abort in s.heap && s.heap[b.abort] == Abort(b.child) && IsPlain(s, b.child)
          && b.id in s.table && s.table[b.id] == b.abort)
  }

  /** An abort node in the table is some thread's own. */
  ghost predicate Owned(s: State, id: NodeId) {
    exists t :: t in s.threads && s.threads[t].blocking.Some? && s.threads[t].blocking.value.id == id
  }

  ghost predicate Inv(s: State) {
    && (forall id :: id in s.table ==> s.table[id] in s.heap)
    && (forall p :: IsAbort(s, p) ==> IsPlain(s, s.heap[p].child))
    && (forall t :: t in s.threads ==> ThreadOk(s, s.threads[t]))
    && (forall id :: id in s.table && IsAbort(s, s.table[id]) ==> Owned(s, id))
    && (forall t, u ::
          && t in s.threads && u in s.threads && t != u
          && s.threads[t].blocking.Some? && s.threads[u].blocking.Some? ==>
          s.threads[t].blocking.value.id != s.threads[u].blocking.value.id)
  }

  /** The compare-and-swap that takes an abort node away never fails, and puts back the very node
      that was blocked. */
  lemma RemoveAbortWins(s: State, t: Thread)
    requires Inv(s) && Enabled(s, RemoveAbort(t))
    ensures var b := Of(s, t).blocking.value;
            CasWins(s, b.id, b.abort) && Next(s, RemoveAbort(t)).table == s.table[b.id := b.child]
  {
    assert ThreadOk(s, s.threads[t]);
  }

  /** While an abort node is installed, only its owner's removal changes the entry. */
  lemma OnlyOwnerUnblocks(s: State, a: Action, t: Thread)
    requires Inv(s) && Enabled(s, a) && t in s.threads && s.threads[t].blocking.Some?
    requires a != RemoveAbort(t)
    ensures var b := s.threads[t].blocking.value;
            b.id in Next(s, a).table && Next(s, a).table[b.id] == b.abort
  {
    assert ThreadOk(s, s.threads[t]);
    if a.t in s.threads { assert ThreadOk(s, s.threads[a.t]); }
  }

  lemma ThreadsSafe(s: State, a: Action, t: Thread)
    requires Inv(s) && Enabled(s, a) && t in Next(s, a).threads
    ensures ThreadOk(Next(s, a), Next(s, a).threads[t])
  {
    if a.t in s.threads { assert ThreadOk(s, s.threads[a.t]); }
    if t in s.threads {
      assert ThreadOk(s, s.threads[t]);
      if s.threads[t].blocking.Some? && a != RemoveAbort(t) { OnlyOwnerUnblocks(s, a, t); }
    }
  }

  lemma OwnedSafe(s: State, a: Action, id: NodeId)
    requires Inv(s) && Enabled(s, a) && id in Next(s, a).table && IsAbort(Next(s, a), Next(s, a).table[id])
    ensures Owned(Next(s, a), id)
  {
    var s' := Next(s, a);
    if a.t in s.threads { assert ThreadOk(s, s.threads[a.t]); }
    if id in s.table && s'.table[id] == s.table[id] {
      assert IsAbort(s, s.table[id]);
      var t :| t in s.threads && s.threads[t].blocking.Some? && s.threads[t].blocking.value.id == id;
      assert ThreadOk(s, s.threads[t]);
      assert t in s'.threads && s'.threads[t].blocking == s.threads[t].blocking;
    } else {
      assert a.PostAbort? && s'.threads[a.t].blocking.value.id == id;
    }
  }

  /** Two threads never block the same entry. */
  lemma DistinctSafe(s: State, a: Action, t: Thread, u: Thread)
    requires Inv(s) && Enabled(s, a) && t in Next(s, a).threads && u in Next(s, a).threads && t != u
    requires Next(s, a).threads[t].blocking.Some? && Next(s, a).threads[u].blocking.Some?
    ensures Next(s, a).threads[t].blocking.value.id != Next(s, a).threads[u].blocking.value.id
  {
    if t in s.threads { assert ThreadOk(s, s.threads[t]); }
    if u in s.threads { assert ThreadOk(s, s.threads[u]); }
  }

  lemma HeapSafe(s: State, a: Action)
    requires Inv(s) && Enabled(s, a)
    ensures forall id :: id in Next(s, a).table ==> Next(s, a).table[id] in Next(s, a).heap
    ensures forall p :: IsAbort(Next(s, a), p) ==> IsPlain(Next(s, a), Next(s, a).heap[p].child)
  {
    if a.t in s.threads { assert ThreadOk(s, s.threads[a.t]); }
    forall p | IsAbort(Next(s, a), p)
      ensures IsPlain(Next(s, a), Next(s, a).heap[p].child)
    {
      if p in s.heap { assert IsAbort(s, p); }
    }
  }

  lemma StepSafe(s: State, a: Action)
    requires Inv(s) && Enabled(s, a)
    ensures Inv(Next(s, a))
  {
    hide Next, ThreadOk, Owned, Enabled;
    HeapSafe(s, a);
    var s' := Next(s, a);
    forall t | t in s'.threads
      ensures ThreadOk(s', s'.threads[t])
    {
      ThreadsSafe(s, a, t);
    }
    forall id | id in s'.table && IsAbort(s', s'.table[id])
      ensures Owned(s', id)
    {
      OwnedSafe(s, a, id);
    }
    forall t, u |
      && t in s'.threads && u in s'.threads && t != u
      && s'.threads[t].blocking.Some? && s'.threads[u].blocking.Some?
      ensures s'.threads[t].blocking.value.id != s'.threads[u].blocking.value.id
    {
      DistinctSafe(s, a, t, u);
    }
  }

  /* Whole runs. */

  ghost predicate Run(states: seq<State>, actions: seq<Action>) {
    && |states| == |actions| + 1 && Init(states[0]) && (forall p :: p in states[0].heap ==> states[0].heap[p].Plain?)
    && forall i :: 0 <= i < |actions| ==> Enabled(states[i], actions[i]) && states[i + 1] == Next(states[i], actions[i])
  }

  lemma {:induction false} RunInvariant(states: seq<State>, actions: seq<Action>, i: nat)
    requires Run(states, actions) && i <= |actions|
    ensures Inv(states[i])
  {
    if i > 0 {
      RunInvariant(states, actions, i - 1);
      StepSafe(states[i - 1], actions[i - 1]);
    }
  }

  /** In every run, the pointer a compare-and-swap expects to find is never an abort node: although a
      loaded pointer may be one, it has been stepped below before it is used, and so has the parent's. */
  lemma RunSnapshots(states: seq<State>, actions: seq<Action>, i: nat)
    requires Run(states, actions) && i < |actions| && (actions[i].Replace? || actions[i].PostAbort?)
    ensures Expected(states[i], actions[i]).Some? && IsPlain(states[i], Expected(states[i], actions[i]).value.node)
  {
    hide Init, Next;
    RunInvariant(states, actions, i);
    if actions[i].t in states[i].threads { assert ThreadOk(states[i], states[i].threads[actions[i].t]); }
  }

  lemma StaysBlocking(s: State, a: Action, t: Thread)
    requires Enabled(s, a) && t in s.threads && s.threads[t].blocking.Some? && a != RemoveAbort(t)
    ensures t in Next(s, a).threads && Next(s, a).threads[t].blocking == s.threads[t].blocking
  {
  }

  lemma IsBlocked(s: State, t: Thread)
    requires Inv(s) && t in s.threads && s.threads[t].blocking.Some?
    ensures var b := s.threads[t].blocking.value; b.id in s.table && s.table[b.id] == b.abort
  {
    assert ThreadOk(s, s.threads[t]);
  }

  /** In every run, from the installation of an abort node to its removal the entry stays blocked,
      and the removal restores the node that was there before. */
  lemma {:induction false} RunBlocks(states: seq<State>, actions: seq<Action>, i: nat, j: nat, t: Thread)
    requires Run(states, actions) && i <= j < |actions| && t in states[i].threads && states[i].threads[t].blocking.Some?
    requires forall k :: i <= k < j ==> actions[k] != RemoveAbort(t)
    ensures t in states[j].threads && states[j].threads[t].blocking == states[i].threads[t].blocking
    ensures var b := states[i].threads[t].blocking.value;
            && b.id in states[j].table && states[j].table[b.id] == b.abort
            && (actions[j] == RemoveAbort(t) ==> states[j + 1].table == states[j].table[b.id := b.child])
    decreases j
  {
    hide Inv, Enabled, Next, Init;
    if i < j {
      RunBlocks(states, actions, i, j - 1, t);
      StaysBlocking(states[j - 1], actions[j - 1], t);
    }
    RunInvariant(states, actions, j);
    IsBlocked(states[j], t);
    if actions[j] == RemoveAbort(t) { RemoveAbortWins(states[j], t); }
  }
}
