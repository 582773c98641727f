/** Epoch based reclamation: worker threads announce the epoch they joined in, tag unlinked nodes
    with the epoch they were unlinked in, and free the tagged nodes no thread can still hold. */
module EpochReclamation {
  type Node = nat
  type Thread = nat

  /** The slot value of a thread that has left. */
  const NOT_ACTIVE: nat := 0xFFFF_FFFF_FFFF_FFFF
  const GC_NODE_COUNT_THREADHOLD := 1024

  datatype Garbage = Garbage(epoch: nat, node: Node)

  /** What a thread does next. */
  datatype Pc =
    | Idle
    | Joining(epoch: nat)                 // has read the epoch, is about to write its slot
    | Working                             // inside an operation
    | Unlinked(node: Node)                // has unlinked a node, is about to read the epoch
    | Tagged(garbage: Garbage)            // is about to append the node to its garbage list
    | Scanning(i: nat, min: nat)          // is about to read slot i
    | Freeing(min: nat)                   // is about to look at the head of its garbage list

  /** `holders` gives, for an unlinked node, the threads that had joined before it was unlinked
      and have not left since: those that may still hold a reference to it. */
  datatype State = State(epoch: nat, slots: seq<nat>, pcs: seq<Pc>, garbage: seq<seq<Garbage>>,
                         holders: map<Node, set<Thread>>, freed: set<Node>)

  datatype Action =
    | IncreaseEpoch
    | Join(t: Thread)
    | Leave(t: Thread)
    | Unlink(t: Thread, node: Node)
    | Step(t: Thread)

  ghost predicate Active(pc: Pc) { !pc.Idle? && !pc.Joining? }

  ghost function ActiveThreads(s: State): set<Thread> { set t: Thread | t < |s.pcs| && Active(s.pcs[t]) }

  ghost function Without(holders: map<Node, set<Thread>>, t: Thread): map<Node, set<Thread>> {
    map x | x in holders :: holders[x] - {t}
  }

  ghost predicate Shape(s: State) { |s.slots| == |s.pcs| == |s.garbage| && |s.pcs| > 0 }

  ghost predicate Enabled(s: State, a: Action)
    requires Shape(s)
  {
    match a
    case IncreaseEpoch => s.epoch + 1 < NOT_ACTIVE
    case Join(t) => t < |s.pcs| && s.pcs[t].Idle?
    case Leave(t) => t < |s.pcs| && s.pcs[t].Working?
    case Unlink(t, node) => t < |s.pcs| && s.pcs[t].Working? && node !in s.holders
    case Step(t) => t < |s.pcs| && !s.pcs[t].Idle? && !s.pcs[t].Working?
  }

  ghost function At(s: State, t: Thread, pc: Pc): State
    requires t < |s.pcs|
  {
    s.(pcs := s.pcs[t := pc])
  }

  function Min(a: nat, b: nat): nat { if a < b then a else b }

  ghost function Next(s: State, a: Action): State
    requires Shape(s) && Enabled(s, a)
  {
    match a
    case IncreaseEpoch => s.(epoch := s.epoch + 1)
    case Join(t) => At(s, t, Joining(s.epoch))
    case Leave(t) => At(s, t, Idle).(slots := s.slots[t := NOT_ACTIVE], holders := Without(s.holders, t))
    case Unlink(t, node) => At(s, t, Unlinked(node)).(holders := s.holders[node := ActiveThreads(s)])
    case Step(t) =>
      match s.pcs[t]
      case Joining(e) => At(s, t, Working).(slots := s.slots[t := e])
      case Unlinked(node) => At(s, t, Tagged(Garbage(s.epoch, node)))
      case Tagged(g) =>
        At(s, t, if |s.garbage[t]| + 1 > GC_NODE_COUNT_THREADHOLD then Scanning(0, NOT_ACTIVE) else Working)
          .(garbage := s.garbage[t := s.garbage[t] + [g]])
      case Scanning(i, min) =>
        if i < |s.slots| then At(s, t, Scanning(i + 1, Min(s.slots[i], min))) else At(s, t, Freeing(min))
      case Freeing(min) =>
        if s.garbage[t] != [] && s.garbage[t][0].epoch < min then
          s.(garbage := s.garbage[t := s.garbage[t][1..]], freed := s.freed + {s.garbage[t][0].node})
        else At(s, t, Working)
      case _ => s
  }

  ghost predicate Init(s: State) {
    && Shape(s) && s.epoch == 0 && s.holders == map[] && s.freed == {}
    && (forall t :: 0 <= t < |s.pcs| ==> s.pcs[t].Idle? && s.garbage[t] == [] && s.slots[t] == 0)
  }

  /* The invariant. */

  /** The holders of a node joined no later than `epoch`. */
  ghost predicate HeldSince(s: State, node: Node, epoch: nat)
    requires Shape(s)
  {
    node in s.holders && forall t :: t in s.holders[node] ==> t < |s.slots| && s.slots[t] <= epoch
  }

  /** No holder below slot `upto` joined before `min`. */
  ghost predicate Scanned(s: State, node: Node, upto: nat, min: nat)
    requires Shape(s)
  {
    node in s.holders && forall t :: t in s.holders[node] && t < upto && t < |s.slots| ==> min <= s.slots[t]
  }

  ghost predicate ListOk(s: State, list: seq<Garbage>)
    requires Shape(s)
  {
    && (forall i :: 0 <= i < |list| ==> list[i].epoch <= s.epoch && HeldSince(s, list[i].node, list[i].epoch))
    && (forall i, j :: 0 <= i < j < |list| ==> list[i].epoch <= list[j].epoch)
  }

  ghost predicate ThreadOk(s: State, t: Thread)
    requires Shape(s) && t < |s.pcs|
  {
    var pc := s.pcs[t];
    && ListOk(s, s.garbage[t])
    && (Active(pc) ==> s.slots[t] <= s.epoch)
    && (pc.Joining? ==> pc.epoch <= s.epoch)
    && (pc.Unlinked? ==> HeldSince(s, pc.node, s.epoch))
    && (pc.Tagged? ==> pc.garbage.epoch <= s.epoch && HeldSince(s, pc.garbage.node, pc.garbage.epoch)
                       && forall i :: 0 <= i < |s.garbage[t]| ==> s.garbage[t][i].epoch <= pc.garbage.epoch)
    && (pc.Scanning? ==> forall i :: 0 <= i < |s.garbage[t]| ==> Scanned(s, s.garbage[t][i].node, pc.i, pc.min))
    && (pc.Freeing? ==> forall i :: 0 <= i < |s.garbage[t]| ==> Scanned(s, s.garbage[t][i].node, |s.slots|, pc.min))
  }

  ghost predicate Inv(s: State) {
    && Shape(s) && (forall t :: 0 <= t < |s.pcs| ==> ThreadOk(s, t))
    && (forall x :: x in s.holders ==> s.holders[x] <= ActiveThreads(s))
    && (forall x :: x in s.freed ==> x in s.holders && s.holders[x] == {})
  }

  /* A state change another thread does not notice. */

  ghost predicate Kept(s: State, s': State)
    requires Shape(s) && Shape(s')
  {
    && |s'.pcs| == |s.pcs| && s.epoch <= s'.epoch
    && (forall x :: x in s.holders ==> x in s'.holders && s'.holders[x] <= s.holders[x])
    && (forall x, t :: x in s'.holders && x in s.holders && t in s'.holders[x] && t < |s.slots| ==>
        s'.slots[t] == s.slots[t])
  }

  lemma HeldKept(s: State, s': State, node: Node, epoch: nat, epoch': nat)
    requires Shape(s) && Shape(s') && Kept(s, s') && HeldSince(s, node, epoch) && epoch <= epoch'
    ensures HeldSince(s', node, epoch')
  {
  }

  lemma ListKept(s: State, s': State, list: seq<Garbage>)
    requires Shape(s) && Shape(s') && Kept(s, s') && ListOk(s, list)
    ensures ListOk(s', list)
  {
    hide HeldSince;
    forall i | 0 <= i < |list|
      ensures HeldSince(s', list[i].node, list[i].epoch)
    {
      HeldKept(s, s', list[i].node, list[i].epoch, list[i].epoch);
    }
  }

  lemma ThreadKept(s: State, s': State, t: Thread)
    requires Shape(s) && Shape(s') && Kept(s, s') && t < |s.pcs| && ThreadOk(s, t)
    requires s'.pcs[t] == s.pcs[t] && s'.garbage[t] == s.garbage[t] && (Active(s.pcs[t]) ==> s'.slots[t] == s.slots[t])
    ensures ThreadOk(s', t)
  {
    hide HeldSince, ListOk;
    ListKept(s, s', s.garbage[t]);
    var pc := s.pcs[t];
    if pc.Unlinked? { HeldKept(s, s', pc.node, s.epoch, s'.epoch); }
    if pc.Tagged? { HeldKept(s, s', pc.garbage.node, pc.garbage.epoch, pc.garbage.epoch); }
  }

  /* Every step keeps the invariant. */

  lemma Others(s: State, s': State, t: Thread)
    requires Inv(s) && Shape(s') && Kept(s, s') && t < |s.pcs| && ThreadOk(s', t)
    requires forall u :: 0 <= u < |s.pcs| && u != t ==>
      s'.pcs[u] == s.pcs[u] && s'.garbage[u] == s.garbage[u] && s'.slots[u] == s.slots[u]
    requires Active(s'.pcs[t]) || forall x :: x in s'.holders ==> t !in s'.holders[x]
    requires forall x :: x in s'.holders && x !in s.holders ==> s'.holders[x] <= ActiveThreads(s)
    requires forall x :: x in s'.freed && x !in s.freed ==> x in s.holders && s.holders[x] == {}
    ensures Inv(s')
  {
    hide ThreadOk;
    forall x | x in s'.holders
      ensures s'.holders[x] <= ActiveThreads(s')
    {
      assert s'.holders[x] <= ActiveThreads(s);
      forall u | u in s'.holders[x]
        ensures u in ActiveThreads(s')
      {
        assert u in ActiveThreads(s);
      }
    }
    forall u | 0 <= u < |s'.pcs|
      ensures ThreadOk(s', u)
    {
      if u != t { ThreadKept(s, s', u); }
    }
  }

  lemma IncreaseSafe(s: State)
    requires Inv(s) && Enabled(s, IncreaseEpoch)
    ensures Inv(Next(s, IncreaseEpoch))
  {
    hide ThreadOk;
    var s' := Next(s, IncreaseEpoch);
    forall u | 0 <= u < |s'.pcs|
      ensures ThreadOk(s', u)
    {
      ThreadKept(s, s', u);
    }
  }

  lemma JoinSafe(s: State, t: Thread)
    requires Inv(s) && Enabled(s, Join(t))
    ensures Inv(Next(s, Join(t)))
  {
    var s' := Next(s, Join(t));
    assert ThreadOk(s, t);
    ListKept(s, s', s.garbage[t]);
    hide ListOk, HeldSince;
    assert ThreadOk(s', t);
    Others(s, s', t);
  }

  lemma LeaveSafe(s: State, t: Thread)
    requires Inv(s) && Enabled(s, Leave(t))
    ensures Inv(Next(s, Leave(t)))
  {
    var s' := Next(s, Leave(t));
    assert ThreadOk(s, t);
    assert Kept(s, s');
    ListKept(s, s', s.garbage[t]);
    hide ListOk, HeldSince;
    assert ThreadOk(s', t);
    Others(s, s', t);
  }

  lemma UnlinkSafe(s: State, t: Thread, node: Node)
    requires Inv(s) && Enabled(s, Unlink(t, node))
    ensures Inv(Next(s, Unlink(t, node)))
  {
    var s' := Next(s, Unlink(t, node));
    assert ThreadOk(s, t);
    assert Kept(s, s');
    ListKept(s, s', s.garbage[t]);
    assert HeldSince(s', node, s'.epoch) by {
      forall u | u in ActiveThreads(s)
        ensures s'.slots[u] <= s'.epoch
      {
        assert ThreadOk(s, u);
      }
    }
    hide ListOk, HeldSince;
    assert ThreadOk(s', t);
    Others(s, s', t);
  }

  lemma WriteSlotSafe(s: State, t: Thread)
    requires Inv(s) && Enabled(s, Step(t)) && s.pcs[t].Joining?
    ensures Inv(Next(s, Step(t)))
  {
    var s' := Next(s, Step(t));
    assert ThreadOk(s, t);
    assert Kept(s, s');
    ListKept(s, s', s.garbage[t]);
    hide ListOk, HeldSince;
    assert ThreadOk(s', t);
    Others(s, s', t);
  }

  lemma TagSafe(s: State, t: Thread)
    requires Inv(s) && Enabled(s, Step(t)) && s.pcs[t].Unlinked?
    ensures Inv(Next(s, Step(t)))
  {
    var s' := Next(s, Step(t));
    assert ThreadOk(s, t);
    assert Kept(s, s');
    ListKept(s, s', s.garbage[t]);
    HeldKept(s, s', s.pcs[t].node, s.epoch, s.epoch);
    assert ThreadOk(s', t);
    Others(s, s', t);
  }

  lemma AppendSafe(s: State, t: Thread)
    requires Inv(s) && Enabled(s, Step(t)) && s.pcs[t].Tagged?
    ensures Inv(Next(s, Step(t)))
  {
    var s', g := Next(s, Step(t)), s.pcs[t].garbage;
    assert ThreadOk(s, t);
    assert Kept(s, s');
    ListKept(s, s', s.garbage[t]);
    HeldKept(s, s', g.node, g.epoch, g.epoch);
    assert ListOk(s', s.garbage[t] + [g]);
    forall i | 0 <= i < |s.garbage[t] + [g]|
      ensures Scanned(s', (s.garbage[t] + [g])[i].node, 0, NOT_ACTIVE)
    {
    }
    hide ListOk, HeldSince, Scanned;
    assert ThreadOk(s', t);
    Others(s, s', t);
  }

  lemma ScanSafe(s: State, t: Thread)
    requires Inv(s) && Enabled(s, Step(t)) && s.pcs[t].Scanning?
    ensures Inv(Next(s, Step(t)))
  {
    var s' := Next(s, Step(t));
    assert ThreadOk(s, t);
    assert Kept(s, s');
    ListKept(s, s', s.garbage[t]);
    hide ListOk, HeldSince;
    assert ThreadOk(s', t);
    Others(s, s', t);
  }

  /** What the scan found says that nobody can hold the node any more. */
  lemma FreeIsSafe(s: State, t: Thread)
    requires Inv(s) && t < |s.pcs| && s.pcs[t].Freeing? && s.garbage[t] != [] && s.garbage[t][0].epoch < s.pcs[t].min
    ensures s.garbage[t][0].node in s.holders && s.holders[s.garbage[t][0].node] == {}
  {
    assert ThreadOk(s, t);
    var x := s.garbage[t][0].node;
    assert HeldSince(s, x, s.garbage[t][0].epoch) && Scanned(s, x, |s.slots|, s.pcs[t].min);
    forall u | u in s.holders[x]
      ensures false
    {
    }
  }

  lemma FreeSafe(s: State, t: Thread)
    requires Inv(s) && Enabled(s, Step(t)) && s.pcs[t].Freeing?
    ensures Inv(Next(s, Step(t)))
  {
    var s' := Next(s, Step(t));
    assert ThreadOk(s, t);
    assert Kept(s, s');
    ListKept(s, s', s.garbage[t]);
    if s.garbage[t] != [] && s.garbage[t][0].epoch < s.pcs[t].min {
      FreeIsSafe(s, t);
    }
    assert ThreadOk(s', t);
    Others(s, s', t);
  }

  lemma StepSafe(s: State, a: Action)
    requires Inv(s) && Enabled(s, a)
    ensures Inv(Next(s, a))
  {
    hide Inv, Next;
    match a
    case IncreaseEpoch => IncreaseSafe(s);
    case Join(t) => JoinSafe(s, t);
    case Leave(t) => LeaveSafe(s, t);
    case Unlink(t, node) => UnlinkSafe(s, t, node);
    case Step(t) =>
      match s.pcs[t] {
        case Joining(_) => WriteSlotSafe(s, t);
        case Unlinked(_) => TagSafe(s, t);
        case Tagged(_) => AppendSafe(s, t);
        case Scanning(_, _) => ScanSafe(s, t);
        case Freeing(_) => FreeSafe(s, t);
      }
  }

  /* Whole runs. */

  ghost predicate Run(states: seq<State>, actions: seq<Action>) {
    && |states| == |actions| + 1 && Init(states[0])
    && forall i :: 0 <= i < |actions| ==>
        Shape(states[i]) && Enabled(states[i], actions[i]) && states[i + 1] == Next(states[i], actions[i])
  }

  lemma {:induction false} RunInvariant(states: seq<State>, actions: seq<Action>, i: nat)
    requires Run(states, actions) && i <= |actions|
    ensures Inv(states[i]) && |states[i].pcs| == |states[0].pcs|
  {
    if i > 0 {
      RunInvariant(states, actions, i - 1);
      StepSafe(states[i - 1], actions[i - 1]);
    }
  }

  /** A thread that stays active remains a holder of every node unlinked while it was active. */
  lemma {:induction false} StaysHolder(states: seq<State>, actions: seq<Action>, u: nat, f: nat, t: Thread)
    requires Run(states, actions) && u < f <= |actions| && actions[u].Unlink?
    requires forall i :: u <= i <= f ==> t < |states[i].pcs| && Active(states[i].pcs[t])
    ensures actions[u].node in states[f].holders && t in states[f].holders[actions[u].node]
  {
    RunInvariant(states, actions, f - 1);
    hide Inv, Init;
    if u + 1 == f {
      assert t in ActiveThreads(states[u]);
    } else {
      StaysHolder(states, actions, u, f - 1, t);
      assert states[f] == Next(states[f - 1], actions[f - 1]);
      assert Active(states[f].pcs[t]);
    }
  }

  /** Reclamation is safe: in every run, as long as some thread that had joined before a node was
      unlinked has not left, the node is not freed. */
  lemma NotFreedWhileActive(states: seq<State>, actions: seq<Action>, u: nat, f: nat, t: Thread)
    requires Run(states, actions) && u < f <= |actions| && actions[u].Unlink?
    requires forall i :: u <= i <= f ==> t < |states[i].pcs| && Active(states[i].pcs[t])
    ensures actions[u].node !in states[f].freed
  {
    StaysHolder(states, actions, u, f, t);
    RunInvariant(states, actions, f);
  }

  /** In every run every thread's garbage list is sorted by epoch, none later than now. */
  lemma RunGarbageSorted(states: seq<State>, actions: seq<Action>, i: nat, t: Thread)
    requires Run(states, actions) && i <= |actions| && t < |states[0].pcs|
    ensures t < |states[i].garbage|
    ensures var list := states[i].garbage[t];
            && (forall j, k :: 0 <= j < k < |list| ==> list[j].epoch <= list[k].epoch)
            && (forall j :: 0 <= j < |list| ==> list[j].epoch <= states[i].epoch)
  {
    RunInvariant(states, actions, i);
    assert ThreadOk(states[i], t);
  }

  /* One thread's garbage list in memory. */

  class GarbageNode {
    var deleteEpoch: nat
    var node: Node
    var next: GarbageNode?

    constructor (deleteEpoch: nat, node: Node)
      ensures this.deleteEpoch == deleteEpoch && this.node == node && next == null
    {
      this.deleteEpoch, this.node, this.next := deleteEpoch, node, null;
    }
  }

  /** The longest prefix tagged before `min`: what one collection frees. */
  function Expired(list: seq<Garbage>, min: nat): (n: nat)
    ensures n <= |list|
    ensures forall i :: 0 <= i < n ==> list[i].epoch < min
    ensures n < |list| ==> min <= list[n].epoch
  {
    if list == [] || list[0].epoch >= min then 0 else 1 + Expired(list[1..], min)
  }

  /** On a list sorted by epoch nothing that could be freed is left behind. */
  lemma ExpiredComplete(list: seq<Garbage>, min: nat)
    requires forall i, j :: 0 <= i < j < |list| ==> list[i].epoch <= list[j].epoch
    ensures forall i :: 0 <= i < |list| ==> (i < Expired(list, min) <==> list[i].epoch < min)
  {
    var n := Expired(list, min);
    assert forall i :: n < i < |list| ==> list[n].epoch <= list[i].epoch;
  }

  class GarbageList {
    const header: GarbageNode
    var last: GarbageNode
    var nodeCount: nat
    ghost var nodes: seq<GarbageNode>
    ghost var contents: seq<Garbage>

    ghost predicate Linked(n: seq<GarbageNode>)
      reads this, n
    {
      && (forall i, j :: 0 <= i < j < |n| ==> n[i] != n[j])
      && (forall i, j :: 0 <= i && j == i + 1 < |n| ==> n[i].next == n[j])
      && (n != [] ==> n[|n| - 1].next == null)
    }

    ghost predicate Valid()
      reads this, nodes
    {
      Chain() && last == nodes[|nodes| - 1]
    }

    /** All of `Valid` except for where `last` stands once the list is empty. */
    ghost predicate Chain()
      reads this, nodes
    {
      && nodes != [] && nodes[0] == header && Linked(nodes) && (contents != [] ==> last == nodes[|nodes| - 1])
      && |contents| == |nodes| - 1 && nodeCount == |contents|
      && forall i :: 0 <= i < |contents| ==>
          nodes[i + 1].deleteEpoch == contents[i].epoch && nodes[i + 1].node == contents[i].node
    }

    constructor ()
      ensures Valid() && contents == [] && fresh(nodes)
    {
      var h := new GarbageNode(0, 0);
      header, last, nodeCount, nodes, contents := h, h, 0, [h], [];
    }

    /** Links a new node behind the last one. */
    method AddGarbageNode(epoch: nat, node: Node)
      requires Valid()
      modifies this, nodes
      ensures Valid() && fresh(nodes[|nodes| - 1]) && nodes[..|nodes| - 1] == old(nodes)
      ensures contents == old(contents) + [Garbage(epoch, node)]
    {
      var g := new GarbageNode(epoch, node);
      last.next := g;
      last := g;
      nodeCount := nodeCount + 1;
      nodes := nodes + [g];
      contents := contents + [Garbage(epoch, node)];
    }

    /** Unlinks the first garbage node. */
    method PopFirst(first: GarbageNode) returns (node: Node)
      requires Chain() && contents != [] && header.next == first
      modifies this`nodeCount, this`nodes, this`contents, header`next
      ensures Chain() && contents == old(contents)[1..] && node == old(contents)[0].node
      ensures forall g :: g in nodes ==> g in old(nodes)
    {
      assert nodes[0].next == nodes[1] && first == nodes[1];
      assert |nodes| > 2 ==> nodes[1].next == nodes[2];
      header.next := first.next;
      node := first.node;
      nodeCount := nodeCount - 1;
      nodes := [header] + nodes[2..];
      contents := contents[1..];
    }

    /** Frees from the front while the tag is below `minEpoch`. */
    method PerformGC(minEpoch: nat) returns (freed: seq<Node>)
      requires Valid()
      modifies this, header
      ensures Valid() && contents == old(contents)[Expired(old(contents), minEpoch)..]
      ensures |freed| == Expired(old(contents), minEpoch)
      ensures forall i :: 0 <= i < |freed| ==> freed[i] == old(contents)[i].node
      ensures forall g :: g in nodes ==> g in old(nodes)
    {
      freed := [];
      var first := header.next;
      ghost var n := Expired(contents, minEpoch);
      while first != null && first.deleteEpoch < minEpoch
        invariant Chain() && first == header.next && |freed| <= |old(contents)| && contents == old(contents)[|freed|..]
        invariant |freed| + Expired(contents, minEpoch) == n
        invariant forall i :: 0 <= i < |freed| ==> freed[i] == old(contents)[i].node
        invariant forall g :: g in nodes ==> g in old(nodes)
        decreases |contents|
      {
        First();
        var node := PopFirst(first);
        freed := freed + [node];
        first := header.next;
      }
      First();
      if first == null {
        last := header;
      }
    }

    lemma First()
      requires Chain()
      ensures header.next == null <==> contents == []
      ensures contents != [] ==> header.next == nodes[1] && nodes[1].deleteEpoch == contents[0].epoch
    {
      if contents != [] { assert nodes[0].next == nodes[1]; }
    }
  }
}
