/** What epoch reclamation gets done: what a scan of the slots finds, what the collection after it
    frees, and that every unlinked node is freed at most once and never forgotten. */
module EpochCollection {
  import opened EpochReclamation

  ghost predicate By(a: Action, t: Thread) { !a.IncreaseEpoch? && a.t == t }

  lemma OthersLeave(s: State, a: Action, t: Thread)
    requires Shape(s) && Enabled(s, a) && t < |s.pcs| && !By(a, t)
    ensures Shape(Next(s, a)) && |Next(s, a).pcs| == |s.pcs|
    ensures Next(s, a).pcs[t] == s.pcs[t] && Next(s, a).garbage[t] == s.garbage[t] && s.freed <= Next(s, a).freed
  {
  }

  /* The scan. */

  /** `min` is the least of the values slot 0, slot 1 and so on had at the given times. */
  ghost predicate IsMinimum(states: seq<State>, times: seq<nat>, min: nat) {
    && (forall u :: 0 <= u < |times| ==> times[u] < |states| && u < |states[times[u]].slots|)
    && (forall u :: 0 <= u < |times| ==> min <= states[times[u]].slots[u])
    && (if times == [] then min == NOT_ACTIVE
        else exists u :: 0 <= u < |times| && min == states[times[u]].slots[u])
  }

  ghost predicate Within(times: seq<nat>, i: nat, j: nat) {
    && (forall u :: 0 <= u < |times| ==> i <= times[u] < j)
    && (forall u, v :: 0 <= u < v < |times| ==> times[u] < times[v])
  }

  ghost predicate Bounded(s: State) {
    s.epoch < NOT_ACTIVE && forall u :: 0 <= u < |s.slots| ==> s.slots[u] <= NOT_ACTIVE
  }

  lemma {:induction false} RunBounded(states: seq<State>, actions: seq<Action>, i: nat)
    requires Run(states, actions) && i <= |actions|
    ensures Bounded(states[i])
  {
    if i > 0 {
      RunBounded(states, actions, i - 1);
      RunInvariant(states, actions, i - 1);
      BoundedStep(states[i - 1], actions[i - 1]);
    }
  }

  lemma BoundedStep(s: State, a: Action)
    requires Inv(s) && Enabled(s, a) && Bounded(s)
    ensures Bounded(Next(s, a))
  {
    if !a.IncreaseEpoch? { assert ThreadOk(s, a.t); }
  }

  lemma MinimumMore(states: seq<State>, times: seq<nat>, min: nat, now: nat)
    requires IsMinimum(states, times, min) && now < |states| && |times| < |states[now].slots|
    requires states[now].slots[|times|] <= NOT_ACTIVE
    ensures IsMinimum(states, times + [now], Min(states[now].slots[|times|], min))
  {
    var more, k := times + [now], |times|;
    assert more[k] == now;
    if min <= states[now].slots[k] && times != [] {
      var u :| 0 <= u < |times| && min == states[times[u]].slots[u];
      assert more[u] == times[u];
    } else {
      assert Min(states[now].slots[k], min) == states[more[k]].slots[k];
    }
  }

  /* One pass: the scan and the collection after it. */

  /** The thread is between the start of its scan and the end of the collection. */
  ghost predicate Collecting(states: seq<State>, i: nat, k: nat, t: Thread) {
    && i <= k < |states| && t < |states[i].pcs| && states[i].pcs[t] == Scanning(0, NOT_ACTIVE)
    && forall m :: i <= m <= k ==> t < |states[m].pcs| && (states[m].pcs[t].Scanning? || states[m].pcs[t].Freeing?)
  }

  /** What the pass has come to in state `m`: `list` is the garbage it began with. */
  ghost predicate PassAt(states: seq<State>, i: nat, m: nat, t: Thread, list: seq<Garbage>, times: seq<nat>, n: nat)
    requires m < |states| && Shape(states[m]) && t < |states[m].pcs|
  {
    var s := states[m];
    && Within(times, i, m) && n <= |list| && s.garbage[t] == list[n..]
    && (forall x :: 0 <= x < n ==> list[x].node in s.freed)
    && (s.pcs[t].Scanning? ==> n == 0 && |times| == s.pcs[t].i <= |s.slots| && IsMinimum(states, times, s.pcs[t].min))
    && (s.pcs[t].Freeing? ==>
          && |times| == |s.slots| && IsMinimum(states, times, s.pcs[t].min) && n <= Expired(list, s.pcs[t].min))
  }

  lemma {:induction false} Pass(states: seq<State>, actions: seq<Action>, i: nat, m: nat, t: Thread)
    returns (times: seq<nat>, n: nat)
    requires Run(states, actions) && Collecting(states, i, m, t)
    ensures Inv(states[i]) && Inv(states[m]) && PassAt(states, i, m, t, states[i].garbage[t], times, n)
    decreases m
  {
    hide Inv, Init, IsMinimum, Next, Enabled, PassAt, By;
    RunInvariant(states, actions, i);
    RunInvariant(states, actions, m);
    ShapeOf(states[i]);
    var list := states[i].garbage[t];
    if i == m {
      times, n := [], 0;
      PassStart(states, i, t);
    } else {
      times, n := Pass(states, actions, i, m - 1, t);
      RunBounded(states, actions, m - 1);
      ShapeOf(states[m - 1]);
      var s, a := states[m - 1], actions[m - 1];
      assert s.pcs[t].Scanning? || s.pcs[t].Freeing?;
      if !By(a, t) {
        PassOther(states, a, i, m, t, list, times, n);
      } else if s.pcs[t].Scanning? {
        NoneFreed(states, i, m - 1, t, list, times, n);
        times := PassScan(states, a, i, m, t, list, times);
      } else {
        n := PassFree(states, a, i, m, t, list, times, n);
      }
    }
  }

  lemma ShapeOf(s: State)
    requires Inv(s)
    ensures Shape(s)
  {
  }

  lemma NoneFreed(states: seq<State>, i: nat, m: nat, t: Thread, list: seq<Garbage>, times: seq<nat>, n: nat)
    requires m < |states| && Shape(states[m]) && t < |states[m].pcs| && states[m].pcs[t].Scanning?
    requires PassAt(states, i, m, t, list, times, n)
    ensures n == 0
  {
  }

  lemma PassStart(states: seq<State>, i: nat, t: Thread)
    requires i < |states| && Shape(states[i]) && t < |states[i].pcs| && states[i].pcs[t] == Scanning(0, NOT_ACTIVE)
    ensures PassAt(states, i, i, t, states[i].garbage[t], [], 0)
  {
    NothingRead(states);
  }

  lemma PassOther(states: seq<State>, a: Action, i: nat, m: nat, t: Thread, list: seq<Garbage>, times: seq<nat>, n: nat)
    requires i < m < |states| && Shape(states[m - 1]) && Enabled(states[m - 1], a) && t < |states[m - 1].pcs| &&
      !By(a, t)
    requires states[m] == Next(states[m - 1], a) && PassAt(states, i, m - 1, t, list, times, n)
    ensures Shape(states[m]) && t < |states[m].pcs| && PassAt(states, i, m, t, list, times, n)
  {
    hide IsMinimum, Next, Enabled, By;
    OthersLeave(states[m - 1], a, t);
  }

  lemma PassScan(states: seq<State>, a: Action, i: nat, m: nat, t: Thread, list: seq<Garbage>, times: seq<nat>)
    returns (times': seq<nat>)
    requires i < m < |states| && Shape(states[m - 1]) && Enabled(states[m - 1], a) && t < |states[m - 1].pcs| &&
      By(a, t)
    requires states[m - 1].pcs[t].Scanning? && states[m] == Next(states[m - 1], a) && Bounded(states[m - 1])
    requires PassAt(states, i, m - 1, t, list, times, 0)
    ensures Shape(states[m]) && t < |states[m].pcs| && PassAt(states, i, m, t, list, times', 0)
  {
    hide IsMinimum;
    var s := states[m - 1];
    times' := times;
    if s.pcs[t].i < |s.slots| {
      MinimumMore(states, times, s.pcs[t].min, m - 1);
      times' := times + [m - 1];
    }
  }

  lemma PassFree(states: seq<State>, a: Action, i: nat, m: nat, t: Thread, list: seq<Garbage>, times: seq<nat>, n: nat)
    returns (n': nat)
    requires i < m < |states| && Shape(states[m - 1]) && Enabled(states[m - 1], a) && t < |states[m - 1].pcs| &&
      By(a, t)
    requires states[m - 1].pcs[t].Freeing? && states[m] == Next(states[m - 1], a)
    requires PassAt(states, i, m - 1, t, list, times, n)
    ensures Shape(states[m]) && t < |states[m].pcs| && PassAt(states, i, m, t, list, times, n')
  {
    hide IsMinimum;
    n' := FreeOne(states[m - 1], t, list, n);
  }

  lemma NothingRead(states: seq<State>)
    ensures IsMinimum(states, [], NOT_ACTIVE)
  {
  }

  lemma FreeOne(s: State, t: Thread, list: seq<Garbage>, n: nat) returns (n': nat)
    requires Shape(s) && t < |s.pcs| && s.pcs[t].Freeing? && n <= |list| && s.garbage[t] == list[n..]
    requires n <= Expired(list, s.pcs[t].min) && forall x :: 0 <= x < n ==> list[x].node in s.freed
    ensures var s' := Next(s, Step(t));
            && n' <= |list| && s'.garbage[t] == list[n'..]
            && (forall x :: 0 <= x < n' ==> list[x].node in s'.freed)
            && n' <= Expired(list, s.pcs[t].min) && (s'.pcs[t].Working? ==> n' == Expired(list, s.pcs[t].min))
            && (s'.pcs[t].Working? || s'.pcs[t] == s.pcs[t])
  {
    n' := n;
    if s.garbage[t] != [] && s.garbage[t][0].epoch < s.pcs[t].min {
      assert list[n] == s.garbage[t][0] && list[n..][1..] == list[n + 1..];
      n' := n + 1;
    }
  }

  /** In every run, a collection that has come to its end has read every slot once, in order, and has
      freed exactly the nodes tagged before the least value it read; the others are still listed. */
  lemma RunCollects(states: seq<State>, actions: seq<Action>, i: nat, k: nat, t: Thread)
    returns (times: seq<nat>, min: nat)
    requires Run(states, actions) && k < |actions| && Collecting(states, i, k, t)
    requires t < |states[k + 1].pcs| && states[k + 1].pcs[t].Working?
    ensures Inv(states[i]) && Inv(states[k + 1])
    ensures Within(times, i, k) && |times| == |states[i].slots| && IsMinimum(states, times, min)
    ensures var list := states[i].garbage[t];
            && states[k + 1].garbage[t] == list[Expired(list, min)..]
            && (forall x :: 0 <= x < Expired(list, min) ==> list[x].node in states[k + 1].freed)
  {
    hide Inv, Init, IsMinimum;
    RunInvariant(states, actions, i);
    RunInvariant(states, actions, k);
    RunInvariant(states, actions, k + 1);
    var n;
    times, n := Pass(states, actions, i, k, t);
    var s := states[k];
    if !By(actions[k], t) { OthersLeave(s, actions[k], t); }
    assert s.pcs[t].Freeing?;
    min := s.pcs[t].min;
    n := FreeOne(s, t, states[i].garbage[t], n);
  }

  /** In every run: if from the start of a thread's scan to its end every slot stays above `e`, then
      when the thread is back at work no garbage tagged `e` or before is left in its list, and all that
      was there has been freed. */
  lemma RunReclaims(states: seq<State>, actions: seq<Action>, i: nat, k: nat, t: Thread, e: nat)
    requires Run(states, actions) && k < |actions| && Collecting(states, i, k, t)
    requires t < |states[k + 1].pcs| && states[k + 1].pcs[t].Working?
    requires forall m, u :: i <= m <= k && 0 <= u < |states[m].slots| ==> e < states[m].slots[u]
    ensures t < |states[k + 1].garbage| && t < |states[i].garbage|
    ensures forall g :: g in states[k + 1].garbage[t] ==> e < g.epoch
    ensures forall g :: g in states[i].garbage[t] && g.epoch <= e ==> g.node in states[k + 1].freed
  {
    hide Init;
    var times, min := RunCollects(states, actions, i, k, t);
    assert ThreadOk(states[i], t);
    var list := states[i].garbage[t];
    hide Inv;
    assert times != [];
    var u :| 0 <= u < |times| && min == states[times[u]].slots[u];
    assert e < min;
    ExpiredComplete(list, min);
    var n := Expired(list, min);
    forall g | g in states[k + 1].garbage[t]
      ensures e < g.epoch
    {
      var x :| 0 <= x < |list[n..]| && list[n..][x] == g;
      assert list[n + x] == g;
    }
  }

  /* A collection that has begun comes to its end. */

  ghost predicate Finishes(s: State, t: Thread, k: nat)
    requires Shape(s) && t < |s.pcs|
    decreases k
  {
    || s.pcs[t].Working?
    || (k > 0 && Enabled(s, Step(t)) && Shape(Next(s, Step(t))) && Finishes(Next(s, Step(t)), t, k - 1))
  }

  lemma {:induction false} FreeingFinishes(s: State, t: Thread)
    requires Shape(s) && t < |s.pcs| && s.pcs[t].Freeing?
    ensures Finishes(s, t, |s.garbage[t]| + 1)
    decreases |s.garbage[t]|
  {
    var s' := Next(s, Step(t));
    if s'.pcs[t].Freeing? {
      FreeingFinishes(s', t);
    }
  }

  /** A thread that runs alone gets from any point of its scan back to work: one step for each slot
      still to read, one for the end of the scan, and at most one for each node and the last look. */
  lemma {:induction false} ScanFinishes(s: State, t: Thread)
    requires Shape(s) && t < |s.pcs| && s.pcs[t].Scanning? && s.pcs[t].i <= |s.slots|
    ensures Finishes(s, t, |s.slots| - s.pcs[t].i + |s.garbage[t]| + 2)
    decreases |s.slots| - s.pcs[t].i
  {
    var s' := Next(s, Step(t));
    if s'.pcs[t].Scanning? { ScanFinishes(s', t); } else { FreeingFinishes(s', t); }
  }

  /** Putting a node on the list starts a collection exactly if the list is then too long. */
  lemma AppendCollects(s: State, t: Thread)
    requires Shape(s) && t < |s.pcs| && s.pcs[t].Tagged?
    ensures var s' := Next(s, Step(t));
            && s'.garbage[t] == s.garbage[t] + [s.pcs[t].garbage]
            && (|s'.garbage[t]| > GC_NODE_COUNT_THREADHOLD ==> s'.pcs[t] == Scanning(0, NOT_ACTIVE))
            && (|s'.garbage[t]| <= GC_NODE_COUNT_THREADHOLD ==> s'.pcs[t].Working?)
  {
  }

  /* No unlinked node is forgotten, and none is freed twice. */

  ghost function NodesOf(list: seq<Garbage>): seq<Node> { seq(|list|, i requires 0 <= i < |list| => list[i].node) }

  ghost function InHand(pc: Pc): multiset<Node> {
    match pc
    case Unlinked(node) => multiset{node}
    case Tagged(g) => multiset{g.node}
    case _ => multiset{}
  }

  ghost function HeldBy(s: State, t: Thread): multiset<Node>
    requires Shape(s) && t < |s.pcs|
  {
    multiset(NodesOf(s.garbage[t])) + InHand(s.pcs[t])
  }

  ghost function HeldByAll(s: State, n: nat): multiset<Node>
    requires Shape(s) && n <= |s.pcs|
  {
    if n == 0 then multiset{} else HeldByAll(s, n - 1) + HeldBy(s, n - 1)
  }

  /** Every node unlinked so far is in one place, once: in a thread's hand, on a list, or freed. */
  ghost predicate Accounted(s: State)
    requires Shape(s)
  {
    HeldByAll(s, |s.pcs|) + multiset(s.freed) == multiset(s.holders.Keys)
  }

  lemma {:induction false} SumSame(s: State, s': State, n: nat)
    requires Shape(s) && Shape(s') && n <= |s.pcs| && n <= |s'.pcs|
    requires forall u :: 0 <= u < n ==> HeldBy(s', u) == HeldBy(s, u)
    ensures HeldByAll(s', n) == HeldByAll(s, n)
  {
    hide HeldBy;
    if n > 0 { SumSame(s, s', n - 1); }
  }

  lemma {:induction false} SumChange(s: State, s': State, n: nat, t: Thread, more: multiset<Node>, less: multiset<Node>)
    requires Shape(s) && Shape(s') && t < n <= |s.pcs| && n <= |s'.pcs|
    requires forall u :: 0 <= u < n && u != t ==> HeldBy(s', u) == HeldBy(s, u)
    requires HeldBy(s', t) + less == HeldBy(s, t) + more
    ensures HeldByAll(s', n) + less == HeldByAll(s, n) + more
  {
    hide HeldBy;
    if n - 1 == t {
      SumSame(s, s', t);
      AddBoth(HeldByAll(s, t), HeldBy(s', t), less, HeldBy(s, t), more);
    } else {
      SumChange(s, s', n - 1, t, more, less);
      AddSame(HeldByAll(s', n - 1), less, HeldByAll(s, n - 1), more, HeldBy(s, n - 1));
    }
  }

  lemma AddSame(a: multiset<Node>, less: multiset<Node>, b: multiset<Node>, more: multiset<Node>, m: multiset<Node>)
    requires a + less == b + more
    ensures (a + m) + less == (b + m) + more
  {
    assert (a + m) + less == (a + less) + m;
    assert (b + m) + more == (b + more) + m;
  }

  lemma AddBoth(m: multiset<Node>, a: multiset<Node>, less: multiset<Node>, b: multiset<Node>, more: multiset<Node>)
    requires a + less == b + more
    ensures (m + a) + less == (m + b) + more
  {
    assert (m + a) + less == m + (a + less);
    assert (m + b) + more == m + (b + more);
  }

  lemma ListMore(list: seq<Garbage>, g: Garbage)
    ensures multiset(NodesOf(list + [g])) == multiset(NodesOf(list)) + multiset{g.node}
  {
    assert NodesOf(list + [g]) == NodesOf(list) + [g.node];
  }

  lemma ListLess(list: seq<Garbage>)
    requires list != []
    ensures multiset(NodesOf(list[1..])) + multiset{list[0].node} == multiset(NodesOf(list))
  {
    assert NodesOf(list) == [list[0].node] + NodesOf(list[1..]);
  }

  /** What a step adds to what its thread holds, and what it takes away. */
  ghost function Gained(a: Action): multiset<Node> { if a.Unlink? then multiset{a.node} else multiset{} }

  ghost function Dropped(s: State, a: Action): multiset<Node>
    requires Shape(s) && Enabled(s, a)
  {
    if a.Step? && s.pcs[a.t].Freeing? && Next(s, a).garbage[a.t] != s.garbage[a.t] && s.garbage[a.t] != []
    then multiset{s.garbage[a.t][0].node} else multiset{}
  }

  lemma HeldByThread(s: State, a: Action)
    requires Shape(s) && Enabled(s, a) && !a.IncreaseEpoch?
    ensures Shape(Next(s, a)) && HeldBy(Next(s, a), a.t) + Dropped(s, a) == HeldBy(s, a.t) + Gained(a)
  {
    hide NodesOf, Next, Dropped, HeldBy;
    var t := a.t;
    if a.Step? && s.pcs[t].Tagged? {
      HeldByTagged(s, t);
    } else if a.Step? && s.pcs[t].Freeing? {
      HeldByFreeing(s, t);
    } else {
      HeldByOther(s, a);
    }
  }

  lemma HeldByOther(s: State, a: Action)
    requires Shape(s) && Enabled(s, a) && !a.IncreaseEpoch? && (a.Step? ==> !s.pcs[a.t].Tagged? && !s.pcs[a.t].Freeing?)
    ensures Shape(Next(s, a)) && HeldBy(Next(s, a), a.t) + Dropped(s, a) == HeldBy(s, a.t) + Gained(a)
  {
    hide NodesOf, InHand;
    SameList(s, a);
    HandAfter(s, a);
    hide Next, Dropped, Gained;
    AddSame(InHand(Next(s, a).pcs[a.t]), multiset{}, InHand(s.pcs[a.t]), Gained(a), multiset(NodesOf(s.garbage[a.t])));
  }

  lemma SameList(s: State, a: Action)
    requires Shape(s) && Enabled(s, a) && !a.IncreaseEpoch? && (a.Step? ==> !s.pcs[a.t].Tagged? && !s.pcs[a.t].Freeing?)
    ensures Shape(Next(s, a)) && Next(s, a).garbage[a.t] == s.garbage[a.t] && Dropped(s, a) == multiset{}
  {
  }

  lemma HandAfter(s: State, a: Action)
    requires Shape(s) && Enabled(s, a) && !a.IncreaseEpoch? && (a.Step? ==> !s.pcs[a.t].Tagged? && !s.pcs[a.t].Freeing?)
    ensures InHand(Next(s, a).pcs[a.t]) == InHand(s.pcs[a.t]) + Gained(a)
  {
    PcAfter(s, a);
    hide Next, Enabled;
    var pc, pc' := s.pcs[a.t], Next(s, a).pcs[a.t];
    if a.Unlink? {
      assert InHand(pc) == multiset{} && InHand(pc') == multiset{a.node} == Gained(a);
    } else {
      SameHand(pc, pc');
    }
  }

  lemma PcAfter(s: State, a: Action)
    requires Shape(s) && Enabled(s, a) && !a.IncreaseEpoch? && (a.Step? ==> !s.pcs[a.t].Tagged? && !s.pcs[a.t].Freeing?)
    ensures var pc, pc' := s.pcs[a.t], Next(s, a).pcs[a.t];
            && (a.Unlink? ==> pc.Working? && pc' == Unlinked(a.node))
            && (!a.Unlink? && pc.Unlinked? ==> pc'.Tagged? && pc'.garbage.node == pc.node)
            && (!a.Unlink? && !pc.Unlinked? ==> !pc.Tagged? && !pc'.Tagged? && !pc'.Unlinked?)
  {
  }

  lemma SameHand(pc: Pc, pc': Pc)
    requires pc.Unlinked? ==> pc'.Tagged? && pc'.garbage.node == pc.node
    requires !pc.Unlinked? ==> !pc.Tagged? && !pc'.Tagged? && !pc'.Unlinked?
    ensures InHand(pc') == InHand(pc)
  {
  }

  lemma HeldByTagged(s: State, t: Thread)
    requires Shape(s) && t < |s.pcs| && s.pcs[t].Tagged?
    ensures Shape(Next(s, Step(t))) && Dropped(s, Step(t)) == multiset{} && HeldBy(Next(s, Step(t)), t) == HeldBy(s, t)
  {
    hide NodesOf;
    ListMore(s.garbage[t], s.pcs[t].garbage);
    assert InHand(Next(s, Step(t)).pcs[t]) == multiset{};
  }

  lemma HeldByFreeing(s: State, t: Thread)
    requires Shape(s) && t < |s.pcs| && s.pcs[t].Freeing?
    ensures Shape(Next(s, Step(t))) && HeldBy(Next(s, Step(t)), t) + Dropped(s, Step(t)) == HeldBy(s, t)
  {
    hide NodesOf;
    var list, s' := s.garbage[t], Next(s, Step(t));
    assert InHand(s.pcs[t]) == multiset{} && InHand(s'.pcs[t]) == multiset{};
    if s'.garbage[t] == list {
      assert Dropped(s, Step(t)) == multiset{};
    } else {
      assert s'.garbage[t] == list[1..] && Dropped(s, Step(t)) == multiset{list[0].node};
      ListLess(list);
    }
  }

  lemma HeldByOthers(s: State, a: Action, u: Thread)
    requires Shape(s) && Enabled(s, a) && u < |s.pcs| && !By(a, u)
    ensures Shape(Next(s, a)) && |Next(s, a).pcs| == |s.pcs| && HeldBy(Next(s, a), u) == HeldBy(s, u)
  {
    hide Next, NodesOf, InHand;
    OthersLeave(s, a, u);
  }

  lemma HeldAfter(s: State, a: Action)
    requires Shape(s) && Enabled(s, a)
    ensures Shape(Next(s, a)) && |Next(s, a).pcs| == |s.pcs|
    ensures HeldByAll(Next(s, a), |s.pcs|) + Dropped(s, a) == HeldByAll(s, |s.pcs|) + Gained(a)
  {
    hide Next, HeldBy, Dropped;
    ShapeAfter(s, a);
    var s' := Next(s, a);
    forall u | 0 <= u < |s.pcs| && !By(a, u)
      ensures HeldBy(s', u) == HeldBy(s, u)
    {
      HeldByOthers(s, a, u);
    }
    if a.IncreaseEpoch? {
      SumSame(s, s', |s.pcs|);
      NothingDropped(s);
    } else {
      HeldByThread(s, a);
      SumChange(s, s', |s.pcs|, a.t, Gained(a), Dropped(s, a));
    }
  }

  lemma ShapeAfter(s: State, a: Action)
    requires Shape(s) && Enabled(s, a)
    ensures Shape(Next(s, a)) && |Next(s, a).pcs| == |s.pcs|
  {
  }

  lemma NothingDropped(s: State)
    requires Shape(s) && Enabled(s, IncreaseEpoch)
    ensures Dropped(s, IncreaseEpoch) == multiset{}
  {
  }

  lemma SetsAfter(s: State, a: Action)
    requires Shape(s) && Enabled(s, a)
    ensures Next(s, a).holders.Keys == s.holders.Keys + (if a.Unlink? then {a.node} else {})
    ensures a.Unlink? ==> a.node !in s.holders.Keys
    ensures Next(s, a).freed == s.freed + (set x | x in Dropped(s, a))
  {
    if a.Leave? { assert Without(s.holders, a.t).Keys == s.holders.Keys; }
  }

  lemma NotFreedYet(s: State, a: Action)
    requires Shape(s) && Enabled(s, a) && Accounted(s)
    ensures forall x :: x in Dropped(s, a) ==> x !in s.freed
  {
    hide Accounted;
    if Dropped(s, a) != multiset{} {
      var t, x := a.t, s.garbage[a.t][0].node;
      assert NodesOf(s.garbage[t])[0] == x;
      assert HeldBy(s, t)[x] >= 1;
      SumHas(s, |s.pcs|, t, x);
      OncePlaced(s, x);
    }
  }

  lemma OncePlaced(s: State, x: Node)
    requires Shape(s) && Accounted(s)
    ensures HeldByAll(s, |s.pcs|)[x] + (if x in s.freed then 1 else 0) == if x in s.holders then 1 else 0
  {
    assert multiset(s.holders.Keys)[x] == (HeldByAll(s, |s.pcs|) + multiset(s.freed))[x];
  }

  lemma {:induction false} SumHas(s: State, n: nat, t: Thread, x: Node)
    requires Shape(s) && t < n <= |s.pcs| && HeldBy(s, t)[x] >= 1
    ensures HeldByAll(s, n)[x] >= 1
  {
    hide HeldBy;
    var all, last := HeldByAll(s, n - 1), HeldBy(s, n - 1);
    assert HeldByAll(s, n) == all + last;
    if n - 1 != t { SumHas(s, n - 1, t, x); }
    AddCounts(all, last, x);
  }

  lemma AddCounts(a: multiset<Node>, b: multiset<Node>, x: Node)
    ensures (a + b)[x] == a[x] + b[x]
  {
  }

  lemma AccountedStep(s: State, a: Action)
    requires Shape(s) && Enabled(s, a) && Accounted(s)
    ensures Shape(Next(s, a)) && Accounted(Next(s, a))
  {
    hide Next, Dropped, HeldByAll, Gained;
    HeldAfter(s, a);
    KeysAfter(s, a);
    FreedAfter(s, a);
    Balance(HeldByAll(Next(s, a), |s.pcs|), HeldByAll(s, |s.pcs|), multiset(s.freed), Gained(a), Dropped(s, a),
            multiset(s.holders.Keys));
  }

  lemma KeysAfter(s: State, a: Action)
    requires Shape(s) && Enabled(s, a)
    ensures multiset(Next(s, a).holders.Keys) == multiset(s.holders.Keys) + Gained(a)
  {
    hide Next, Dropped;
    SetsAfter(s, a);
    if a.Unlink? { UnionOnce(s.holders.Keys, {a.node}); }
  }

  lemma FreedAfter(s: State, a: Action)
    requires Shape(s) && Enabled(s, a) && Accounted(s)
    ensures multiset(Next(s, a).freed) == multiset(s.freed) + Dropped(s, a)
  {
    hide Next, Dropped, Accounted;
    SetsAfter(s, a);
    NotFreedYet(s, a);
    DroppedOnce(s, a);
    UnionOnce(s.freed, set x | x in Dropped(s, a));
  }

  lemma UnionOnce(a: set<Node>, b: set<Node>)
    requires a !! b
    ensures multiset(a + b) == multiset(a) + multiset(b)
  {
  }

  lemma DroppedOnce(s: State, a: Action)
    requires Shape(s) && Enabled(s, a)
    ensures multiset(set x | x in Dropped(s, a)) == Dropped(s, a)
  {
    if Dropped(s, a) == multiset{} {
      assert (set x | x in Dropped(s, a)) == {};
    } else {
      assert (set x | x in Dropped(s, a)) == {s.garbage[a.t][0].node};
    }
  }

  lemma Balance(held': multiset<Node>, held: multiset<Node>, freed: multiset<Node>, gained: multiset<Node>,
                dropped: multiset<Node>, keys: multiset<Node>)
    requires held' + dropped == held + gained && held + freed == keys
    ensures held' + (freed + dropped) == keys + gained
  {
    assert held' + (freed + dropped) == (held' + dropped) + freed;
    assert (held + gained) + freed == (held + freed) + gained;
  }

  lemma {:induction false} NothingHeld(s: State, n: nat)
    requires Init(s) && n <= |s.pcs|
    ensures HeldByAll(s, n) == multiset{}
  {
    if n > 0 {
      NothingHeld(s, n - 1);
      assert NodesOf(s.garbage[n - 1]) == [];
    }
  }

  /** In every state of every run, every node that has been unlinked is in exactly one place: in the
      hand of the thread that unlinked it, once on one garbage list, or freed. So no node is forgotten
      and none is freed twice. */
  lemma {:induction false} RunAccounted(states: seq<State>, actions: seq<Action>, i: nat, x: Node)
    requires Run(states, actions) && i <= |actions|
    ensures Shape(states[i]) && Accounted(states[i])
    ensures HeldByAll(states[i], |states[i].pcs|)[x] + (if x in states[i].freed then 1 else 0) ==
            if x in states[i].holders then 1 else 0
  {
    hide Accounted, Enabled, Next, HeldByAll;
    if i == 0 {
      InitAccounted(states[0]);
    } else {
      RunAccounted(states, actions, i - 1, x);
      AccountedStep(states[i - 1], actions[i - 1]);
    }
    OncePlaced(states[i], x);
  }

  lemma InitAccounted(s: State)
    requires Init(s)
    ensures Accounted(s)
  {
    NothingHeld(s, |s.pcs|);
    assert s.holders.Keys == {};
  }
}
