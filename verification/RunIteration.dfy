/** Forward iteration while other threads insert, delete, consolidate, split and merge: every page
    comes from one state of a run of the leaf protocol. */
module ConcurrentIteration {
  import opened Options
  import opened Ordered
  import opened LeafChains
  import opened LeafProtocol
  import opened ForwardIteration

  /** A look at the entry of a leaf in one state of a run. */
  datatype Visit = Visit(time: nat, id: NodeId)

  ghost predicate Seen(states: seq<State>, v: Visit) {
    v.time < |states| && v.id in states[v.time].known && v.id in states[v.time].table
  }

  ghost function NodeAt(states: seq<State>, v: Visit): Leaf
    requires Seen(states, v)
  {
    states[v.time].table[v.id]
  }

  /** The walk goes right from a leaf whose range lies before the key. */
  ghost predicate GoesRight(c: Leaf, key: Key) {
    !c.Remove? && High(c).value != INVALID_NODE_ID && key >= High(c).key
  }

  /** The traversal for a key: it enters at a published leaf that starts at or before the key, as the
      inner search provides it, follows next ids, each read in a later state than the one before, and
      stops at a leaf that is not being removed and ends after the key. */
  ghost predicate Walk(states: seq<State>, key: Key, vs: seq<Visit>) {
    && |vs| > 0 && vs[0].time < |states|
    && Seen(states, vs[0]) && AboveLow(key, Low(NodeAt(states, vs[0])))
    && (forall i :: 0 <= i < |vs| ==> vs[i].time < |states|)
    && (forall i, j :: 0 <= i && j == i + 1 < |vs| ==>
          && vs[i].time <= vs[j].time
          && (Seen(states, vs[i]) ==>
                GoesRight(NodeAt(states, vs[i]), key) && vs[j].id == High(NodeAt(states, vs[i])).value))
    && (Seen(states, vs[|vs| - 1]) ==>
          var c := NodeAt(states, vs[|vs| - 1]); !c.Remove? && BelowHigh(key, High(c)))
  }

  lemma WalkStep(states: seq<State>, key: Key, vs: seq<Visit>, i: nat, j: nat)
    requires Walk(states, key, vs) && j == i + 1 < |vs| && Seen(states, vs[i])
    ensures GoesRight(NodeAt(states, vs[i]), key) && vs[j].id == High(NodeAt(states, vs[i])).value
    ensures vs[i].time <= vs[j].time < |states|
  {
    hide Low, High, GoesRight;
    assert vs[i].time <= vs[j].time;
  }

  /** Wherever the walk looks there is a leaf, and it starts at or before the key: splits, merges and
      removals between two looks do not lead it astray. */
  lemma {:induction false} WalkSees(states: seq<State>, actions: seq<Action>, key: Key, vs: seq<Visit>, i: nat)
    requires Run(states, actions) && Walk(states, key, vs) && i < |vs|
    ensures Seen(states, vs[i]) && AboveLow(key, Low(NodeAt(states, vs[i])))
  {
    hide Run, Low, High;
    if i > 0 {
      var v := vs[i - 1];
      WalkSees(states, actions, key, vs, i - 1);
      WalkStep(states, key, vs, i - 1, i);
      StatesOf(states, actions);
      NextIsThere(states, actions, v.time, vs[i].time, v.id);
    }
  }

  lemma StatesOf(states: seq<State>, actions: seq<Action>)
    requires Run(states, actions)
    ensures |states| == |actions| + 1
  {
  }

  lemma EntryAt(states: seq<State>, actions: seq<Action>, v: Visit)
    requires Run(states, actions) && Seen(states, v) && !NodeAt(states, v).Remove?
    ensures WellFormed(NodeAt(states, v))
  {
    hide Next, Enabled, Init, Tiles, Stored, Contents, WellFormed;
    var order := RunInvariant(states[..v.time + 1], actions[..v.time]);
    assert EntryOk(v.id, states[v.time].table[v.id]);
  }

  /** What the traversal ends with covers the key. */
  lemma WalkArrives(states: seq<State>, actions: seq<Action>, key: Key, vs: seq<Visit>)
    requires Run(states, actions) && Walk(states, key, vs)
    ensures var v := vs[|vs| - 1];
            Seen(states, v) && !NodeAt(states, v).Remove? && LoadOk(PageLoad(key, NodeAt(states, v)))
  {
    hide Run, Low, High, WellFormed;
    WalkSees(states, actions, key, vs, |vs| - 1);
    EntryAt(states, actions, vs[|vs| - 1]);
  }

  /** An iteration in a run: the traversals of its page loads, each after the first for the high key
      of the page before. */
  ghost predicate Iteration(states: seq<State>, starts: seq<Key>, walks: seq<seq<Visit>>) {
    && |starts| == |walks| > 0
    && (forall i :: 0 <= i < |walks| ==> Walk(states, starts[i], walks[i]))
    && (forall i, j :: 0 <= i && j == i + 1 < |walks| && Seen(states, Last(walks[i])) ==>
          && High(NodeAt(states, Last(walks[i]))).value != INVALID_NODE_ID
          && starts[j] == High(NodeAt(states, Last(walks[i]))).key)
  }

  ghost function Last(vs: seq<Visit>): Visit { if vs == [] then Visit(0, 0) else vs[|vs| - 1] }

  ghost function LoadsOf(states: seq<State>, starts: seq<Key>, walks: seq<seq<Visit>>): (ls: seq<PageLoad>)
    requires |starts| == |walks| && forall i :: 0 <= i < |walks| ==> Seen(states, Last(walks[i]))
    ensures |ls| == |walks| && forall i :: 0 <= i < |ls| ==>
      ls[i] == PageLoad(starts[i], NodeAt(states, Last(walks[i])))
  {
    seq(|walks|, i requires 0 <= i < |walks| => PageLoad(starts[i], NodeAt(states, Last(walks[i]))))
  }

  /** Every iteration in every run makes proper page loads. */
  lemma IterationLoads(states: seq<State>, actions: seq<Action>, starts: seq<Key>, walks: seq<seq<Visit>>)
    requires Run(states, actions) && Iteration(states, starts, walks)
    ensures forall i :: 0 <= i < |walks| ==> Seen(states, Last(walks[i])) && !NodeAt(states, Last(walks[i])).Remove?
    ensures Loads(LoadsOf(states, starts, walks))
  {
    hide Run, Walk, LoadOk, High;
    forall i | 0 <= i < |walks|
      ensures Seen(states, Last(walks[i])) && !NodeAt(states, Last(walks[i])).Remove?
      ensures LoadOk(PageLoad(starts[i], NodeAt(states, Last(walks[i]))))
    {
      WalkSome(states, starts[i], walks[i]);
      WalkArrives(states, actions, starts[i], walks[i]);
    }
    var ls := LoadsOf(states, starts, walks);
    forall i | 0 <= i < |ls| - 1
      ensures High(ls[i].chain).value != INVALID_NODE_ID && ls[i + 1].start == High(ls[i].chain).key
    {
      var j := i + 1;
      assert starts[j] == High(NodeAt(states, Last(walks[i]))).key;
    }
  }

  lemma WalkSome(states: seq<State>, key: Key, vs: seq<Visit>)
    requires Walk(states, key, vs)
    ensures |vs| > 0
  {
  }

  /** Whatever all threads do meanwhile: the keys an iteration delivers increase strictly, and for
      every key it has gone past it reports what the operations committed at one moment, that of the
      page load that covered the key, had left for it. */
  lemma IterationLinearizes(states: seq<State>, actions: seq<Action>, starts: seq<Key>, walks: seq<seq<Visit>>,
                            pages: seq<seq<Item>>, k: Key) returns (i: nat)
    requires Run(states, actions) && Iteration(states, starts, walks)
    requires forall j :: 0 <= j < |walks| ==> Seen(states, Last(walks[j]))
    requires PagesOf(LoadsOf(states, starts, walks), pages)
    requires starts[0] <= k && BelowHigh(k, High(NodeAt(states, Last(walks[|walks| - 1]))))
    ensures Sorted(Concat(pages)) && i < |walks|
    ensures var t := Last(walks[i]).time;
            t < |states| && Lookup(MapOf(Concat(pages)), k) == Lookup(Committed(states[..t + 1], actions[..t]), k)
  {
    hide Run, Walk, Committed, MapOf, Contents, High, Low;
    var ls := LoadsOf(states, starts, walks);
    StatesOf(states, actions);
    IterationLoads(states, actions, starts, walks);
    KeysIncrease(ls, pages);
    i := NothingSkipped(ls, pages, k);
    var v := Last(walks[i]);
    CommittedAt(states, actions, v.time, v.id, k);
  }
}
