/** No deadlock among the calls on the leaf list: in every state with calls under way, one of them
    can be finished by its own thread alone, in at most five steps. */
module LeafLinkProgress {
  import opened LeafLinks

  /** Thread `t` finishes its call within `k` steps of its own. */
  ghost predicate Finishes(s: State, t: Thread, k: nat)
    decreases k
  {
    PcOf(s, t).Idle? || (k > 0 && Enabled(s, Step(t)) && Finishes(Next(s, Step(t)), t, k - 1))
  }

  lemma FinishSplit(s: State, t: Thread)
    ensures PcOf(s, t).S4? ==> Finishes(s, t, 1)
    ensures PcOf(s, t).S3? ==> Finishes(s, t, 2)
    ensures PcOf(s, t).S2? ==> Finishes(s, t, 3)
    ensures PcOf(s, t).S1? && !NextOf(s, PcOf(s, t).n).marked ==> Finishes(s, t, 4)
    decreases match PcOf(s, t) case S1(_, _) => 3 case S2(_, _, _) => 2 case S3(_, _, _) => 1 case _ => 0
  {
    if PcOf(s, t).S4? {
      assert Finishes(Next(s, Step(t)), t, 0);
    } else if PcOf(s, t).S3? || PcOf(s, t).S2? || PcOf(s, t).S1? {
      FinishSplit(Next(s, Step(t)), t);
    }
  }

  lemma FinishRemoval(s: State, t: Thread)
    ensures PcOf(s, t).U5? ==> Finishes(s, t, 1)
    ensures PcOf(s, t).U4? ==> Finishes(s, t, 2)
    decreases PcOf(s, t).U4?
  {
    if PcOf(s, t).U5? {
      assert Finishes(Next(s, Step(t)), t, 0);
    } else if PcOf(s, t).U4? {
      FinishRemoval(Next(s, Step(t)), t);
    }
  }

  /** An unlink whose leaf is what its true predecessor points to, without a mark. */
  ghost predicate Unhindered(s: State, n: Node) {
    PrevOf(s, n) != n && NextOf(s, PrevOf(s, n)) == Link(n, false)
  }

  lemma FinishSwap(s: State, t: Thread)
    requires PcOf(s, t).U3? && NextOf(s, PcOf(s, t).prev) == Link(PcOf(s, t).n, false)
    ensures Finishes(s, t, 3)
  {
    FinishRemoval(Next(s, Step(t)), t);
  }

  lemma FinishRead(s: State, t: Thread)
    requires PcOf(s, t).U2? && Unhindered(s, PcOf(s, t).n)
    ensures Finishes(s, t, 4)
  {
    FinishSwap(Next(s, Step(t)), t);
  }

  /** With a stale predecessor one round is lost. */
  lemma FinishStale(s: State, t: Thread)
    requires PcOf(s, t).U3? && NextOf(s, PcOf(s, t).prev) != Link(PcOf(s, t).n, false) && Unhindered(s, PcOf(s, t).n)
    ensures Finishes(s, t, 5)
  {
    FinishRead(Next(s, Step(t)), t);
  }

  lemma FinishLock(s: State, t: Thread)
    requires PcOf(s, t).U1? && !NextOf(s, PcOf(s, t).n).marked && Unhindered(s, PcOf(s, t).n)
    ensures Finishes(s, t, 5)
  {
    FinishRead(Next(s, Step(t)), t);
  }

  /** A call that still has to get hold of an edge. */
  ghost predicate Waits(pc: Pc) { pc.S1? || pc.U1? || pc.U2? || pc.U3? }

  lemma OwnerWaits(s: State, o: Owners, a: Node)
    requires OwnersOk(s, o) && LocksOk(s) && forall u :: u in s.pcs ==> s.pcs[u].Idle? || Waits(s.pcs[u])
    ensures a in o ==> o[a] in s.pcs && (s.pcs[o[a]].U2? || s.pcs[o[a]].U3?) && s.pcs[o[a]].n == a
    ensures a in o ==> a in s.locks && s.locks[a] == o[a]
  {
    assert a in o ==> o[a] in s.pcs && Owns(s.pcs[o[a]], a) && Uses(s.pcs[o[a]], a);
  }

  /** The edge of a leaf that is about to be locked is free when every call waits. */
  lemma EdgeFree(s: State, x: Aux, o: Owners, t: Thread)
    requires Inv(s, x, o) && t in s.pcs && (s.pcs[t].S1? || s.pcs[t].U1?)
    requires forall u :: u in s.pcs ==> s.pcs[u].Idle? || Waits(s.pcs[u])
    ensures !NextOf(s, s.pcs[t].n).marked
  {
    hide Succ, Adjacent, Before, Ordered, NoSkip, PrevExact;
    var n := s.pcs[t].n;
    assert ThreadOk(s, x, s.pcs[t]) && In(x, n);
    assert n in s.next && LinkOk(x, o, n, NextOf(s, n)) && Uses(s.pcs[t], n);
    OwnerWaits(s, o, n);
    assert n in s.locks && s.locks[n] == t;
    assert NextOf(s, n).marked ==> n in o;
  }

  /** So is the edge to the leaf of the leftmost unlink. */
  lemma PredecessorFree(s: State, x: Aux, o: Owners, l: seq<Node>, t: Thread)
    requires Inv(s, x, o) && IsListing(x, l) && t in s.pcs && (s.pcs[t].U1? || s.pcs[t].U2? || s.pcs[t].U3?)
    requires forall u :: u in s.pcs ==> s.pcs[u].Idle? || Waits(s.pcs[u])
    requires forall u :: u in s.pcs && !s.pcs[u].Idle? ==> !Before(x, s.pcs[u].n, s.pcs[t].n)
    ensures Unhindered(s, s.pcs[t].n)
  {
    hide Adjacent, NoSkip;
    var n := s.pcs[t].n;
    assert ThreadOk(s, x, s.pcs[t]) && In(x, n) && n != HEAD;
    var p := Predecessor(x, l, n);
    assert PrevOf(s, n) == p && p != n;
    assert p in s.next && LinkOk(x, o, p, NextOf(s, p));
    OwnerWaits(s, o, p);
    SuccUnique(x, p, n, NextOf(s, p).ptr);
  }

  lemma Predecessor(x: Aux, l: seq<Node>, n: Node) returns (p: Node)
    requires Ordered(x) && IsListing(x, l) && In(x, n) && n != HEAD
    ensures Succ(x, p, n) && Before(x, p, n)
  {
    var i :| 0 <= i < |l| && l[i] == n;
    assert In(x, HEAD);
    var h :| 0 <= h < |l| && l[h] == HEAD;
    BeforeIndex(x, l, h, i);
    assert NULL !in l;
    ListingSucc(x, l, i - 1);
    p := l[i - 1];
  }

  /** The leftmost of some calls. */
  lemma {:induction false} Leftmost(s: State, x: Aux, ts: set<Thread>) returns (t: Thread)
    requires ts != {} && forall u :: u in ts ==> u in s.pcs && !s.pcs[u].Idle?
    ensures t in ts && forall u :: u in ts ==> !Before(x, s.pcs[u].n, s.pcs[t].n)
    decreases ts
  {
    var a :| a in ts;
    var rest := ts - {a};
    t := a;
    if rest != {} {
      var r := Leftmost(s, x, rest);
      if Before(x, s.pcs[r].n, s.pcs[a].n) { t := r; }
      assert forall u :: u in ts ==> u == a || u in rest;
    } else {
      assert ts == {a};
    }
  }

  /** In every state of every run in which a call is under way, some call can be finished by its own
      thread alone: neither adjacent unlinks nor an unlink beside a split can block each other. */
  lemma RunProgress(states: seq<State>, actions: seq<Action>) returns (t: Thread, k: nat)
    requires Run(states, actions) && !Quiet(states[|actions|])
    ensures var s := states[|actions|]; !PcOf(s, t).Idle? && k <= 5 && Finishes(s, t, k)
  {
    hide Init, Next, Enabled, Inv, IsListing, Finishes, Unhindered, Before;
    var s := states[|actions|];
    var x, o := RunInvariant(states, actions);
    if u :| u in s.pcs && !s.pcs[u].Idle? && !Waits(s.pcs[u]) {
      t := u;
      k := if s.pcs[t].S2? then 3 else if s.pcs[t].S3? || s.pcs[t].U4? then 2 else 1;
      FinishSplit(s, t);
      FinishRemoval(s, t);
    } else {
      var ts := set u | u in s.pcs && !s.pcs[u].Idle?;
      var w :| w in s.pcs && !s.pcs[w].Idle?;
      assert w in ts;
      t := Leftmost(s, x, ts);
      k := FinishLeftmost(s, x, o, Listed(states, actions), t);
    }
  }

  lemma FinishLeftmost(s: State, x: Aux, o: Owners, l: seq<Node>, t: Thread) returns (k: nat)
    requires Inv(s, x, o) && IsListing(x, l) && t in s.pcs && Waits(s.pcs[t])
    requires forall u :: u in s.pcs ==> s.pcs[u].Idle? || Waits(s.pcs[u])
    requires forall u :: u in s.pcs && !s.pcs[u].Idle? ==> !Before(x, s.pcs[u].n, s.pcs[t].n)
    ensures k <= 5 && Finishes(s, t, k)
  {
    hide Next, Enabled, Inv, IsListing, Finishes, Unhindered, Before;
    match s.pcs[t]
    case S1(_, _) => EdgeFree(s, x, o, t); FinishSplit(s, t); k := 4;
    case U1(_) => EdgeFree(s, x, o, t); PredecessorFree(s, x, o, l, t); FinishLock(s, t); k := 5;
    case U2(_, _) => PredecessorFree(s, x, o, l, t); FinishRead(s, t); k := 4;
    case U3(n, _, prev) =>
      PredecessorFree(s, x, o, l, t);
      if NextOf(s, prev) == Link(n, false) {
        FinishSwap(s, t);
        k := 3;
      } else {
        FinishStale(s, t);
        k := 5;
      }
  }
}
