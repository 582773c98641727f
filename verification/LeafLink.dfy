/** The doubly linked list of B+tree leaves: any number of threads insert a new right
    neighbour (`link_split`) or take a leaf out (`unlink`), synchronised only by the leaves'
    own locks and a mark bit in the next pointers. */
module LeafLinks {
  type Node = nat
  type Thread = nat

  const NULL: Node := 0
  const HEAD: Node := 1

  /** A next pointer with its mark bit. */
  datatype Link = Link(ptr: Node, marked: bool)

  /** Where a thread is in `link_split(n, nr)` (S) or `unlink(n)` (U), named by its next access. */
  datatype Pc =
    | Idle
    | S1(n: Node, nr: Node)                            // lock_next(n)
    | S2(n: Node, nr: Node, next: Node)                // write nr.next
    | S3(n: Node, nr: Node, next: Node)                // write next.prev
    | S4(n: Node, nr: Node, next: Node)                // write n.next
    | U1(n: Node)                                      // lock_next(n)
    | U2(n: Node, next: Node)                          // read n.prev
    | U3(n: Node, next: Node, prev: Node)              // compare-and-swap prev.next
    | U4(n: Node, next: Node, prev: Node)              // write next.prev
    | U5(n: Node, next: Node, prev: Node)              // write prev.next

  /** `linked` holds the leaves callers may lock and work on: linked in, and no unlink begun. */
  datatype State = State(next: map<Node, Link>, prev: map<Node, Node>, linked: set<Node>,
                         locks: map<Node, Thread>, pcs: map<Thread, Pc>)

  datatype Action = StartSplit(t: Thread, n: Node, nr: Node) | StartUnlink(t: Thread, n: Node) | Step(t: Thread)

  function PcOf(s: State, t: Thread): Pc { if t in s.pcs then s.pcs[t] else Idle }

  function NextOf(s: State, a: Node): Link { if a in s.next then s.next[a] else Link(NULL, false) }

  function PrevOf(s: State, a: Node): Node { if a in s.prev then s.prev[a] else NULL }

  ghost predicate Enabled(s: State, a: Action) {
    var pc := PcOf(s, a.t);
    match a
    case StartSplit(_, n, nr) => pc.Idle? && n in s.linked && n !in s.locks && nr != NULL && nr !in s.prev
    case StartUnlink(_, n) => pc.Idle? && n in s.linked && n !in s.locks && n != HEAD
    case Step(_) => !pc.Idle? && (pc.S1? || pc.U1? ==> !NextOf(s, pc.n).marked)
  }

  function Locked(next: Node): Link { Link(next, next != NULL) }

  function SetPrev(s: State, a: Node, p: Node): State { if a == NULL then s else s.(prev := s.prev[a := p]) }

  function At(s: State, t: Thread, pc: Pc): State { s.(pcs := s.pcs[t := pc]) }

  function Next(s: State, a: Action): State {
    match a
    case StartSplit(t, n, nr) => At(SetPrev(s, nr, n).(locks := s.locks[n := t][nr := t]), t, S1(n, nr))
    case StartUnlink(t, n) => At(s.(linked := s.linked - {n}, locks := s.locks[n := t]), t, U1(n))
    case Step(t) =>
      match PcOf(s, t)
      case Idle => s
      case S1(n, nr) => At(s.(next := s.next[n := Locked(NextOf(s, n).ptr)]), t, S2(n, nr, NextOf(s, n).ptr))
      case S2(n, nr, next) => At(s.(next := s.next[nr := Link(next, false)]), t, S3(n, nr, next))
      case S3(n, nr, next) => At(SetPrev(s, next, nr), t, S4(n, nr, next))
      case S4(n, nr, next) =>
        At(s.(next := s.next[n := Link(nr, false)], linked := s.linked + {nr}, locks := s.locks - {n, nr}), t, Idle)
      case U1(n) => At(s.(next := s.next[n := Locked(NextOf(s, n).ptr)]), t, U2(n, NextOf(s, n).ptr))
      case U2(n, next) => At(s, t, U3(n, next, PrevOf(s, n)))
      case U3(n, next, prev) =>
        if NextOf(s, prev) == Link(n, false) then
          At(s.(next := s.next[prev := Link(n, true)]), t, U4(n, next, prev))
        else At(s, t, U2(n, next))
      case U4(n, next, prev) => At(SetPrev(s, next, prev), t, U5(n, next, prev))
      case U5(n, next, prev) => At(s.(next := s.next[prev := Link(next, false)], locks := s.locks - {n}), t, Idle)
  }

  ghost predicate Init(s: State) {
    s == State(map[HEAD := Link(NULL, false)], map[HEAD := NULL], {HEAD}, map[], map[])
  }

  /* What the proof keeps beside the state: the life of each leaf, its place in one order of all
     leaves there ever were, and the thread that owns a next pointer. */

  datatype Phase = Unborn | Private | Joining | Linked | Gone

  datatype Aux = Aux(pos: map<Node, real>, phase: map<Node, Phase>)

  type Owners = map<Node, Thread>

  function Pos(x: Aux, a: Node): real { if a in x.pos then x.pos[a] else 0.0 }

  function PhaseOf(x: Aux, a: Node): Phase { if a in x.phase then x.phase[a] else Unborn }

  ghost predicate Born(x: Aux, a: Node) { PhaseOf(x, a) != Unborn }

  ghost predicate Shared(x: Aux, a: Node) { PhaseOf(x, a) == Joining || PhaseOf(x, a) == Linked || PhaseOf(x, a) ==
      Gone }

  /** The leaf is in the logical list. */
  ghost predicate In(x: Aux, a: Node) { PhaseOf(x, a) == Joining || PhaseOf(x, a) == Linked }

  ghost predicate Before(x: Aux, a: Node, b: Node) { Pos(x, a) < Pos(x, b) }

  /** `b` follows `a` in the logical list; NULL follows the last leaf. */
  ghost predicate Succ(x: Aux, a: Node, b: Node) {
    && In(x, a) && (b == NULL || (In(x, b) && Before(x, a, b)))
    && forall c :: In(x, c) && Before(x, a, c) ==> b != NULL && !Before(x, c, b)
  }

  /** Nothing at all lies between `a` and `b`. */
  ghost predicate Adjacent(x: Aux, a: Node, b: Node) {
    Before(x, a, b) && forall c :: Born(x, c) && Before(x, a, c) ==> !Before(x, c, b)
  }

  /** One order of all leaves, starting with the head. */
  ghost predicate Ordered(x: Aux) {
    && x.pos.Keys == x.phase.Keys && PhaseOf(x, NULL) == Unborn && PhaseOf(x, HEAD) == Linked
    && (forall a :: a in x.phase ==> Born(x, a))
    && (forall a, b :: Born(x, a) && Born(x, b) && a != b ==> Before(x, a, b) || Before(x, b, a))
    && (forall a :: Born(x, a) && a != HEAD ==> Before(x, HEAD, a))
  }

  ghost predicate Shape(s: State, x: Aux) {
    && Ordered(x) && x.phase.Keys == s.prev.Keys
    && (forall a :: a in s.next ==> Born(x, a))
    && (forall a :: Shared(x, a) ==> a in s.next)
    && (forall a :: a in s.linked ==> PhaseOf(x, a) == Linked)
  }

  /** A next pointer, marked or not, leads forward and skips no linked leaf. */
  ghost predicate EdgeOk(x: Aux, a: Node, b: Node) {
    && (b != NULL ==> (PhaseOf(x, b) == Linked || PhaseOf(x, b) == Gone) && Before(x, a, b))
    && forall v :: PhaseOf(x, v) == Linked && Before(x, a, v) ==> b != NULL && !Before(x, v, b)
  }

  ghost predicate NoSkip(s: State, x: Aux) { forall a :: a in s.next ==> EdgeOk(x, a, NextOf(s, a).ptr) }

  /** Previous pointers are exact at all times; those of other leaves still lead to some leaf. */
  ghost predicate PrevExact(s: State, x: Aux) {
    && (forall a, b :: Succ(x, a, b) && b != NULL ==> PrevOf(s, b) == a)
    && (forall a :: Born(x, a) && a != HEAD ==> Shared(x, PrevOf(s, a)))
  }

  /** Unmarked next pointers are exact, and a marked one has an owner. */
  ghost predicate LinkOk(x: Aux, o: Owners, a: Node, l: Link) {
    && (In(x, a) && !l.marked && (l.ptr != NULL || a !in o) ==> Succ(x, a, l.ptr))
    && (In(x, a) && l.marked ==> a in o)
    && (PhaseOf(x, a) == Gone ==> l.marked || l.ptr == NULL)
  }

  ghost predicate NextExact(s: State, x: Aux, o: Owners) { forall a :: a in s.next ==> LinkOk(x, o, a, NextOf(s, a)) }

  /** The leaves a thread holds locked. */
  ghost predicate Uses(pc: Pc, a: Node) {
    !pc.Idle? && (pc.n == a || ((pc.S1? || pc.S2? || pc.S3? || pc.S4?) && pc.nr == a))
  }

  /** The thread owns the next pointer of `a`. */
  ghost predicate Owns(pc: Pc, a: Node) {
    !pc.Idle? && !pc.S1? && !pc.U1? && (pc.n == a || ((pc.U4? || pc.U5?) && pc.prev == a))
  }

  ghost predicate Holds(s: State, a: Node, next: Node) { NextOf(s, a) == Locked(next) }

  ghost predicate Splitting(s: State, x: Aux, n: Node, nr: Node) {
    PhaseOf(x, n) == Linked && PhaseOf(x, nr) == Private && Adjacent(x, n, nr) && PrevOf(s, nr) == n
  }

  ghost predicate ThreadOk(s: State, x: Aux, pc: Pc) {
    match pc
    case Idle => true
    case S1(n, nr) => Splitting(s, x, n, nr) && nr !in s.next
    case S2(n, nr, next) => Splitting(s, x, n, nr) && nr !in s.next && Holds(s, n, next) && Succ(x, n, next)
    case S3(n, nr, next) =>
      && Splitting(s, x, n, nr) && Holds(s, n, next) && Succ(x, n, next)
      && nr in s.next && NextOf(s, nr) == Link(next, false)
    case S4(n, nr, next) =>
      && PhaseOf(x, n) == Linked && PhaseOf(x, nr) == Joining && Adjacent(x, n, nr)
      && Holds(s, n, next) && Succ(x, n, nr)
    case U1(n) => PhaseOf(x, n) == Linked && n != HEAD && n !in s.linked
    case U2(n, next) => PhaseOf(x, n) == Linked && n != HEAD && n !in s.linked && Holds(s, n, next) && Succ(x, n, next)
    case U3(n, next, prev) =>
      && PhaseOf(x, n) == Linked && n != HEAD && n !in s.linked && Holds(s, n, next) && Succ(x, n, next)
      && Shared(x, prev)
    case U4(n, next, prev) =>
      && PhaseOf(x, n) == Linked && n != HEAD && n !in s.linked && Holds(s, n, next) && Succ(x, n, next)
      && NextOf(s, prev) == Link(n, true) && Succ(x, prev, n)
    case U5(n, next, prev) =>
      && PhaseOf(x, n) == Gone && Holds(s, n, next)
      && NextOf(s, prev) == Link(n, true) && Succ(x, prev, next)
  }

  ghost predicate Threads(s: State, x: Aux) { forall t :: t in s.pcs ==> ThreadOk(s, x, s.pcs[t]) }

  /** No leaf is worked on by two threads. */
  ghost predicate LocksOk(s: State) {
    && (forall t, a :: t in s.pcs && Uses(s.pcs[t], a) ==> a in s.locks && s.locks[a] == t)
    && (forall a :: a in s.locks ==> s.locks[a] in s.pcs && Uses(s.pcs[s.locks[a]], a))
  }

  /** No next pointer has two owners. */
  ghost predicate OwnersOk(s: State, o: Owners) {
    && (forall t, a :: t in s.pcs && Owns(s.pcs[t], a) ==> a in o && o[a] == t)
    && (forall a :: a in o ==> o[a] in s.pcs && Owns(s.pcs[o[a]], a))
  }

  ghost predicate JoiningOk(s: State, x: Aux) {
    forall a :: PhaseOf(x, a) == Joining ==> a in s.locks && PcOf(s, s.locks[a]).S4?
  }

  ghost predicate Exclusive(s: State, x: Aux, o: Owners) { LocksOk(s) && OwnersOk(s, o) && JoiningOk(s, x) }

  ghost predicate Inv(s: State, x: Aux, o: Owners) {
    Shape(s, x) && NoSkip(s, x) && PrevExact(s, x) && NextExact(s, x, o) && Threads(s, x) && Exclusive(s, x, o)
  }

  lemma InitInvariant(s: State)
    requires Init(s)
    ensures Inv(s, Aux(map[HEAD := 0.0], map[HEAD := Linked]), map[])
  {
  }

  /* How the logical list changes. */

  /** The order and the listed leaves are the same. */
  ghost predicate SameList(x: Aux, x': Aux) {
    forall a :: (In(x, a) <==> In(x', a)) && (In(x, a) ==> Pos(x', a) == Pos(x, a))
  }

  lemma SuccSame(x: Aux, x': Aux, a: Node, b: Node)
    requires SameList(x, x')
    ensures Succ(x, a, b) <==> Succ(x', a, b)
  {
    if Succ(x, a, b) { assert Succ(x', a, b); }
    if Succ(x', a, b) { assert Succ(x, a, b); }
  }

  lemma SuccUnique(x: Aux, a: Node, b: Node, c: Node)
    requires Ordered(x) && Succ(x, a, b) && Succ(x, a, c)
    ensures b == c
  {
  }

  function WithPhase(x: Aux, a: Node, ph: Phase): Aux { x.(phase := x.phase[a := ph]) }

  lemma PhaseFrame(x: Aux, n: Node, ph: Phase)
    ensures var x' := WithPhase(x, n, ph);
            && (forall a, b :: Before(x', a, b) <==> Before(x, a, b))
            && (forall a :: a != n ==> (In(x', a) <==> In(x, a)) && (Born(x', a) <==> Born(x, a)))
            && (In(x', n) <==> ph == Joining || ph == Linked)
  {
    var x' := WithPhase(x, n, ph);
    assert forall a :: Pos(x', a) == Pos(x, a);
    assert forall a :: a != n ==> PhaseOf(x', a) == PhaseOf(x, a);
    assert forall a, b :: Before(x', a, b) <==> Before(x, a, b);
  }

  /** Listing `nr` right after `n`. */
  lemma SuccInsert(x: Aux, n: Node, nr: Node, next: Node)
    requires Ordered(x) && Succ(x, n, next) && PhaseOf(x, nr) == Private && Adjacent(x, n, nr)
    ensures var x' := WithPhase(x, nr, Joining);
            Ordered(x') && Succ(x', n, nr) && Succ(x', nr, next)
  {
    var x' := WithPhase(x, nr, Joining);
    PhaseFrame(x, nr, Joining);
  }

  lemma SuccInsertOther(x: Aux, n: Node, nr: Node, a: Node, b: Node)
    requires Ordered(x) && In(x, n) && PhaseOf(x, nr) == Private && Adjacent(x, n, nr) && a != n
    ensures Succ(x, a, b) ==> Succ(WithPhase(x, nr, Joining), a, b)
  {
    var x' := WithPhase(x, nr, Joining);
    PhaseFrame(x, nr, Joining);
  }

  lemma SuccInsertOnly(x: Aux, n: Node, nr: Node, next: Node, a: Node, b: Node)
    requires Ordered(x) && Succ(x, n, next) && PhaseOf(x, nr) == Private && Adjacent(x, n, nr)
    requires Succ(WithPhase(x, nr, Joining), a, b)
    ensures (a == n && b == nr) || (a == nr && b == next) || (a != n && a != nr && b != nr && Succ(x, a, b))
  {
    var x' := WithPhase(x, nr, Joining);
    SuccInsert(x, n, nr, next);
    if a == n {
      SuccUnique(x', n, nr, b);
    } else if a == nr {
      SuccUnique(x', nr, next, b);
    } else {
      PhaseFrame(x, nr, Joining);
      assert Before(x, a, nr) ==> Before(x', a, n) && Before(x', n, nr);
    }
  }

  /** Taking `n` out between `prev` and `next`. */
  lemma SuccRemove(x: Aux, prev: Node, n: Node, next: Node)
    requires Ordered(x) && Succ(x, prev, n) && Succ(x, n, next) && n != NULL && n != HEAD
    ensures Ordered(WithPhase(x, n, Gone)) && Succ(WithPhase(x, n, Gone), prev, next)
  {
    var x' := WithPhase(x, n, Gone);
    PhaseFrame(x, n, Gone);
  }

  lemma SuccRemoveOther(x: Aux, n: Node, a: Node, b: Node)
    requires a != n && b != n
    ensures Succ(x, a, b) ==> Succ(WithPhase(x, n, Gone), a, b)
  {
    var x' := WithPhase(x, n, Gone);
    PhaseFrame(x, n, Gone);
  }

  lemma SuccRemoveOnly(x: Aux, prev: Node, n: Node, next: Node, a: Node, b: Node)
    requires Ordered(x) && Succ(x, prev, n) && Succ(x, n, next) && n != NULL && n != HEAD
    requires Succ(WithPhase(x, n, Gone), a, b)
    ensures (a == prev && b == next) || (a != prev && a != n && b != n && Succ(x, a, b))
  {
    var x' := WithPhase(x, n, Gone);
    SuccRemove(x, prev, n, next);
    if a == prev {
      SuccUnique(x', prev, next, b);
    } else {
      PhaseFrame(x, n, Gone);
      assert Before(x, a, n) ==> Before(x', a, prev) && Before(x', prev, n);
    }
  }

  /* Steps of one thread leave the others alone. */

  ghost predicate Untouched(s: State, x: Aux, s': State, x': Aux, pc: Pc) {
    && (forall a :: Owns(pc, a) ==> NextOf(s', a) == NextOf(s, a))
    && (forall a :: Uses(pc, a) ==> PhaseOf(x', a) == PhaseOf(x, a) && (a in s'.linked ==> a in s.linked))
    && (forall a :: Uses(pc, a) && PhaseOf(x, a) == Private ==>
          PrevOf(s', a) == PrevOf(s, a) && (a in s'.next <==> a in s.next) && NextOf(s', a) == NextOf(s, a))
    && (forall a, b :: Owns(pc, a) && Succ(x, a, b) ==> Succ(x', a, b))
    && (forall a, b :: Uses(pc, a) && Uses(pc, b) && Adjacent(x, a, b) ==> Adjacent(x', a, b))
    && (forall a :: Shared(x, a) ==> Shared(x', a))
  }

  lemma ThreadKept(s: State, x: Aux, s': State, x': Aux, pc: Pc)
    requires ThreadOk(s, x, pc) && Untouched(s, x, s', x', pc)
    ensures ThreadOk(s', x', pc)
  {
    hide Succ, Adjacent, Shared, PhaseOf, NextOf, PrevOf;
  }

  lemma ThreadsKept(s: State, x: Aux, s': State, x': Aux, t: Thread, pc: Pc)
    requires Threads(s, x) && s'.pcs == s.pcs[t := pc] && ThreadOk(s', x', pc)
    requires forall u :: u in s.pcs && u != t ==> Untouched(s, x, s', x', s.pcs[u])
    ensures Threads(s', x')
  {
    hide ThreadOk, Untouched;
    forall u | u in s'.pcs
      ensures ThreadOk(s', x', s'.pcs[u])
    {
      if u != t { ThreadKept(s, x, s', x', s.pcs[u]); }
    }
  }

  /** Thread `t` moves to `pc`, and with it what it has locked (`m` to `m'`). */
  ghost predicate LocksMove(m: map<Node, Thread>, m': map<Node, Thread>, t: Thread, pc: Pc) {
    forall a ::
      && (Uses(pc, a) ==> a in m' && m'[a] == t && (a in m ==> m[a] == t))
      && (!Uses(pc, a) ==> (a in m' <==> a in m && m[a] != t) && (a in m' ==> m'[a] == m[a]))
  }

  ghost predicate OwnersMove(o: Owners, o': Owners, t: Thread, pc: Pc) {
    forall a ::
      && (Owns(pc, a) ==> a in o' && o'[a] == t && (a in o ==> o[a] == t))
      && (!Owns(pc, a) ==> (a in o' <==> a in o && o[a] != t) && (a in o' ==> o'[a] == o[a]))
  }

  lemma LocksKept(s: State, s': State, t: Thread, pc: Pc)
    requires LocksOk(s) && s'.pcs == s.pcs[t := pc] && LocksMove(s.locks, s'.locks, t, pc)
    ensures LocksOk(s')
  {
    hide Uses;
    forall u, a | u in s'.pcs && Uses(s'.pcs[u], a)
      ensures a in s'.locks && s'.locks[a] == u
    {
      if u != t { assert Uses(s.pcs[u], a); }
    }
  }

  lemma OwnersKept(s: State, o: Owners, s': State, o': Owners, t: Thread, pc: Pc)
    requires OwnersOk(s, o) && s'.pcs == s.pcs[t := pc] && OwnersMove(o, o', t, pc)
    ensures OwnersOk(s', o')
  {
    hide Owns;
    forall u, a | u in s'.pcs && Owns(s'.pcs[u], a)
      ensures a in o' && o'[a] == u
    {
      if u != t { assert Owns(s.pcs[u], a); }
    }
  }

  lemma JoiningKept(s: State, x: Aux, s': State, x': Aux, t: Thread, pc: Pc)
    requires LocksOk(s) && JoiningOk(s, x) && s'.pcs == s.pcs[t := pc] && LocksMove(s.locks, s'.locks, t, pc)
    requires forall a :: PhaseOf(x', a) == Joining ==>
      (PhaseOf(x, a) == Joining && (a in s.locks ==> s.locks[a] != t)) || (pc.S4? && Uses(pc, a))
    ensures JoiningOk(s', x')
  {
    hide Uses, PhaseOf;
    forall a | PhaseOf(x', a) == Joining
      ensures a in s'.locks && PcOf(s', s'.locks[a]).S4?
    {
    }
  }

  /** An unmarked next pointer to a leaf has no owner. */
  lemma Unowned(s: State, x: Aux, o: Owners, a: Node)
    requires Threads(s, x) && OwnersOk(s, o) && LocksOk(s) && !NextOf(s, a).marked
    requires NextOf(s, a).ptr != NULL || (a in s.locks && !Owns(PcOf(s, s.locks[a]), a))
    ensures a !in o
  {
    hide Succ, Adjacent, Before, Shared, PhaseOf;
  }

  lemma ExclusiveKept(s: State, x: Aux, o: Owners, s': State, x': Aux, o': Owners, t: Thread, pc: Pc)
    requires Exclusive(s, x, o) && s'.pcs == s.pcs[t := pc]
    requires LocksMove(s.locks, s'.locks, t, pc) && OwnersMove(o, o', t, pc)
    requires forall a :: PhaseOf(x', a) == Joining ==>
      (PhaseOf(x, a) == Joining && (a in s.locks ==> s.locks[a] != t)) || (pc.S4? && Uses(pc, a))
    ensures Exclusive(s', x', o')
  {
    hide Uses, Owns, PhaseOf, LocksOk, OwnersOk, JoiningOk, LocksMove, OwnersMove;
    LocksKept(s, s', t, pc);
    OwnersKept(s, o, s', o', t, pc);
    JoiningKept(s, x, s', x', t, pc);
  }

  /* Locking a next pointer. */

  lemma LockExclusive(s: State, x: Aux, o: Owners, t: Thread)
    requires Exclusive(s, x, o) && (PcOf(s, t).S1? || PcOf(s, t).U1?) && PcOf(s, t).n !in o
    ensures Exclusive(Next(s, Step(t)), x, o[PcOf(s, t).n := t])
  {
    var pc, s', o' := PcOf(s, t), Next(s, Step(t)), o[PcOf(s, t).n := t];
    assert LocksMove(s.locks, s'.locks, t, PcOf(s', t));
    assert OwnersMove(o, o', t, PcOf(s', t));
    hide Uses, Owns;
    ExclusiveKept(s, x, o, s', x, o', t, PcOf(s', t));
  }

  /** Writing the next pointer of `a` concerns only its owner. */
  lemma UntouchedNext(s: State, x: Aux, s': State, pc: Pc, a: Node, l: Link)
    requires s'.next == s.next[a := l] && s'.prev == s.prev
    requires !Owns(pc, a) && !(Uses(pc, a) && PhaseOf(x, a) == Private)
    requires forall b :: Uses(pc, b) && b in s'.linked ==> b in s.linked
    ensures Untouched(s, x, s', x, pc)
  {
    hide Succ, Adjacent, Shared, PhaseOf, Uses, Owns;
  }

  lemma OthersDoNotOwn(s: State, x: Aux, o: Owners, t: Thread, u: Thread, a: Node)
    requires Exclusive(s, x, o) && u in s.pcs && u != t && (a in o ==> o[a] == t)
    ensures !Owns(s.pcs[u], a)
  {
    hide Owns, Uses;
  }

  lemma OthersDoNotUse(s: State, x: Aux, o: Owners, t: Thread, u: Thread, a: Node)
    requires Exclusive(s, x, o) && u in s.pcs && u != t && (a in s.locks ==> s.locks[a] == t)
    ensures !Uses(s.pcs[u], a)
  {
    hide Owns, Uses;
  }

  lemma LockThreads(s: State, x: Aux, o: Owners, t: Thread)
    requires Threads(s, x) && Exclusive(s, x, o) && (PcOf(s, t).S1? || PcOf(s, t).U1?) && PcOf(s, t).n !in o
    requires PcOf(s, t).n in s.next && Succ(x, PcOf(s, t).n, NextOf(s, PcOf(s, t).n).ptr)
    ensures Threads(Next(s, Step(t)), x)
  {
    var pc, s' := PcOf(s, t), Next(s, Step(t));
    assert ThreadOk(s, x, pc);
    assert ThreadOk(s', x, PcOf(s', t));
    hide Succ, Adjacent, Shared, PhaseOf, Threads, Untouched, ThreadOk, Owns;
    forall u | u in s.pcs && u != t
      ensures Untouched(s, x, s', x, s.pcs[u])
    {
      OthersDoNotOwn(s, x, o, t, u, pc.n);
      OthersDoNotUse(s, x, o, t, u, pc.n);
      UntouchedNext(s, x, s', s.pcs[u], pc.n, NextOf(s', pc.n));
    }
    ThreadsKept(s, x, s', x, t, PcOf(s', t));
  }

  lemma LockReady(s: State, x: Aux, o: Owners, t: Thread)
    requires Inv(s, x, o) && (PcOf(s, t).S1? || PcOf(s, t).U1?) && Enabled(s, Step(t))
    ensures var n := PcOf(s, t).n;
            n in s.next && PhaseOf(x, n) == Linked && n !in o && Succ(x, n, NextOf(s, n).ptr)
  {
    hide Adjacent, EdgeOk, Before, Ordered, Succ;
    var n := PcOf(s, t).n;
    assert ThreadOk(s, x, PcOf(s, t)) && LinkOk(x, o, n, NextOf(s, n));
    assert Uses(PcOf(s, t), n) && !Owns(PcOf(s, t), n);
    Unowned(s, x, o, n);
  }

  lemma LockStep(s: State, x: Aux, o: Owners, t: Thread)
    requires Inv(s, x, o) && (PcOf(s, t).S1? || PcOf(s, t).U1?) && Enabled(s, Step(t))
    ensures Inv(Next(s, Step(t)), x, o[PcOf(s, t).n := t])
  {
    hide Succ, Adjacent, EdgeOk, Before, Ordered, Exclusive, Threads, PrevExact;
    LockReady(s, x, o, t);
    LockThreads(s, x, o, t);
    LockExclusive(s, x, o, t);
    var s', o' := Next(s, Step(t)), o[PcOf(s, t).n := t];
    assert PrevExact(s', x) by { assert s'.prev == s.prev; PrevExactFrame(s, s', x); }
  }

  lemma PrevExactFrame(s: State, s': State, x: Aux)
    requires PrevExact(s, x) && s'.prev == s.prev
    ensures PrevExact(s', x)
  {
    hide Succ;
  }

  /* Writing the next pointer of a leaf that is still private. */

  lemma PrivateUnowned(s: State, x: Aux, o: Owners, t: Thread, nr: Node)
    requires Threads(s, x) && Exclusive(s, x, o) && PhaseOf(x, nr) == Private && Uses(PcOf(s, t), nr)
    requires PcOf(s, t).n != nr
    ensures nr !in o
  {
    hide Adjacent, Before, Shared;
  }

  /** The next pointer of `n` also serves the leaf right after it. */
  lemma EdgeRight(x: Aux, n: Node, nr: Node, next: Node)
    requires Ordered(x) && EdgeOk(x, n, next) && Adjacent(x, n, nr) && PhaseOf(x, nr) == Private
    ensures EdgeOk(x, nr, next)
  {
  }

  /** A step that keeps what the thread has locked and owns. */
  lemma ExclusiveSame(s: State, x: Aux, o: Owners, s': State, x': Aux, t: Thread, pc: Pc)
    requires Exclusive(s, x, o) && s'.pcs == s.pcs[t := pc] && s'.locks == s.locks && t in s.pcs && !s.pcs[t].S4?
    requires forall a :: (Uses(pc, a) <==> Uses(s.pcs[t], a)) && (Owns(pc, a) <==> Owns(s.pcs[t], a))
    requires forall a :: PhaseOf(x', a) == Joining ==> PhaseOf(x, a) == Joining || (pc.S4? && Uses(pc, a))
    ensures Exclusive(s', x', o)
  {
    hide Uses, Owns, PhaseOf;
    assert LocksMove(s.locks, s'.locks, t, pc);
    assert OwnersMove(o, o, t, pc);
    ExclusiveKept(s, x, o, s', x', o, t, pc);
  }

  lemma PrivateThreads(s: State, x: Aux, o: Owners, t: Thread)
    requires Threads(s, x) && Exclusive(s, x, o) && PcOf(s, t).S2? && PcOf(s, t).n != PcOf(s, t).nr
    ensures Threads(Next(s, Step(t)), x)
  {
    var pc, s' := PcOf(s, t), Next(s, Step(t));
    assert ThreadOk(s, x, pc);
    assert ThreadOk(s', x, PcOf(s', t));
    PrivateUnowned(s, x, o, t, pc.nr);
    hide Succ, Adjacent, Shared, PhaseOf, Threads, Untouched, ThreadOk, Owns;
    forall u | u in s.pcs && u != t
      ensures Untouched(s, x, s', x, s.pcs[u])
    {
      OthersDoNotOwn(s, x, o, t, u, pc.nr);
      OthersDoNotUse(s, x, o, t, u, pc.nr);
      UntouchedNext(s, x, s', s.pcs[u], pc.nr, Link(pc.next, false));
    }
    ThreadsKept(s, x, s', x, t, PcOf(s', t));
  }

  lemma PrivateReady(s: State, x: Aux, o: Owners, t: Thread)
    requires Inv(s, x, o) && PcOf(s, t).S2?
    ensures var pc := PcOf(s, t);
            && pc.n in s.next && pc.n != pc.nr && PhaseOf(x, pc.nr) == Private && Adjacent(x, pc.n, pc.nr)
            && EdgeOk(x, pc.n, pc.next) && Ordered(x)
  {
    hide Adjacent, EdgeOk, Before, Ordered, Succ, LinkOk;
    var pc := PcOf(s, t);
    assert ThreadOk(s, x, pc) && Shared(x, pc.n);
  }

  lemma PrivateStep(s: State, x: Aux, o: Owners, t: Thread)
    requires Inv(s, x, o) && PcOf(s, t).S2?
    ensures Inv(Next(s, Step(t)), x, o)
  {
    hide Succ, Adjacent, EdgeOk, Before, Ordered, Exclusive, Threads, PrevExact;
    var pc, s' := PcOf(s, t), Next(s, Step(t));
    PrivateReady(s, x, o, t);
    EdgeRight(x, pc.n, pc.nr, pc.next);
    PrivateThreads(s, x, o, t);
    ExclusiveSame(s, x, o, s', x, t, PcOf(s', t));
    PrevExactFrame(s, s', x);
  }

  /* Listing the new leaf: the write of next.prev. */

  /** Which leaves are linked or gone decides whether a next pointer is right. */
  lemma EdgeFrame(x: Aux, x': Aux, a: Node, b: Node)
    requires EdgeOk(x, a, b)
    requires forall c, d :: Before(x', c, d) <==> Before(x, c, d)
    requires forall c :: PhaseOf(x', c) == Linked ==> PhaseOf(x, c) == Linked
    requires PhaseOf(x, b) == Linked || PhaseOf(x, b) == Gone ==> PhaseOf(x', b) == Linked || PhaseOf(x', b) == Gone
    ensures EdgeOk(x', a, b)
  {
    hide Before, PhaseOf;
    forall v | PhaseOf(x', v) == Linked && Before(x', a, v)
      ensures b != NULL && !Before(x', v, b)
    {
      assert Before(x, a, v);
    }
  }

  lemma PhaseAt(x: Aux, n: Node, ph: Phase)
    ensures forall a :: PhaseOf(WithPhase(x, n, ph), a) == if a == n then ph else PhaseOf(x, a)
  {
  }

  lemma AdjacentFrame(x: Aux, n: Node, ph: Phase, a: Node, b: Node)
    requires Adjacent(x, a, b) && Born(x, n)
    ensures Adjacent(WithPhase(x, n, ph), a, b)
  {
    PhaseFrame(x, n, ph);
    hide Before, Born, WithPhase;
    var x' := WithPhase(x, n, ph);
    forall c | Born(x', c) && Before(x', a, c)
      ensures !Before(x', c, b)
    {
      assert Before(x, a, c) && Born(x, c);
    }
  }

  lemma UntouchedPhase(s: State, x: Aux, s': State, x': Aux, pc: Pc, n: Node, ph: Phase, next: Node, p: Node)
    requires x' == WithPhase(x, n, ph) && ph != Unborn && ph != Private && Born(x, n)
    requires s'.next == s.next && s'.linked == s.linked && s' == SetPrev(s, next, p).(pcs := s'.pcs)
    requires PhaseOf(x, next) != Private && !Uses(pc, n)
    requires forall a, b :: Owns(pc, a) && Succ(x, a, b) ==> Succ(x', a, b)
    ensures Untouched(s, x, s', x', pc)
  {
    hide Succ, Adjacent, Uses, Owns, WithPhase, Before;
    PhaseAt(x, n, ph);
    forall a, b | Uses(pc, a) && Uses(pc, b) && Adjacent(x, a, b)
      ensures Adjacent(x', a, b)
    {
      AdjacentFrame(x, n, ph, a, b);
    }
  }

  lemma InsertReady(s: State, x: Aux, o: Owners, t: Thread)
    requires Inv(s, x, o) && PcOf(s, t).S3?
    ensures var pc := PcOf(s, t);
            && pc.n in s.next && pc.nr in s.next && PhaseOf(x, pc.n) == Linked && PhaseOf(x, pc.nr) == Private
            && Adjacent(x, pc.n, pc.nr) && Ordered(x) && Succ(x, pc.n, pc.next) && PrevOf(s, pc.nr) == pc.n
            && Holds(s, pc.n, pc.next) && NextOf(s, pc.nr) == Link(pc.next, false) && pc.nr != pc.n
            && pc.n in o && o[pc.n] == t && (pc.next != NULL ==> In(x, pc.next)) && pc.nr != NULL
  {
    hide Adjacent, EdgeOk, Before, LinkOk;
    var pc := PcOf(s, t);
    assert ThreadOk(s, x, pc) && Shared(x, pc.n) && Owns(pc, pc.n);
  }

  lemma InsertThreads(s: State, x: Aux, o: Owners, t: Thread)
    requires Inv(s, x, o) && PcOf(s, t).S3?
    ensures Threads(Next(s, Step(t)), WithPhase(x, PcOf(s, t).nr, Joining))
  {
    hide Inv, Succ, Adjacent, Ordered, Untouched, Threads, Exclusive, Before;
    var pc, s' := PcOf(s, t), Next(s, Step(t));
    var x' := WithPhase(x, pc.nr, Joining);
    InsertReady(s, x, o, t);
    SuccInsert(x, pc.n, pc.nr, pc.next);
    AdjacentFrame(x, pc.nr, Joining, pc.n, pc.nr);
    PhaseAt(x, pc.nr, Joining);
    assert ThreadOk(s', x', PcOf(s', t));
    assert Threads(s, x) && Exclusive(s, x, o) && Uses(pc, pc.nr) by { Parts(s, x, o); }
    forall u | u in s.pcs && u != t
      ensures Untouched(s, x, s', x', s.pcs[u])
    {
      LockHolder(s, x, o, t, pc.nr);
      OthersDoNotOwn(s, x, o, t, u, pc.n);
      OthersDoNotUse(s, x, o, t, u, pc.nr);
      forall a, b | Owns(s.pcs[u], a) && Succ(x, a, b)
        ensures Succ(x', a, b)
      {
        SuccInsertOther(x, pc.n, pc.nr, a, b);
      }
      UntouchedPhase(s, x, s', x', s.pcs[u], pc.nr, Joining, pc.next, pc.nr);
    }
    ThreadsKept(s, x, s', x', t, PcOf(s', t));
  }

  lemma Parts(s: State, x: Aux, o: Owners)
    requires Inv(s, x, o)
    ensures Shape(s, x) && NoSkip(s, x) && PrevExact(s, x) && NextExact(s, x, o) && Threads(s, x) && Exclusive(s, x, o)
    ensures Ordered(x)
  {
  }

  lemma LockHolder(s: State, x: Aux, o: Owners, t: Thread, a: Node)
    requires Exclusive(s, x, o) && Uses(PcOf(s, t), a)
    ensures a in s.locks && s.locks[a] == t
  {
  }

  lemma InsertPrev(s: State, x: Aux, s': State, n: Node, nr: Node, next: Node)
    requires Ordered(x) && PrevExact(s, x) && Succ(x, n, next) && PhaseOf(x, nr) == Private && Adjacent(x, n, nr)
    requires PrevOf(s, nr) == n && nr != NULL && s'.prev == SetPrev(s, next, nr).prev
    ensures PrevExact(s', WithPhase(x, nr, Joining))
  {
    var x' := WithPhase(x, nr, Joining);
    assert next != nr;
    PhaseAt(x, nr, Joining);
    forall a | Born(x', a) && a != HEAD
      ensures Shared(x', PrevOf(s', a))
    {
      assert Born(x, a);
    }
    hide Before, Adjacent;
    forall a, b | Succ(x', a, b) && b != NULL
      ensures PrevOf(s', b) == a
    {
      SuccInsertOnly(x, n, nr, next, a, b);
      assert b == next ==> PrevOf(s, next) == n;
    }
  }

  lemma InsertLink(x: Aux, o: Owners, n: Node, nr: Node, next: Node, a: Node, l: Link)
    requires Ordered(x) && Succ(x, n, next) && PhaseOf(x, nr) == Private && Adjacent(x, n, nr) && n in o
    requires LinkOk(x, o, a, l) && (a == nr ==> l == Link(next, false)) && (a == n ==> l == Locked(next))
    ensures LinkOk(WithPhase(x, nr, Joining), o, a, l)
  {
    var x' := WithPhase(x, nr, Joining);
    SuccInsert(x, n, nr, next);
    if a != n { SuccInsertOther(x, n, nr, a, l.ptr); }
    PhaseAt(x, nr, Joining);
    hide Succ, Adjacent, Ordered, WithPhase, Before;
  }

  lemma InsertShape(s: State, x: Aux, s': State, n: Node, nr: Node, next: Node)
    requires Shape(s, x) && PhaseOf(x, nr) == Private && Ordered(WithPhase(x, nr, Joining)) && nr in s.next
    requires next != NULL ==> In(x, next)
    requires s'.next == s.next && s'.linked == s.linked && s'.prev == SetPrev(s, next, nr).prev
    ensures Shape(s', WithPhase(x, nr, Joining))
  {
    PhaseAt(x, nr, Joining);
    hide Ordered, Before;
  }

  lemma InsertEdges(s: State, x: Aux, o: Owners, t: Thread)
    requires Inv(s, x, o) && PcOf(s, t).S3?
    ensures var s', x' := Next(s, Step(t)), WithPhase(x, PcOf(s, t).nr, Joining);
            forall a :: a in s'.next ==> EdgeOk(x', a, NextOf(s', a).ptr) && LinkOk(x', o, a, NextOf(s', a))
  {
    hide Inv, Succ, Adjacent, Ordered, Threads, Exclusive, Before, PrevExact, EdgeOk, LinkOk, Shape, WithPhase;
    var pc, s' := PcOf(s, t), Next(s, Step(t));
    var x' := WithPhase(x, pc.nr, Joining);
    InsertReady(s, x, o, t);
    Parts(s, x, o);
    PhaseFrame(x, pc.nr, Joining);
    PhaseAt(x, pc.nr, Joining);
    forall a | a in s'.next
      ensures EdgeOk(x', a, NextOf(s', a).ptr) && LinkOk(x', o, a, NextOf(s', a))
    {
      EdgeFrame(x, x', a, NextOf(s, a).ptr);
      InsertLink(x, o, pc.n, pc.nr, pc.next, a, NextOf(s, a));
    }
  }

  lemma InsertFrame(s: State, x: Aux, o: Owners, t: Thread)
    requires Inv(s, x, o) && PcOf(s, t).S3?
    ensures var s', x' := Next(s, Step(t)), WithPhase(x, PcOf(s, t).nr, Joining); Shape(s', x') && PrevExact(s', x')
  {
    hide Inv, Succ, Adjacent, Ordered, Threads, Exclusive, Before, PrevExact, NextExact, NoSkip, Shape, WithPhase;
    var pc, s' := PcOf(s, t), Next(s, Step(t));
    InsertReady(s, x, o, t);
    Parts(s, x, o);
    SuccInsert(x, pc.n, pc.nr, pc.next);
    PhaseFrame(x, pc.nr, Joining);
    PhaseAt(x, pc.nr, Joining);
    InsertShape(s, x, s', pc.n, pc.nr, pc.next);
    InsertPrev(s, x, s', pc.n, pc.nr, pc.next);
  }

  lemma InsertExclusive(s: State, x: Aux, o: Owners, t: Thread)
    requires Inv(s, x, o) && PcOf(s, t).S3?
    ensures Exclusive(Next(s, Step(t)), WithPhase(x, PcOf(s, t).nr, Joining), o)
  {
    hide Inv, Succ, Adjacent, Ordered, Threads, Exclusive, Before, PrevExact, NextExact, NoSkip, Shape, WithPhase;
    var pc, s' := PcOf(s, t), Next(s, Step(t));
    Parts(s, x, o);
    PhaseAt(x, pc.nr, Joining);
    ExclusiveSame(s, x, o, s', WithPhase(x, pc.nr, Joining), t, PcOf(s', t));
  }

  lemma InsertStep(s: State, x: Aux, o: Owners, t: Thread)
    requires Inv(s, x, o) && PcOf(s, t).S3?
    ensures Inv(Next(s, Step(t)), WithPhase(x, PcOf(s, t).nr, Joining), o)
  {
    hide Inv, Succ, Adjacent, Ordered, Threads, Exclusive, Before, PrevExact, EdgeOk, LinkOk, Shape, WithPhase,
      Untouched;
    var pc, s' := PcOf(s, t), Next(s, Step(t));
    var x' := WithPhase(x, pc.nr, Joining);
    InsertReady(s, x, o, t);
    InsertFrame(s, x, o, t);
    InsertThreads(s, x, o, t);
    InsertEdges(s, x, o, t);
    InsertExclusive(s, x, o, t);
    Whole(s', x', o);
  }

  lemma Whole(s: State, x: Aux, o: Owners)
    requires Shape(s, x) && NoSkip(s, x) && PrevExact(s, x) && NextExact(s, x, o) && Threads(s, x) && Exclusive(s, x, o)
    ensures Inv(s, x, o)
  {
  }

  /* Publishing the new leaf: the write of n.next. */

  lemma PublishReady(s: State, x: Aux, o: Owners, t: Thread)
    requires Inv(s, x, o) && PcOf(s, t).S4?
    ensures var pc := PcOf(s, t);
            && pc.n in s.next && pc.nr in s.next && PhaseOf(x, pc.n) == Linked && PhaseOf(x, pc.nr) == Joining
            && Adjacent(x, pc.n, pc.nr) && Succ(x, pc.n, pc.nr) && pc.nr != pc.n && pc.n in o && o[pc.n] == t &&
                pc.nr != NULL
  {
    hide Adjacent, EdgeOk, Before, LinkOk, Succ, PrevExact, NextExact, NoSkip;
    var pc := PcOf(s, t);
    assert Shared(x, pc.nr);
    assert ThreadOk(s, x, pc) && Shared(x, pc.n) && Owns(pc, pc.n);
  }

  /** Once `n` points to the adjacent `nr`, no next pointer skips `nr`. */
  lemma PublishEdge(x: Aux, n: Node, nr: Node, a: Node, b: Node)
    requires Ordered(x) && Adjacent(x, n, nr) && PhaseOf(x, n) == Linked && PhaseOf(x, nr) == Joining
    requires Born(x, a) && (if a == n then b == nr else EdgeOk(x, a, b))
    ensures EdgeOk(WithPhase(x, nr, Linked), a, b)
  {
    var x' := WithPhase(x, nr, Linked);
    PhaseAt(x, nr, Linked);
    PhaseFrame(x, nr, Linked);
    hide WithPhase;
    forall v | PhaseOf(x', v) == Linked && Before(x', a, v)
      ensures b != NULL && !Before(x', v, b)
    {
      assert Before(x, a, v);
      if a != n {
        if v == nr { assert Before(x, a, n); }
      }
    }
  }

  lemma PublishOrder(x: Aux, nr: Node)
    requires Ordered(x) && PhaseOf(x, nr) == Joining
    ensures Ordered(WithPhase(x, nr, Linked)) && SameList(x, WithPhase(x, nr, Linked))
    ensures WithPhase(x, nr, Linked).phase.Keys == x.phase.Keys
  {
    PhaseAt(x, nr, Linked);
    PhaseFrame(x, nr, Linked);
    hide Before;
  }

  lemma PublishLink(x: Aux, o: Owners, n: Node, nr: Node, a: Node, l: Link)
    requires Succ(x, n, nr) && PhaseOf(x, nr) == Joining && SameList(x, WithPhase(x, nr, Linked))
    requires if a == n then l == Link(nr, false) && In(x, n) else LinkOk(x, o, a, l)
    ensures LinkOk(WithPhase(x, nr, Linked), o - {n}, a, l)
  {
    SuccSame(x, WithPhase(x, nr, Linked), a, l.ptr);
    PhaseAt(x, nr, Linked);
    hide Succ, WithPhase, SameList;
  }

  lemma UntouchedPublish(s: State, x: Aux, s': State, x': Aux, pc: Pc, n: Node, nr: Node)
    requires x' == WithPhase(x, nr, Linked) && PhaseOf(x, nr) == Joining && SameList(x, x') && PhaseOf(x, n) == Linked
    requires s'.next == s.next[n := Link(nr, false)] && s'.linked == s.linked + {nr} && s'.prev == s.prev
    requires !Uses(pc, n) && !Uses(pc, nr) && !Owns(pc, n)
    ensures Untouched(s, x, s', x', pc)
  {
    hide Succ, Adjacent, Uses, Owns, WithPhase, Before, SameList;
    PhaseAt(x, nr, Linked);
    forall a, b
      ensures Succ(x, a, b) <==> Succ(x', a, b)
    {
      SuccSame(x, x', a, b);
    }
    forall a, b | Adjacent(x, a, b)
      ensures Adjacent(x', a, b)
    {
      AdjacentFrame(x, nr, Linked, a, b);
    }
  }

  lemma PublishThreads(s: State, x: Aux, o: Owners, t: Thread)
    requires Inv(s, x, o) && PcOf(s, t).S4? && SameList(x, WithPhase(x, PcOf(s, t).nr, Linked))
    ensures Threads(Next(s, Step(t)), WithPhase(x, PcOf(s, t).nr, Linked))
  {
    hide Inv, Succ, Adjacent, Ordered, Untouched, Threads, Exclusive, Before, SameList;
    var pc, s' := PcOf(s, t), Next(s, Step(t));
    var x' := WithPhase(x, pc.nr, Linked);
    PublishReady(s, x, o, t);
    Parts(s, x, o);
    LockHolder(s, x, o, t, pc.nr);
    LockHolder(s, x, o, t, pc.n);
    forall u | u in s.pcs && u != t
      ensures Untouched(s, x, s', x', s.pcs[u])
    {
      OthersDoNotOwn(s, x, o, t, u, pc.n);
      OthersDoNotUse(s, x, o, t, u, pc.nr);
      OthersDoNotUse(s, x, o, t, u, pc.n);
      UntouchedPublish(s, x, s', x', s.pcs[u], pc.n, pc.nr);
    }
    ThreadsKept(s, x, s', x', t, Idle);
  }

  lemma PublishExclusive(s: State, x: Aux, o: Owners, t: Thread)
    requires Exclusive(s, x, o) && PcOf(s, t).S4? && PhaseOf(x, PcOf(s, t).n) == Linked
    ensures Exclusive(Next(s, Step(t)), WithPhase(x, PcOf(s, t).nr, Linked), o - {PcOf(s, t).n})
  {
    var pc, s' := PcOf(s, t), Next(s, Step(t));
    var x' := WithPhase(x, pc.nr, Linked);
    PhaseAt(x, pc.nr, Linked);
    assert LocksMove(s.locks, s'.locks, t, Idle);
    assert OwnersMove(o, o - {pc.n}, t, Idle);
    assert forall a :: a in s.locks && s.locks[a] == t ==> Uses(pc, a);
    assert forall a :: Uses(pc, a) ==> a == pc.n || a == pc.nr;
    hide Uses, Owns, WithPhase, PhaseOf, LocksMove, OwnersMove;
    ExclusiveKept(s, x, o, s', x', o - {pc.n}, t, Idle);
  }

  lemma PublishStep(s: State, x: Aux, o: Owners, t: Thread)
    requires Inv(s, x, o) && PcOf(s, t).S4?
    ensures Inv(Next(s, Step(t)), WithPhase(x, PcOf(s, t).nr, Linked), o - {PcOf(s, t).n})
  {
    hide Inv, Succ, Adjacent, Ordered, Threads, Exclusive, Before, PrevExact, EdgeOk, LinkOk, WithPhase, Untouched,
      SameList;
    var pc, s' := PcOf(s, t), Next(s, Step(t));
    var x', o' := WithPhase(x, pc.nr, Linked), o - {pc.n};
    PublishReady(s, x, o, t);
    Parts(s, x, o);
    PublishOrder(x, pc.nr);
    PhaseAt(x, pc.nr, Linked);
    PublishThreads(s, x, o, t);
    PublishExclusive(s, x, o, t);
    forall a | a in s'.next
      ensures EdgeOk(x', a, NextOf(s', a).ptr) && LinkOk(x', o', a, NextOf(s', a))
    {
      PublishEdge(x, pc.n, pc.nr, a, NextOf(s', a).ptr);
      PublishLink(x, o, pc.n, pc.nr, a, NextOf(s', a));
    }
    assert forall a :: (Born(x', a) ==> Born(x, a)) && (Shared(x, a) ==> Shared(x', a));
    PrevExactSame(s, x, s', x');
    assert Shape(s', x');
    Whole(s', x', o');
  }

  lemma PrevExactSame(s: State, x: Aux, s': State, x': Aux)
    requires PrevExact(s, x) && s'.prev == s.prev && SameList(x, x')
    requires forall a :: (Born(x', a) ==> Born(x, a)) && (Shared(x, a) ==> Shared(x', a))
    ensures PrevExact(s', x')
  {
    hide Before, Born, Shared;
    forall a, b | Succ(x', a, b) && b != NULL
      ensures PrevOf(s', b) == a
    {
      SuccSame(x, x', a, b);
    }
  }

  /* Finding the left neighbour: the read of n.prev and the compare-and-swap on it. */

  lemma UntouchedSame(s: State, x: Aux, s': State, pc: Pc)
    requires s'.next == s.next && s'.prev == s.prev && s'.linked <= s.linked
    ensures Untouched(s, x, s', x, pc)
  {
    hide Succ, Adjacent, Shared, PhaseOf, Uses, Owns;
  }

  /** A step that only moves the thread's program counter. */
  lemma MoveStep(s: State, x: Aux, o: Owners, t: Thread, pc: Pc)
    requires Inv(s, x, o) && t in s.pcs && !s.pcs[t].S4? && !pc.S4? && ThreadOk(At(s, t, pc), x, pc)
    requires forall a :: (Uses(pc, a) <==> Uses(s.pcs[t], a)) && (Owns(pc, a) <==> Owns(s.pcs[t], a))
    ensures Inv(At(s, t, pc), x, o)
  {
    hide Succ, Adjacent, Ordered, Threads, Exclusive, Before, PrevExact, EdgeOk, LinkOk, Untouched, Uses, Owns,
      ThreadOk;
    var s' := At(s, t, pc);
    forall u | u in s.pcs && u != t
      ensures Untouched(s, x, s', x, s.pcs[u])
    {
      UntouchedSame(s, x, s', s.pcs[u]);
    }
    ThreadsKept(s, x, s', x, t, pc);
    ExclusiveSame(s, x, o, s', x, t, pc);
    PrevExactFrame(s, s', x);
  }

  lemma ReadPrevReady(s: State, x: Aux, o: Owners, t: Thread)
    requires Inv(s, x, o) && PcOf(s, t).U2?
    ensures var pc := PcOf(s, t); var pc' := U3(pc.n, pc.next, PrevOf(s, pc.n)); ThreadOk(At(s, t, pc'), x, pc')
  {
    hide Succ, Adjacent, Before, EdgeOk, LinkOk, NextExact, NoSkip, Ordered, Exclusive, Shape;
    var pc := PcOf(s, t);
    assert ThreadOk(s, x, pc) && Born(x, pc.n);
    hide PrevOf, PhaseOf;
  }

  lemma ReadPrevStep(s: State, x: Aux, o: Owners, t: Thread)
    requires Inv(s, x, o) && PcOf(s, t).U2?
    ensures Inv(Next(s, Step(t)), x, o)
  {
    hide Inv, ThreadOk;
    var pc := PcOf(s, t);
    ReadPrevReady(s, x, o, t);
    MoveStep(s, x, o, t, U3(pc.n, pc.next, PrevOf(s, pc.n)));
  }

  lemma RetryStep(s: State, x: Aux, o: Owners, t: Thread)
    requires Inv(s, x, o) && PcOf(s, t).U3? && NextOf(s, PcOf(s, t).prev) != Link(PcOf(s, t).n, false)
    ensures Inv(Next(s, Step(t)), x, o)
  {
    hide Succ, Adjacent, Before, EdgeOk, LinkOk, NextExact, NoSkip, Ordered, PrevExact;
    var pc := PcOf(s, t);
    assert ThreadOk(s, x, pc);
    var pc' := U2(pc.n, pc.next);
    assert ThreadOk(At(s, t, pc'), x, pc');
    hide Inv;
    MoveStep(s, x, o, t, pc');
  }

  /** Only the true left neighbour passes the compare-and-swap, however old the read of prev is. */
  lemma SwapReady(s: State, x: Aux, o: Owners, t: Thread)
    requires Inv(s, x, o) && PcOf(s, t).U3? && NextOf(s, PcOf(s, t).prev) == Link(PcOf(s, t).n, false)
    ensures var pc := PcOf(s, t);
            && pc.prev in s.next && In(x, pc.prev) && Succ(x, pc.prev, pc.n) && pc.prev !in o && pc.prev != pc.n
            && pc.n != NULL
  {
    hide Adjacent, EdgeOk, Before, Ordered, Succ, NoSkip, PrevExact;
    var pc := PcOf(s, t);
    NullUnborn(x);
    assert ThreadOk(s, x, pc) && Owns(pc, pc.n);
    assert LinkOk(x, o, pc.prev, NextOf(s, pc.prev));
    Unowned(s, x, o, pc.prev);
  }

  lemma NullUnborn(x: Aux)
    requires Ordered(x)
    ensures PhaseOf(x, NULL) == Unborn
  {
  }

  lemma SwapThread(s: State, x: Aux, o: Owners, t: Thread)
    requires Threads(s, x) && PcOf(s, t).U3? && NextOf(s, PcOf(s, t).prev) == Link(PcOf(s, t).n, false)
    requires PcOf(s, t).prev != PcOf(s, t).n && Succ(x, PcOf(s, t).prev, PcOf(s, t).n)
    ensures ThreadOk(Next(s, Step(t)), x, PcOf(Next(s, Step(t)), t))
  {
    hide Succ, Adjacent, Shared;
    assert ThreadOk(s, x, PcOf(s, t));
  }

  lemma SwapThreads(s: State, x: Aux, o: Owners, t: Thread)
    requires Threads(s, x) && Exclusive(s, x, o) && PcOf(s, t).U3?
    requires NextOf(s, PcOf(s, t).prev) == Link(PcOf(s, t).n, false)
    requires PcOf(s, t).prev !in o && PcOf(s, t).prev != PcOf(s, t).n && Succ(x, PcOf(s, t).prev, PcOf(s, t).n)
    requires In(x, PcOf(s, t).prev)
    ensures Threads(Next(s, Step(t)), x)
  {
    hide Succ, Adjacent, Shared, Threads, Untouched, ThreadOk, Owns, Ordered;
    var pc, s' := PcOf(s, t), Next(s, Step(t));
    SwapThread(s, x, o, t);
    forall u | u in s.pcs && u != t
      ensures Untouched(s, x, s', x, s.pcs[u])
    {
      OthersDoNotOwn(s, x, o, t, u, pc.prev);
      UntouchedNext(s, x, s', s.pcs[u], pc.prev, Link(pc.n, true));
    }
    ThreadsKept(s, x, s', x, t, PcOf(s', t));
  }

  lemma SwapExclusive(s: State, x: Aux, o: Owners, t: Thread)
    requires Exclusive(s, x, o) && PcOf(s, t).U3? && NextOf(s, PcOf(s, t).prev) == Link(PcOf(s, t).n, false)
    requires PcOf(s, t).prev !in o
    ensures Exclusive(Next(s, Step(t)), x, o[PcOf(s, t).prev := t])
  {
    var pc, s', o' := PcOf(s, t), Next(s, Step(t)), o[PcOf(s, t).prev := t];
    assert LocksMove(s.locks, s'.locks, t, PcOf(s', t));
    assert OwnersMove(o, o', t, PcOf(s', t));
    hide Uses, Owns;
    ExclusiveKept(s, x, o, s', x, o', t, PcOf(s', t));
  }

  lemma SwapStep(s: State, x: Aux, o: Owners, t: Thread)
    requires Inv(s, x, o) && PcOf(s, t).U3? && NextOf(s, PcOf(s, t).prev) == Link(PcOf(s, t).n, false)
    ensures Inv(Next(s, Step(t)), x, o[PcOf(s, t).prev := t])
  {
    hide Succ, Adjacent, EdgeOk, Before, Ordered, Exclusive, Threads, PrevExact;
    SwapReady(s, x, o, t);
    SwapThreads(s, x, o, t);
    SwapExclusive(s, x, o, t);
    PrevExactFrame(s, Next(s, Step(t)), x);
  }

  /* Taking the leaf out: the write of next.prev. */

  lemma RemoveReady(s: State, x: Aux, o: Owners, t: Thread)
    requires Inv(s, x, o) && PcOf(s, t).U4?
    ensures var pc := PcOf(s, t);
            && Succ(x, pc.prev, pc.n) && Succ(x, pc.n, pc.next) && pc.n != NULL && pc.n != HEAD && pc.n !in s.linked
            && PhaseOf(x, pc.n) == Linked && Ordered(x) && pc.n in o && o[pc.n] == t && pc.prev in o && o[pc.prev] == t
            && In(x, pc.prev) && (pc.next != NULL ==> In(x, pc.next)) && pc.prev != pc.n && pc.next != pc.n
            && Holds(s, pc.n, pc.next) && NextOf(s, pc.prev) == Link(pc.n, true) && pc.n in s.next
  {
    hide Adjacent, EdgeOk, LinkOk, PrevExact, NextExact, NoSkip, JoiningOk, LocksOk;
    var pc := PcOf(s, t);
    assert ThreadOk(s, x, pc) && Owns(pc, pc.n) && Owns(pc, pc.prev) && Shared(x, pc.n);
  }

  lemma RemoveUntouched(s: State, x: Aux, o: Owners, t: Thread, u: Thread)
    requires Inv(s, x, o) && PcOf(s, t).U4? && u in s.pcs && u != t
    ensures Untouched(s, x, Next(s, Step(t)), WithPhase(x, PcOf(s, t).n, Gone), s.pcs[u])
  {
    hide Inv, Succ, Adjacent, Ordered, Untouched, Threads, Exclusive, Before, NextExact, NoSkip, Shape, Owns,
      WithPhase, PrevExact;
    var pc, s' := PcOf(s, t), Next(s, Step(t));
    var x' := WithPhase(x, pc.n, Gone);
    RemoveReady(s, x, o, t);
    Parts(s, x, o);
    LockHolder(s, x, o, t, pc.n);
    OthersDoNotOwn(s, x, o, t, u, pc.n);
    OthersDoNotOwn(s, x, o, t, u, pc.prev);
    OthersDoNotUse(s, x, o, t, u, pc.n);
    forall a, b | Owns(s.pcs[u], a) && Succ(x, a, b)
      ensures Succ(x', a, b)
    {
      if b == pc.n { PrevUnique(s, x, a, pc.prev, b); }
      SuccRemoveOther(x, pc.n, a, b);
    }
    UntouchedPhase(s, x, s', x', s.pcs[u], pc.n, Gone, pc.next, pc.prev);
  }

  lemma RemoveThreads(s: State, x: Aux, o: Owners, t: Thread)
    requires Inv(s, x, o) && PcOf(s, t).U4?
    ensures Threads(Next(s, Step(t)), WithPhase(x, PcOf(s, t).n, Gone))
  {
    hide Inv, Succ, Adjacent, Ordered, Untouched, Threads, Exclusive, Before, Shape, NoSkip, NextExact, PrevExact;
    var pc, s' := PcOf(s, t), Next(s, Step(t));
    var x' := WithPhase(x, pc.n, Gone);
    RemoveReady(s, x, o, t);
    Parts(s, x, o);
    SuccRemove(x, pc.prev, pc.n, pc.next);
    PhaseAt(x, pc.n, Gone);
    assert ThreadOk(s', x', PcOf(s', t));
    forall u | u in s.pcs && u != t
      ensures Untouched(s, x, s', x', s.pcs[u])
    {
      RemoveUntouched(s, x, o, t, u);
    }
    ThreadsKept(s, x, s', x', t, PcOf(s', t));
  }

  lemma PrevUnique(s: State, x: Aux, a: Node, b: Node, c: Node)
    requires PrevExact(s, x) && Succ(x, a, c) && Succ(x, b, c) && c != NULL
    ensures a == b
  {
    hide Succ;
  }

  lemma RemovePrev(s: State, x: Aux, s': State, prev: Node, n: Node, next: Node)
    requires Ordered(x) && PrevExact(s, x) && Succ(x, prev, n) && Succ(x, n, next) && n != NULL && n != HEAD
    requires s'.prev == SetPrev(s, next, prev).prev && In(x, prev)
    ensures PrevExact(s', WithPhase(x, n, Gone))
  {
    var x' := WithPhase(x, n, Gone);
    PhaseAt(x, n, Gone);
    forall a | Born(x', a) && a != HEAD
      ensures Shared(x', PrevOf(s', a))
    {
      assert Born(x, a);
    }
    hide Before, Adjacent;
    forall a, b | Succ(x', a, b) && b != NULL
      ensures PrevOf(s', b) == a
    {
      SuccRemoveOnly(x, prev, n, next, a, b);
      if b == next && a != prev { PrevUnique(s, x, a, n, next); }
    }
  }

  lemma RemoveLink(s: State, x: Aux, o: Owners, prev: Node, n: Node, next: Node, a: Node, l: Link)
    requires Ordered(x) && PrevExact(s, x) && Succ(x, prev, n) && Succ(x, n, next) && n != NULL && n != HEAD && n in o
    requires LinkOk(x, o, a, l) && (a == n ==> l == Locked(next)) && (a == prev ==> l == Link(n, true))
    ensures LinkOk(WithPhase(x, n, Gone), o, a, l)
  {
    var x' := WithPhase(x, n, Gone);
    SuccRemove(x, prev, n, next);
    if a != n && l.ptr != n { SuccRemoveOther(x, n, a, l.ptr); }
    if a != prev && l.ptr == n && Succ(x, a, n) { PrevUnique(s, x, a, prev, n); }
    PhaseAt(x, n, Gone);
    hide Succ, Adjacent, Ordered, WithPhase, Before, PrevExact;
  }

  lemma RemoveShape(s: State, x: Aux, s': State, prev: Node, n: Node, next: Node)
    requires Shape(s, x) && PhaseOf(x, n) == Linked && Ordered(WithPhase(x, n, Gone)) && n !in s.linked
    requires next != NULL ==> In(x, next)
    requires s'.next == s.next && s'.linked == s.linked && s'.prev == SetPrev(s, next, prev).prev
    ensures Shape(s', WithPhase(x, n, Gone))
  {
    PhaseAt(x, n, Gone);
    hide Ordered, Before;
  }

  lemma RemoveStep(s: State, x: Aux, o: Owners, t: Thread)
    requires Inv(s, x, o) && PcOf(s, t).U4?
    ensures Inv(Next(s, Step(t)), WithPhase(x, PcOf(s, t).n, Gone), o)
  {
    hide Inv, Succ, Adjacent, Ordered, Threads, Exclusive, Before, PrevExact, EdgeOk, LinkOk, Shape, WithPhase,
      Untouched;
    var pc, s' := PcOf(s, t), Next(s, Step(t));
    var x' := WithPhase(x, pc.n, Gone);
    RemoveReady(s, x, o, t);
    Parts(s, x, o);
    SuccRemove(x, pc.prev, pc.n, pc.next);
    PhaseFrame(x, pc.n, Gone);
    PhaseAt(x, pc.n, Gone);
    RemoveShape(s, x, s', pc.prev, pc.n, pc.next);
    RemovePrev(s, x, s', pc.prev, pc.n, pc.next);
    RemoveThreads(s, x, o, t);
    forall a | a in s'.next
      ensures EdgeOk(x', a, NextOf(s', a).ptr) && LinkOk(x', o, a, NextOf(s', a))
    {
      EdgeFrame(x, x', a, NextOf(s, a).ptr);
      RemoveLink(s, x, o, pc.prev, pc.n, pc.next, a, NextOf(s, a));
    }
    ExclusiveSame(s, x, o, s', x', t, PcOf(s', t));
    Whole(s', x', o);
  }

  /* Bypassing the leaf: the write of prev.next. */

  lemma BypassReady(s: State, x: Aux, o: Owners, t: Thread)
    requires Inv(s, x, o) && PcOf(s, t).U5?
    ensures var pc := PcOf(s, t);
            && Succ(x, pc.prev, pc.next) && PhaseOf(x, pc.n) == Gone && In(x, pc.prev) && pc.prev in s.next
            && EdgeOk(x, pc.prev, pc.n) && EdgeOk(x, pc.n, pc.next) && pc.prev in o && o[pc.prev] == t
  {
    hide Adjacent, EdgeOk, LinkOk, PrevExact, NextExact, Before;
    var pc := PcOf(s, t);
    assert ThreadOk(s, x, pc) && Owns(pc, pc.prev) && Shared(x, pc.n) && In(x, pc.prev);
    assert EdgeOk(x, pc.prev, NextOf(s, pc.prev).ptr) && EdgeOk(x, pc.n, NextOf(s, pc.n).ptr);
  }

  /** Two next pointers in a row through a leaf that is gone make one. */
  lemma EdgeJoin(x: Aux, prev: Node, n: Node, next: Node)
    requires Ordered(x) && EdgeOk(x, prev, n) && EdgeOk(x, n, next) && PhaseOf(x, n) == Gone
    ensures EdgeOk(x, prev, next)
  {
  }

  lemma BypassThreads(s: State, x: Aux, o: Owners, t: Thread)
    requires Threads(s, x) && Exclusive(s, x, o) && PcOf(s, t).U5? && In(x, PcOf(s, t).prev)
    requires PcOf(s, t).prev in o && o[PcOf(s, t).prev] == t
    ensures Threads(Next(s, Step(t)), x)
  {
    var pc, s' := PcOf(s, t), Next(s, Step(t));
    hide Succ, Adjacent, Shared, Threads, Untouched, Owns;
    forall u | u in s.pcs && u != t
      ensures Untouched(s, x, s', x, s.pcs[u])
    {
      OthersDoNotOwn(s, x, o, t, u, pc.prev);
      UntouchedNext(s, x, s', s.pcs[u], pc.prev, Link(pc.next, false));
    }
    ThreadsKept(s, x, s', x, t, Idle);
  }

  lemma BypassExclusive(s: State, x: Aux, o: Owners, t: Thread)
    requires Exclusive(s, x, o) && PcOf(s, t).U5?
    ensures Exclusive(Next(s, Step(t)), x, o - {PcOf(s, t).n, PcOf(s, t).prev})
  {
    var pc, s' := PcOf(s, t), Next(s, Step(t));
    var o' := o - {pc.n, pc.prev};
    assert LocksMove(s.locks, s'.locks, t, Idle);
    assert OwnersMove(o, o', t, Idle);
    hide Uses, Owns;
    ExclusiveKept(s, x, o, s', x, o', t, Idle);
  }

  lemma BypassStep(s: State, x: Aux, o: Owners, t: Thread)
    requires Inv(s, x, o) && PcOf(s, t).U5?
    ensures Inv(Next(s, Step(t)), x, o - {PcOf(s, t).n, PcOf(s, t).prev})
  {
    hide Succ, Adjacent, EdgeOk, Before, Ordered, Exclusive, Threads, PrevExact;
    var pc, s' := PcOf(s, t), Next(s, Step(t));
    BypassReady(s, x, o, t);
    EdgeJoin(x, pc.prev, pc.n, pc.next);
    BypassThreads(s, x, o, t);
    BypassExclusive(s, x, o, t);
    PrevExactFrame(s, s', x);
  }

  /* Starting an operation. */

  /** A place right after `n`, before everything else that comes after it. */
  lemma {:induction false} Place(pos: map<Node, real>, nodes: set<Node>, p: real) returns (q: real)
    requires nodes <= pos.Keys
    ensures p < q && forall a :: a in nodes && p < pos[a] ==> q < pos[a]
  {
    if nodes == {} {
      q := p + 1.0;
    } else {
      var a :| a in nodes;
      var r := Place(pos, nodes - {a}, p);
      q := if p < pos[a] && pos[a] <= r then (p + pos[a]) / 2.0 else r;
    }
  }

  function WithNew(x: Aux, nr: Node, q: real): Aux { Aux(x.pos[nr := q], x.phase[nr := Private]) }

  lemma NewFrame(x: Aux, nr: Node, q: real)
    requires Ordered(x) && !Born(x, nr)
    ensures var x' := WithNew(x, nr, q);
            && (forall a :: PhaseOf(x', a) == if a == nr then Private else PhaseOf(x, a))
            && (forall a, b :: a != nr && b != nr ==> (Before(x', a, b) <==> Before(x, a, b)))
            && (forall a :: Pos(x', a) == if a == nr then q else Pos(x, a))
            && SameList(x, x')
  {
    var x' := WithNew(x, nr, q);
    assert forall a :: a != nr ==> Pos(x', a) == Pos(x, a);
    assert forall a :: a != nr ==> PhaseOf(x', a) == PhaseOf(x, a);
  }

  ghost predicate RightAfter(x: Aux, n: Node, q: real) {
    Pos(x, n) < q && forall a :: Born(x, a) && Before(x, n, a) ==> q < Pos(x, a)
  }

  lemma NewOrder(x: Aux, n: Node, nr: Node, q: real)
    requires Ordered(x) && !Born(x, nr) && nr != NULL && PhaseOf(x, n) == Linked && RightAfter(x, n, q)
    ensures Ordered(WithNew(x, nr, q)) && Adjacent(WithNew(x, nr, q), n, nr)
  {
    NewFrame(x, nr, q);
    var x' := WithNew(x, nr, q);
    forall a, b | Born(x', a) && Born(x', b) && a != b
      ensures Before(x', a, b) || Before(x', b, a)
    {
      assert a != nr ==> Born(x, a);
      assert b != nr ==> Born(x, b);
    }
  }

  lemma NewAdjacent(x: Aux, n: Node, nr: Node, q: real, a: Node, b: Node)
    requires Ordered(x) && !Born(x, nr) && PhaseOf(x, n) == Linked && RightAfter(x, n, q)
    requires Adjacent(x, a, b) && a != n && Born(x, a) && Born(x, b)
    ensures Adjacent(WithNew(x, nr, q), a, b)
  {
    NewFrame(x, nr, q);
    hide WithNew;
    var x' := WithNew(x, nr, q);
    forall c | Born(x', c) && Before(x', a, c)
      ensures !Before(x', c, b)
    {
      if c == nr {
        assert Before(x, a, n) || Before(x, n, a);
      } else {
        assert Born(x, c) && Before(x, a, c);
      }
    }
  }

  lemma NewEdge(x: Aux, nr: Node, q: real, a: Node, b: Node)
    requires Ordered(x) && !Born(x, nr) && nr != NULL && EdgeOk(x, a, b) && Born(x, a)
    ensures EdgeOk(WithNew(x, nr, q), a, b)
  {
    NewFrame(x, nr, q);
    hide WithNew, Before, Ordered, PhaseOf;
    var x' := WithNew(x, nr, q);
    assert b != nr;
    forall v | PhaseOf(x', v) == Linked && Before(x', a, v)
      ensures b != NULL && !Before(x', v, b)
    {
      assert Before(x, a, v);
    }
  }

  lemma NewLink(x: Aux, o: Owners, nr: Node, q: real, a: Node, l: Link)
    requires Ordered(x) && !Born(x, nr) && LinkOk(x, o, a, l) && Born(x, a)
    ensures LinkOk(WithNew(x, nr, q), o, a, l)
  {
    NewFrame(x, nr, q);
    SuccSame(x, WithNew(x, nr, q), a, l.ptr);
    hide WithNew, Succ, Ordered, SameList, Before;
  }

  lemma NewUntouched(s: State, x: Aux, s': State, n: Node, nr: Node, q: real, pc: Pc)
    requires Ordered(x) && !Born(x, nr) && PhaseOf(x, n) == Linked && RightAfter(x, n, q) && ThreadOk(s, x, pc)
    requires s'.next == s.next && s'.prev == s.prev[nr := n] && s'.linked == s.linked && !Uses(pc, n)
    ensures Untouched(s, x, s', WithNew(x, nr, q), pc)
  {
    hide Succ, Adjacent, Uses, Owns, WithNew, Before, SameList, Ordered, ThreadOk, RightAfter;
    var x' := WithNew(x, nr, q);
    NewFrame(x, nr, q);
    forall a, b
      ensures Succ(x, a, b) <==> Succ(x', a, b)
    {
      SuccSame(x, x', a, b);
    }
    UsesBorn(s, x, pc);
    forall a, b | Uses(pc, a) && Uses(pc, b) && Adjacent(x, a, b)
      ensures Adjacent(x', a, b)
    {
      NewAdjacent(x, n, nr, q, a, b);
    }
  }

  lemma UsesBorn(s: State, x: Aux, pc: Pc)
    requires ThreadOk(s, x, pc)
    ensures forall a :: Uses(pc, a) ==> Born(x, a)
  {
    hide Succ, Adjacent;
  }

  lemma StartSplitReady(s: State, x: Aux, o: Owners, n: Node, nr: Node)
    requires Inv(s, x, o) && n in s.linked && n !in s.locks && nr != NULL && nr !in s.prev
    ensures Ordered(x) && !Born(x, nr) && PhaseOf(x, n) == Linked && nr !in s.next && nr !in s.locks && n != nr
  {
    hide Succ, Adjacent, EdgeOk, LinkOk, NextExact, NoSkip, PrevExact, ThreadOk;
    if nr in s.locks {
      UsesBorn(s, x, s.pcs[s.locks[nr]]);
    }
  }

  lemma StartSplitThreads(s: State, x: Aux, o: Owners, a: Action, q: real)
    requires Inv(s, x, o) && a.StartSplit? && Enabled(s, a) && RightAfter(x, a.n, q)
    ensures Threads(Next(s, a), WithNew(x, a.nr, q))
  {
    hide Inv, Succ, Adjacent, Ordered, Untouched, Exclusive, Before, Shape, NoSkip, NextExact, PrevExact, RightAfter;
    StartSplitReady(s, x, o, a.n, a.nr);
    Parts(s, x, o);
    NewOrder(x, a.n, a.nr, q);
    NewFrame(x, a.nr, q);
    var s', x' := Next(s, a), WithNew(x, a.nr, q);
    assert ThreadOk(s', x', S1(a.n, a.nr));
    hide ThreadOk, SameList;
    forall u | u in s.pcs && u != a.t
      ensures Untouched(s, x, s', x', s.pcs[u])
    {
      OthersDoNotUse(s, x, o, a.t, u, a.n);
      NewUntouched(s, x, s', a.n, a.nr, q, s.pcs[u]);
    }
    ThreadsKept(s, x, s', x', a.t, S1(a.n, a.nr));
  }

  lemma StartExclusive(s: State, x: Aux, o: Owners, a: Action, x': Aux)
    requires Exclusive(s, x, o) && !a.Step? && Enabled(s, a) && (a.StartSplit? ==> a.nr !in s.locks)
    requires forall b :: PhaseOf(x', b) == Joining ==> PhaseOf(x, b) == Joining
    ensures Exclusive(Next(s, a), x', o)
  {
    hide Uses, Owns, PhaseOf, LocksMove, OwnersMove;
    var s' := Next(s, a);
    var pc' := PcOf(s', a.t);
    StartMoves(s, o, a);
    ExclusiveKept(s, x, o, s', x', o, a.t, pc');
  }

  lemma StartMoves(s: State, o: Owners, a: Action)
    requires LocksOk(s) && OwnersOk(s, o) && !a.Step? && Enabled(s, a) && (a.StartSplit? ==> a.nr !in s.locks)
    ensures LocksMove(s.locks, Next(s, a).locks, a.t, PcOf(Next(s, a), a.t))
    ensures OwnersMove(o, o, a.t, PcOf(Next(s, a), a.t))
  {
    assert forall b :: b in s.locks ==> s.locks[b] != a.t;
  }

  lemma StartSplitPrev(s: State, x: Aux, s': State, n: Node, nr: Node, q: real)
    requires Ordered(x) && PrevExact(s, x) && !Born(x, nr) && PhaseOf(x, n) == Linked && s'.prev == s.prev[nr := n]
    ensures PrevExact(s', WithNew(x, nr, q))
  {
    var x' := WithNew(x, nr, q);
    NewFrame(x, nr, q);
    hide Before;
    forall a, b | Succ(x', a, b) && b != NULL
      ensures PrevOf(s', b) == a
    {
      SuccSame(x, x', a, b);
    }
    forall a | Born(x', a) && a != HEAD
      ensures Shared(x', PrevOf(s', a))
    {
      assert a != nr ==> Born(x, a);
    }
  }

  lemma StartSplitEdges(s: State, x: Aux, o: Owners, a: Action, q: real)
    requires Inv(s, x, o) && a.StartSplit? && Enabled(s, a)
    requires Ordered(x) && !Born(x, a.nr) && a.nr != NULL
    ensures NoSkip(Next(s, a), WithNew(x, a.nr, q)) && NextExact(Next(s, a), WithNew(x, a.nr, q), o)
  {
    hide Inv, Succ, Adjacent, Ordered, Threads, Exclusive, Before, PrevExact, EdgeOk, LinkOk;
    Parts(s, x, o);
    var s', x' := Next(s, a), WithNew(x, a.nr, q);
    forall b | b in s'.next
      ensures EdgeOk(x', b, NextOf(s', b).ptr) && LinkOk(x', o, b, NextOf(s', b))
    {
      NewEdge(x, a.nr, q, b, NextOf(s, b).ptr);
      NewLink(x, o, a.nr, q, b, NextOf(s, b));
    }
  }

  lemma StartSplitStep(s: State, x: Aux, o: Owners, a: Action) returns (x': Aux)
    requires Inv(s, x, o) && a.StartSplit? && Enabled(s, a)
    ensures Inv(Next(s, a), x', o) && SameList(x, x')
    ensures forall b :: Born(x, b) ==> Pos(x', b) == Pos(x, b)
  {
    hide Inv, Succ, Adjacent, Ordered, Threads, Exclusive, Before, PrevExact, EdgeOk, LinkOk;
    StartSplitReady(s, x, o, a.n, a.nr);
    Parts(s, x, o);
    var q := PlaceAfter(x, a.n);
    x' := WithNew(x, a.nr, q);
    var s' := Next(s, a);
    StartSplitThreads(s, x, o, a, q);
    NewOrder(x, a.n, a.nr, q);
    NewFrame(x, a.nr, q);
    StartExclusive(s, x, o, a, x');
    StartSplitPrev(s, x, s', a.n, a.nr, q);
    StartSplitEdges(s, x, o, a, q);
    assert Shape(s', x');
    hide Shape, NoSkip, NextExact;
    Whole(s', x', o);
  }

  lemma PlaceAfter(x: Aux, n: Node) returns (q: real)
    requires Ordered(x)
    ensures RightAfter(x, n, q)
  {
    q := Place(x.pos, x.pos.Keys, Pos(x, n));
  }

  lemma StartUnlinkStep(s: State, x: Aux, o: Owners, a: Action)
    requires Inv(s, x, o) && a.StartUnlink? && Enabled(s, a)
    ensures Inv(Next(s, a), x, o)
  {
    hide Succ, Adjacent, Ordered, Threads, Exclusive, Before, PrevExact, EdgeOk, LinkOk, Untouched, Uses, Owns;
    var s' := Next(s, a);
    forall u | u in s.pcs && u != a.t
      ensures Untouched(s, x, s', x, s.pcs[u])
    {
      UntouchedSame(s, x, s', s.pcs[u]);
    }
    ThreadsKept(s, x, s', x, a.t, U1(a.n));
    StartExclusive(s, x, o, a, x);
    PrevExactFrame(s, s', x);
  }

  /* Every step keeps the invariant. */

  /** Apart from adding a private leaf, only the two writes of a neighbour's prev pointer change
      the list: they insert the new leaf right after `n` and take `n` out. */
  ghost predicate ListStep(s: State, a: Action, x: Aux, x': Aux) {
    var pc := PcOf(s, a.t);
    && (if a.Step? && pc.S3? then Succ(x', pc.n, pc.nr) && !In(x, pc.nr) && forall b :: In(x', b) <==>
        In(x, b) || b == pc.nr
        else if a.Step? && pc.U4? then In(x, pc.n) && forall b :: In(x', b) <==> In(x, b) && b != pc.n
        else forall b :: In(x', b) <==> In(x, b))
    && forall b :: Born(x, b) ==> Pos(x', b) == Pos(x, b)
  }

  lemma StepSafe(s: State, x: Aux, o: Owners, a: Action) returns (x': Aux, o': Owners)
    requires Inv(s, x, o) && Enabled(s, a)
    ensures Inv(Next(s, a), x', o') && ListStep(s, a, x, x')
  {
    hide Inv, Next, Succ, Ordered, Adjacent;
    var pc := PcOf(s, a.t);
    x', o' := x, o;
    match a
    case StartSplit(_, _, _) => x' := StartSplitStep(s, x, o, a);
    case StartUnlink(_, _) => StartUnlinkStep(s, x, o, a);
    case Step(t) =>
      match pc {
        case S1(n, _) => LockStep(s, x, o, t); o' := o[n := t];
        case S2(_, _, _) => PrivateStep(s, x, o, t);
        case S3(n, nr, next) =>
          InsertStep(s, x, o, t);
          InsertReady(s, x, o, t);
          SuccInsert(x, n, nr, next);
          x' := WithPhase(x, nr, Joining);
        case S4(n, nr, _) =>
          PublishReady(s, x, o, t);
          PublishStep(s, x, o, t);
          x', o' := WithPhase(x, nr, Linked), o - {n};
        case U1(n) => LockStep(s, x, o, t); o' := o[n := t];
        case U2(_, _) => ReadPrevStep(s, x, o, t);
        case U3(n, _, prev) =>
          if NextOf(s, prev) == Link(n, false) {
            SwapStep(s, x, o, t);
            o' := o[prev := t];
          } else {
            RetryStep(s, x, o, t);
          }
        case U4(n, _, _) =>
          RemoveReady(s, x, o, t);
          RemoveStep(s, x, o, t);
          x' := WithPhase(x, n, Gone);
        case U5(n, _, prev) => BypassStep(s, x, o, t); o' := o - {n, prev};
      }
  }

  /* The list the operations build. */

  function IndexOf(l: seq<Node>, n: Node): (i: nat)
    requires n in l
    ensures i < |l| && l[i] == n
  {
    if l[0] == n then 0 else IndexOf(l[1..], n) + 1
  }

  function InsertAfter(l: seq<Node>, n: Node, nr: Node): seq<Node> {
    if n in l then l[..IndexOf(l, n) + 1] + [nr] + l[IndexOf(l, n) + 1..] else l
  }

  function Without(l: seq<Node>, n: Node): seq<Node> {
    if n in l then l[..IndexOf(l, n)] + l[IndexOf(l, n) + 1..] else l
  }

  /** What one step does to the list. */
  function Effect(s: State, a: Action, l: seq<Node>): seq<Node> {
    var pc := PcOf(s, a.t);
    if a.Step? && pc.S3? then InsertAfter(l, pc.n, pc.nr)
    else if a.Step? && pc.U4? then Without(l, pc.n)
    else l
  }

  ghost predicate IsListing(x: Aux, l: seq<Node>) {
    && (forall i, j :: 0 <= i < j < |l| ==> Before(x, l[i], l[j]))
    && (forall a :: In(x, a) <==> a in l)
  }

  lemma InsertListing(x: Aux, x': Aux, l: seq<Node>, n: Node, nr: Node)
    requires IsListing(x, l) && Ordered(x') && Succ(x', n, nr) && !In(x, nr) && nr != NULL
    requires forall b :: In(x', b) <==> In(x, b) || b == nr
    requires forall b :: In(x, b) ==> Pos(x', b) == Pos(x, b)
    ensures IsListing(x', InsertAfter(l, n, nr))
  {
    assert n in l by { assert Before(x', n, nr); }
    hide Ordered, Before, Succ, In;
    var k := IndexOf(l, n);
    var l' := InsertAfter(l, n, nr);
    forall i, j | 0 <= i < j < |l'|
      ensures Before(x', l'[i], l'[j])
    {
      InsertedBefore(x, x', l, n, nr, k, i, j);
    }
    forall a
      ensures a in l' <==> a in l || a == nr
    {
      InsertedMembers(l, k, nr, a);
    }
  }

  lemma InsertedMembers(l: seq<Node>, k: nat, nr: Node, a: Node)
    requires k < |l|
    ensures a in l[..k + 1] + [nr] + l[k + 1..] <==> a in l || a == nr
  {
    assert l == l[..k + 1] + l[k + 1..];
  }

  lemma InsertedBefore(x: Aux, x': Aux, l: seq<Node>, n: Node, nr: Node, k: nat, i: nat, j: nat)
    requires IsListing(x, l) && Ordered(x') && Succ(x', n, nr) && !In(x, nr) && nr != NULL && k < |l| && l[k] == n
    requires forall b :: In(x', b) <==> In(x, b) || b == nr
    requires forall b :: In(x, b) ==> Pos(x', b) == Pos(x, b)
    requires i < j < |l| + 1
    ensures var l' := l[..k + 1] + [nr] + l[k + 1..]; Before(x', l'[i], l'[j])
  {
    var l' := l[..k + 1] + [nr] + l[k + 1..];
    assert forall h :: 0 <= h < |l| ==> In(x, l[h]);
    if j == k + 1 {
      assert l'[i] == l[i] && (i < k ==> Before(x, l[i], l[k]));
    } else if i == k + 1 {
      assert l'[j] == l[j - 1] && Before(x, l[k], l[j - 1]) && l[j - 1] != nr;
      assert Before(x', n, l[j - 1]) && !Before(x', l[j - 1], nr);
    } else {
      var a, b := if i <= k then i else i - 1, if j <= k then j else j - 1;
      assert l'[i] == l[a] && l'[j] == l[b] && Before(x, l[a], l[b]);
    }
  }

  /** The leaves that stay are all but the one at `k`. */
  lemma WithoutMembers(x: Aux, l: seq<Node>, k: nat, a: Node)
    requires IsListing(x, l) && k < |l|
    ensures a in l[..k] + l[k + 1..] <==> a in l && a != l[k]
  {
    hide Before, In;
    var l' := l[..k] + l[k + 1..];
    if a in l && a != l[k] {
      var i :| 0 <= i < |l| && l[i] == a;
      assert l'[if i < k then i else i - 1] == a;
    }
    if a in l' {
      var i :| 0 <= i < |l'| && l'[i] == a;
      var j := if i < k then i else i + 1;
      assert l[j] == a;
      BeforeDistinct(x, l, if i < k then i else k, if i < k then k else i + 1);
    }
  }

  lemma BeforeDistinct(x: Aux, l: seq<Node>, i: nat, j: nat)
    requires IsListing(x, l) && i < j < |l|
    ensures l[i] != l[j]
  {
    assert Before(x, l[i], l[j]);
  }

  lemma RemovedBefore(x: Aux, x': Aux, l: seq<Node>, k: nat, i: nat, j: nat)
    requires IsListing(x, l) && k < |l| && i < j < |l| - 1
    requires forall b :: In(x, b) ==> Pos(x', b) == Pos(x, b)
    ensures var l' := l[..k] + l[k + 1..]; Before(x', l'[i], l'[j])
  {
    var a, b := if i < k then i else i + 1, if j < k then j else j + 1;
    assert Before(x, l[a], l[b]) && In(x, l[a]) && In(x, l[b]);
  }

  lemma RemoveListing(x: Aux, x': Aux, l: seq<Node>, n: Node)
    requires IsListing(x, l) && In(x, n)
    requires forall b :: In(x', b) <==> In(x, b) && b != n
    requires forall b :: In(x, b) ==> Pos(x', b) == Pos(x, b)
    ensures IsListing(x', Without(l, n))
  {
    hide Before, In;
    var k := IndexOf(l, n);
    var l' := Without(l, n);
    forall i, j | 0 <= i < j < |l'|
      ensures Before(x', l'[i], l'[j])
    {
      RemovedBefore(x, x', l, k, i, j);
    }
    forall a
      ensures In(x', a) <==> a in l'
    {
      WithoutMembers(x, l, k, a);
    }
  }

  lemma ListingStep(s: State, a: Action, x: Aux, x': Aux, l: seq<Node>)
    requires Ordered(x') && IsListing(x, l) && ListStep(s, a, x, x')
    requires a.Step? && PcOf(s, a.t).S3? ==> PcOf(s, a.t).nr != NULL
    ensures IsListing(x', Effect(s, a, l))
  {
    var pc := PcOf(s, a.t);
    if a.Step? && pc.S3? {
      InsertListing(x, x', l, pc.n, pc.nr);
    } else if a.Step? && pc.U4? {
      RemoveListing(x, x', l, pc.n);
    } else {
      forall i, j | 0 <= i < j < |l|
        ensures Before(x', l[i], l[j])
      {
        assert Before(x, l[i], l[j]) && In(x, l[i]) && In(x, l[j]);
      }
    }
  }

  /* Whole runs. */

  ghost predicate Run(states: seq<State>, actions: seq<Action>) {
    && |states| == |actions| + 1 && Init(states[0])
    && forall i :: 0 <= i < |actions| ==> Enabled(states[i], actions[i]) && states[i + 1] == Next(states[i], actions[i])
  }

  /** The sequential result: the operations applied one after the other, each at its write of
      the neighbour's prev pointer. */
  function Listed(states: seq<State>, actions: seq<Action>): seq<Node>
    requires |states| == |actions| + 1
  {
    if actions == [] then [HEAD]
    else
      var k := |actions| - 1;
      Effect(states[k], actions[k], Listed(states[..k + 1], actions[..k]))
  }

  lemma {:induction false} RunInvariant(states: seq<State>, actions: seq<Action>) returns (x: Aux, o: Owners)
    requires Run(states, actions)
    ensures Inv(states[|actions|], x, o) && IsListing(x, Listed(states, actions))
  {
    hide Inv, Next, Enabled, Init, IsListing, ListStep, Effect, Succ, Ordered;
    if actions == [] {
      x, o := Aux(map[HEAD := 0.0], map[HEAD := Linked]), map[];
      InitInvariant(states[0]);
      InitListing();
    } else {
      var k := |actions| - 1;
      var l := Listed(states[..k + 1], actions[..k]);
      var y, p := RunInvariant(states[..k + 1], actions[..k]);
      x, o := StepSafe(states[k], y, p, actions[k]);
      Parts(states[k + 1], x, o);
      if actions[k].Step? && PcOf(states[k], actions[k].t).S3? { InsertReady(states[k], y, p, actions[k].t); }
      ListingStep(states[k], actions[k], y, x, l);
    }
  }

  lemma InitListing()
    ensures IsListing(Aux(map[HEAD := 0.0], map[HEAD := Linked]), [HEAD])
  {
  }

  ghost predicate PointsTo(s: State, a: Node, b: Node) { b != NULL && a in s.next && s.next[a].ptr == b }

  ghost function After(x: Aux, a: Node): set<Node> { set c | c in x.pos && Before(x, a, c) }

  /** A walk from `a` to `v` over next pointers, marks stripped. */
  ghost predicate Walk(s: State, path: seq<Node>, a: Node, v: Node) {
    && |path| > 0 && path[0] == a && path[|path| - 1] == v
    && forall i, j :: 0 <= i && j == i + 1 < |path| ==> PointsTo(s, path[i], path[j])
  }

  ghost predicate Forward(x: Aux, path: seq<Node>) { forall i, j :: 0 <= i < j < |path| ==>
      Before(x, path[i], path[j]) }

  lemma ForwardCons(x: Aux, a: Node, path: seq<Node>)
    requires Forward(x, path) && path != [] && Before(x, a, path[0])
    ensures Forward(x, [a] + path)
  {
    var p := [a] + path;
    forall i, j | 0 <= i < j < |p|
      ensures Before(x, p[i], p[j])
    {
      if i == 0 && j > 1 { assert Before(x, path[0], path[j - 1]); }
    }
  }

  lemma {:induction false} WalkTo(s: State, x: Aux, a: Node, v: Node) returns (path: seq<Node>)
    requires Shape(s, x) && NoSkip(s, x) && a in s.next && PhaseOf(x, v) == Linked && (a == v || Before(x, a, v))
    ensures Walk(s, path, a, v) && Forward(x, path)
    ensures forall w :: PhaseOf(x, w) == Linked && !Before(x, w, a) && !Before(x, v, w) ==> w in path
    decreases After(x, a)
  {
    assert EdgeOk(x, a, NextOf(s, a).ptr);
    if a == v {
      path := [a];
    } else {
      var b := NextOf(s, a).ptr;
      assert Shared(x, b) && Before(x, a, b) && b in x.pos;
      assert b in After(x, a) && b !in After(x, b) && After(x, b) <= After(x, a);
      var rest := WalkTo(s, x, b, v);
      path := [a] + rest;
      ForwardCons(x, a, rest);
      forall w | PhaseOf(x, w) == Linked && !Before(x, w, a) && !Before(x, v, w)
        ensures w in path
      {
        if w != a { assert Before(x, a, w); }
      }
    }
  }

  /** All of a listed leaf's linking is done except, perhaps, its own appearance in n.next. */
  ghost predicate Appearing(s: State, v: Node) {
    v in s.locks && PcOf(s, s.locks[v]).S4? && PcOf(s, s.locks[v]).nr == v
  }

  /** In every state of every run, a walk over next pointers, whatever their marks, leads from the
      head to each listed leaf (one whose last linking write is still to come excepted), in list
      order and past no other listed leaf. */
  lemma RunReachable(states: seq<State>, actions: seq<Action>, v: Node) returns (path: seq<Node>)
    requires Run(states, actions)
    requires v in Listed(states, actions) && !Appearing(states[|actions|], v)
    ensures var s, l := states[|actions|], Listed(states, actions);
            && Walk(s, path, HEAD, v)
            && (forall i, j, p, q ::
                  && 0 <= i < j < |path| && 0 <= p < |l| && 0 <= q < |l|
                  && path[i] == l[p] && path[j] == l[q] ==>
                    p < q)
            && (forall p, q :: 0 <= p < q < |l| && l[q] == v && !Appearing(s, l[p]) ==> l[p] in path)
  {
    hide Init, Next, Enabled, Succ, NextExact, PrevExact, Threads, Walk, EdgeOk, NoSkip;
    var s, l := states[|actions|], Listed(states, actions);
    var x, o := RunInvariant(states, actions);
    assert Shape(s, x) && NoSkip(s, x) && Exclusive(s, x, o);
    assert HEAD in s.next by { assert Shared(x, HEAD); }
    ListedLinked(s, x, o, l, v);
    assert v != HEAD ==> Before(x, HEAD, v) by { assert Born(x, v); }
    path := WalkTo(s, x, HEAD, v);
    forall i, j, p, q | 0 <= i < j < |path| && 0 <= p < |l| && 0 <= q < |l| && path[i] == l[p] && path[j] == l[q]
      ensures p < q
    {
      assert Before(x, path[i], path[j]);
      assert q < p ==> Before(x, l[q], l[p]);
    }
    forall p, q | 0 <= p < q < |l| && l[q] == v && !Appearing(s, l[p])
      ensures l[p] in path
    {
      ListedLinked(s, x, o, l, l[p]);
      assert Before(x, l[p], l[q]);
      assert l[p] != HEAD ==> Before(x, HEAD, l[p]) by { assert Born(x, l[p]); }
    }
  }

  /** A listed leaf can be reached from the head over next pointers if and only if it is not one whose
      publishing write is still to come. In particular every leaf that callers may work on can. */
  lemma RunReachableExactly(states: seq<State>, actions: seq<Action>, v: Node)
    requires Run(states, actions) && v in Listed(states, actions)
    ensures (exists path :: Walk(states[|actions|], path, HEAD, v)) <==> !Appearing(states[|actions|], v)
    ensures v in states[|actions|].linked ==> !Appearing(states[|actions|], v)
  {
    hide Init, Next, Enabled, Succ, NextExact, PrevExact, Before, Walk, Listed;
    var s := states[|actions|];
    var x, o := RunInvariant(states, actions);
    if Appearing(s, v) {
      assert ThreadOk(s, x, s.pcs[s.locks[v]]);
      forall path
        ensures !Walk(s, path, HEAD, v)
      {
        NotPointedTo(s, x, path, v);
      }
    } else {
      var path := RunReachable(states, actions, v);
    }
  }

  /** No next pointer leads to a leaf that is still joining. */
  lemma NotPointedTo(s: State, x: Aux, path: seq<Node>, v: Node)
    requires NoSkip(s, x) && PhaseOf(x, v) == Joining && PhaseOf(x, HEAD) == Linked
    ensures !Walk(s, path, HEAD, v)
  {
    if |path| >= 2 {
      var i, j := |path| - 2, |path| - 1;
      assert NextOf(s, path[i]).ptr == v && path[i] in s.next ==> EdgeOk(x, path[i], v);
      assert !PointsTo(s, path[i], v);
    }
  }

  lemma ListedLinked(s: State, x: Aux, o: Owners, l: seq<Node>, v: Node)
    requires Exclusive(s, x, o) && IsListing(x, l) && v in l && !Appearing(s, v)
    requires Threads(s, x)
    ensures PhaseOf(x, v) == Linked
  {
    hide Succ, Adjacent, Before;
    if PhaseOf(x, v) == Joining {
      assert Uses(s.pcs[s.locks[v]], v);
      assert ThreadOk(s, x, s.pcs[s.locks[v]]);
    }
  }

  /** In every state of every run, a marked next pointer of a listed leaf has exactly one owner. */
  lemma RunMarkOwner(states: seq<State>, actions: seq<Action>, a: Node) returns (t: Thread)
    requires Run(states, actions) && a in Listed(states, actions) && NextOf(states[|actions|], a).marked
    ensures var s := states[|actions|];
            && t in s.pcs && Owns(s.pcs[t], a)
            && forall u :: u in s.pcs && Owns(s.pcs[u], a) ==> u == t
  {
    hide Init, Next, Enabled, Succ, NoSkip, PrevExact, Threads;
    var x, o := RunInvariant(states, actions);
    var s := states[|actions|];
    assert In(x, a) && LinkOk(x, o, a, NextOf(s, a)) && OwnersOk(s, o);
    t := o[a];
  }

  /* The list at rest and the single-threaded version. */

  /** `next` and `prev` hold exactly the list `l`: each is the inverse of the other along it. */
  ghost predicate IsList(next: map<Node, Node>, prev: map<Node, Node>, l: seq<Node>) {
    && (forall i :: 0 <= i < |l| ==> l[i] != NULL && l[i] in next && l[i] in prev)
    && (forall i, j :: 0 <= i && j == i + 1 < |l| ==> next[l[i]] == l[j] && prev[l[j]] == l[i])
    && (l != [] ==> next[l[|l| - 1]] == NULL)
    && (forall i, j :: 0 <= i < j < |l| ==> l[i] != l[j])
  }

  function Pointers(next: map<Node, Link>): map<Node, Node> { map a | a in next :: next[a].ptr }

  ghost predicate Quiet(s: State) { forall t :: t in s.pcs ==> s.pcs[t].Idle? }

  lemma BeforeIndex(x: Aux, l: seq<Node>, i: nat, j: nat)
    requires IsListing(x, l) && i < |l| && j < |l|
    ensures Before(x, l[i], l[j]) <==> i < j
  {
    if j < i { assert Before(x, l[j], l[i]); }
  }

  lemma ListingSucc(x: Aux, l: seq<Node>, i: nat)
    requires IsListing(x, l) && i < |l| && NULL !in l
    ensures Succ(x, l[i], if i + 1 < |l| then l[i + 1] else NULL)
  {
    forall j | 0 <= j < |l|
      ensures Before(x, l[i], l[j]) <==> i < j
      ensures i + 1 < |l| ==> (Before(x, l[j], l[i + 1]) <==> j < i + 1)
    {
      BeforeIndex(x, l, i, j);
      if i + 1 < |l| { BeforeIndex(x, l, j, i + 1); }
    }
    hide Before;
  }

  lemma QuietNext(s: State, x: Aux, o: Owners, a: Node, b: Node)
    requires Inv(s, x, o) && Quiet(s) && Succ(x, a, b)
    ensures a in s.next && NextOf(s, a) == Link(b, false) && (b != NULL ==> PrevOf(s, b) == a && b in s.prev)
  {
    hide Before, NoSkip, Threads, JoiningOk, LocksOk;
    assert In(x, a) && Shared(x, a);
    assert LinkOk(x, o, a, NextOf(s, a));
    assert a !in o;
    SuccUnique(x, a, b, NextOf(s, a).ptr);
  }

  lemma QuietAt(s: State, x: Aux, o: Owners, l: seq<Node>, i: nat)
    requires Inv(s, x, o) && Quiet(s) && IsListing(x, l) && i < |l|
    ensures l[i] != NULL && l[i] in s.next && NextOf(s, l[i]) == Link(if i + 1 < |l| then l[i + 1] else NULL, false)
    ensures l[i] in s.prev && (i + 1 < |l| ==> PrevOf(s, l[i + 1]) == l[i])
  {
    hide Inv, Succ, Quiet, Ordered;
    Parts(s, x, o);
    NullUnborn(x);
    BornPrev(s, x, o, l[i]);
    hide PrevExact, NextExact, Threads, Exclusive, Shape, NoSkip;
    ListingSucc(x, l, i);
    QuietNext(s, x, o, l[i], if i + 1 < |l| then l[i + 1] else NULL);
  }

  ghost predicate AtRest(s: State, l: seq<Node>) {
    IsList(Pointers(s.next), s.prev, l) && forall i :: 0 <= i < |l| ==> !NextOf(s, l[i]).marked
  }

  lemma QuietList(s: State, x: Aux, o: Owners, l: seq<Node>)
    requires Inv(s, x, o) && Quiet(s) && IsListing(x, l)
    ensures AtRest(s, l)
  {
    hide Inv, Quiet, IsListing;
    forall i | 0 <= i < |l|
      ensures l[i] != NULL && l[i] in s.next && l[i] in s.prev && !NextOf(s, l[i]).marked
    {
      QuietAt(s, x, o, l, i);
    }
    forall i, j | 0 <= i && j == i + 1 < |l|
      ensures s.next[l[i]].ptr == l[j] && s.prev[l[j]] == l[i]
    {
      QuietAt(s, x, o, l, i);
    }
    if l != [] { QuietAt(s, x, o, l, |l| - 1); }
    forall i, j | 0 <= i < j < |l|
      ensures l[i] != l[j]
    {
      BeforeDistinct(x, l, i, j);
    }
  }

  /** Whenever no operation is under way, next and prev are inverse, no mark is left, and the list
      is the result of the operations taken one after the other. */
  lemma RunQuiet(states: seq<State>, actions: seq<Action>)
    requires Run(states, actions) && Quiet(states[|actions|])
    ensures AtRest(states[|actions|], Listed(states, actions))
  {
    hide Inv, Quiet, Next, Enabled, Init, IsListing, AtRest;
    var x, o := RunInvariant(states, actions);
    QuietList(states[|actions|], x, o, Listed(states, actions));
  }

  lemma BornPrev(s: State, x: Aux, o: Owners, a: Node)
    requires Inv(s, x, o) && In(x, a)
    ensures a in s.prev
  {
    assert a in x.phase;
  }

  /** The single-threaded list. */
  class LeafList {
    var next: map<Node, Node>
    var prev: map<Node, Node>

    constructor ()
      ensures IsList(next, prev, [HEAD])
    {
      next, prev := map[HEAD := NULL], map[HEAD := NULL];
    }

    method LinkSplit(n: Node, nr: Node, ghost l: seq<Node>)
      requires IsList(next, prev, l) && n in l && nr !in l && nr != NULL
      modifies this
      ensures IsList(next, prev, InsertAfter(l, n, nr))
    {
      prev := prev[nr := n];
      next := next[nr := next[n]];
      next := next[n := nr];
      if next[nr] != NULL {
        prev := prev[next[nr] := nr];
      }
      InsertIsList(old(next), old(prev), l, IndexOf(l, n), nr);
    }

    method Unlink(n: Node, ghost l: seq<Node>)
      requires IsList(next, prev, l) && n in l && n != l[0]
      modifies this
      ensures IsList(next, prev, Without(l, n))
    {
      RemoveIsList(next, prev, l, IndexOf(l, n));
      if next[n] != NULL {
        prev := prev[next[n] := prev[n]];
      }
      next := next[prev[n] := next[n]];
    }
  }

  lemma InsertIsList(next: map<Node, Node>, prev: map<Node, Node>, l: seq<Node>, k: nat, nr: Node)
    requires IsList(next, prev, l) && k < |l| && nr !in l && nr != NULL
    ensures var p := prev[nr := l[k]];
            IsList(next[nr := next[l[k]]][l[k] := nr], if next[l[k]] != NULL then p[next[l[k]] := nr] else p,
                   l[..k + 1] + [nr] + l[k + 1..])
  {
    var l' := l[..k + 1] + [nr] + l[k + 1..];
    var next' := next[nr := next[l[k]]][l[k] := nr];
    var prev' := if next[l[k]] != NULL then prev[nr := l[k]][next[l[k]] := nr] else prev[nr := l[k]];
    assert next[l[k]] == if k + 1 < |l| then l[k + 1] else NULL;
    forall i, j | 0 <= i && j == i + 1 < |l'|
      ensures next'[l'[i]] == l'[j] && prev'[l'[j]] == l'[i]
    {
      if i < k {
        assert l'[i] == l[i] && l'[j] == l[j];
      } else if i > k + 1 {
        assert l'[i] == l[i - 1] && l'[j] == l[j - 1];
      }
    }
  }

  lemma RemoveIsList(next: map<Node, Node>, prev: map<Node, Node>, l: seq<Node>, k: nat)
    requires IsList(next, prev, l) && 0 < k < |l|
    ensures l[k] in prev && prev[l[k]] in next
    ensures IsList(next[prev[l[k]] := next[l[k]]], if next[l[k]] != NULL then prev[next[l[k]] := prev[l[k]]] else prev,
                   l[..k] + l[k + 1..])
  {
    var l' := l[..k] + l[k + 1..];
    assert prev[l[k]] == l[k - 1] by { var i, j := k - 1, k; assert next[l[i]] == l[j] && prev[l[j]] == l[i]; }
    assert next[l[k]] == if k + 1 < |l| then l[k + 1] else NULL;
    var next' := next[prev[l[k]] := next[l[k]]];
    var prev' := if next[l[k]] != NULL then prev[next[l[k]] := prev[l[k]]] else prev;
    forall i, j | 0 <= i && j == i + 1 < |l'|
      ensures next'[l'[i]] == l'[j] && prev'[l'[j]] == l'[i]
    {
      if i < k - 1 {
        assert l'[i] == l[i] && l'[j] == l[j];
      } else if i >= k {
        assert l'[i] == l[i + 1] && l'[j] == l[j + 1];
      }
    }
  }
}
