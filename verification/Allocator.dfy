/** The lock-free bump allocator of base nodes: chunks that grow downwards and a list of them. */
module ChunkAllocation {
  import opened Options

  type Thread = nat

  /** A chunk owns the addresses `[0, size)` of its own; `tail` moves down towards `limit` 0 and may
      pass below it. */
  datatype Chunk = Chunk(size: nat, tail: int, next: Option<nat>)

  /** What `Allocate` handed out: `[start, start + size)` of a chunk. */
  datatype Region = Region(chunk: nat, start: int, size: nat)

  datatype Pc =
    | Idle
    | Guard(chunk: nat, size: nat)      // is about to test the tail
    | Subtract(chunk: nat, size: nat)   // is about to subtract from the tail
    | Grow(chunk: nat, size: nat)       // is about to read the next pointer
    | Install(chunk: nat, size: nat)    // is about to compare-and-swap the next pointer

  datatype State = State(chunks: seq<Chunk>, pcs: seq<Pc>, regions: seq<Region>, chunkSize: nat, largest: nat)

  datatype Action = Allocate(t: Thread, size: nat) | Step(t: Thread)

  const LIMIT := 0

  ghost predicate Enabled(s: State, a: Action) {
    match a
    case Allocate(t, size) => t < |s.pcs| && s.pcs[t].Idle? && size <= s.largest && s.chunks != []
    case Step(t) => t < |s.pcs| && !s.pcs[t].Idle? && s.pcs[t].chunk < |s.chunks|
  }

  ghost function At(s: State, t: Thread, pc: Pc): State
    requires t < |s.pcs|
  {
    s.(pcs := s.pcs[t := pc])
  }

  ghost function Next(s: State, a: Action): State
    requires Enabled(s, a)
  {
    match a
    case Allocate(t, size) => At(s, t, Guard(0, size))
    case Step(t) =>
      var c := s.pcs[t].chunk;
      match s.pcs[t]
      case Guard(_, size) => At(s, t, if s.chunks[c].tail < LIMIT then Grow(c, size) else Subtract(c, size))
      case Subtract(_, size) =>
        var newTail := s.chunks[c].tail - size;
        var s' := s.(chunks := s.chunks[c := s.chunks[c].(tail := newTail)]);
        if newTail < LIMIT then At(s', t, Grow(c, size))
        else At(s', t, Idle).(regions := s.regions + [Region(c, newTail, size)])
      case Grow(_, size) =>
        At(s, t, if s.chunks[c].next.Some? then Guard(s.chunks[c].next.value, size) else Install(c, size))
      case Install(_, size) =>
        if s.chunks[c].next.None? then
          At(s, t, Guard(|s.chunks|, size))
            .(chunks := s.chunks[c := s.chunks[c].(next := Some(|s.chunks|))] + [Chunk(s.chunkSize, s.chunkSize, None)])
        else At(s, t, Guard(s.chunks[c].next.value, size))
      case Idle => s
  }

  ghost predicate Init(s: State) {
    && |s.chunks| == 1 && s.chunks[0].next.None? && s.chunks[0].tail == s.chunks[0].size
    && s.regions == [] && forall t :: 0 <= t < |s.pcs| ==> s.pcs[t].Idle?
  }

  /** The threads that have passed the guard of a chunk and will still subtract from its tail. */
  ghost function Pending(s: State, c: nat): set<Thread> {
    set t: Thread | t < |s.pcs| && s.pcs[t].Subtract? && s.pcs[t].chunk == c
  }

  ghost predicate Disjoint(a: Region, b: Region) {
    a.chunk != b.chunk || a.start + a.size <= b.start || b.start + b.size <= a.start
  }

  ghost predicate Inside(s: State, r: Region) {
    r.chunk < |s.chunks| && LIMIT <= r.start && r.start + r.size <= s.chunks[r.chunk].size
  }

  ghost predicate RegionsOk(s: State) {
    && (forall i :: 0 <= i < |s.regions| ==>
        Inside(s, s.regions[i]) && s.chunks[s.regions[i].chunk].tail <= s.regions[i].start)
    && (forall i, j :: 0 <= i < j < |s.regions| ==> Disjoint(s.regions[i], s.regions[j]))
  }

  ghost predicate ChunkOk(s: State, c: nat)
    requires c < |s.chunks|
  {
    && s.chunks[c].tail <= s.chunks[c].size
    && LIMIT - s.chunks[c].tail <= (|s.pcs| - |Pending(s, c)|) * s.largest
    && (s.chunks[c].next.Some? ==> s.chunks[c].next.value < |s.chunks|)
  }

  ghost predicate Inv(s: State) {
    && s.chunks != [] && RegionsOk(s)
    && (forall c :: 0 <= c < |s.chunks| ==> ChunkOk(s, c))
    && (forall t :: 0 <= t < |s.pcs| && !s.pcs[t].Idle? ==> s.pcs[t].chunk < |s.chunks| && s.pcs[t].size <= s.largest)
  }

  lemma {:induction false} AtMost(ts: set<Thread>, n: nat)
    requires forall t :: t in ts ==> t < n
    ensures |ts| <= n
  {
    if n == 0 {
      assert ts == {};
    } else {
      AtMost(ts - {n - 1}, n - 1);
    }
  }

  lemma PendingFew(s: State, c: nat)
    ensures |Pending(s, c)| <= |s.pcs|
  {
    AtMost(Pending(s, c), |s.pcs|);
  }

  lemma PendingSame(s: State, s': State, c: nat)
    requires |s'.pcs| == |s.pcs|
    requires forall u :: 0 <= u < |s.pcs| ==>
      ((s'.pcs[u].Subtract? && s'.pcs[u].chunk == c) <==> (s.pcs[u].Subtract? && s.pcs[u].chunk == c))
    ensures Pending(s', c) == Pending(s, c)
  {
  }

  /** Thread `t` enters the pending ones of `c` when going from `s` to `s'`. */
  lemma PendingEnter(s: State, s': State, t: Thread, c: nat)
    requires t < |s.pcs| == |s'.pcs| && s'.pcs == s.pcs[t := s'.pcs[t]]
    requires !s.pcs[t].Subtract? && s'.pcs[t].Subtract? && s'.pcs[t].chunk == c
    ensures |Pending(s', c)| == |Pending(s, c)| + 1
  {
    assert Pending(s', c) == Pending(s, c) + {t};
  }

  /* Each step keeps the invariant. */

  lemma ChunksKept(s: State, s': State)
    requires Inv(s) && |s'.pcs| == |s.pcs| && s'.largest == s.largest && s'.chunks == s.chunks
    requires forall c :: 0 <= c < |s.chunks| ==> Pending(s', c) == Pending(s, c)
    ensures forall c :: 0 <= c < |s'.chunks| ==> ChunkOk(s', c)
  {
    hide Pending;
    forall c | 0 <= c < |s'.chunks|
      ensures ChunkOk(s', c)
    {
      assert ChunkOk(s, c);
    }
  }

  lemma MoveSafe(s: State, t: Thread, pc: Pc)
    requires Inv(s) && t < |s.pcs| && !s.pcs[t].Subtract? && !pc.Subtract?
    requires !pc.Idle? ==> pc.chunk < |s.chunks| && pc.size <= s.largest
    ensures Inv(At(s, t, pc))
  {
    var s' := At(s, t, pc);
    forall c
      ensures Pending(s', c) == Pending(s, c)
    {
      PendingSame(s, s', c);
    }
    ChunksKept(s, s');
  }

  lemma NonNegative(n: nat, pending: nat, largest: nat)
    requires pending <= n
    ensures 0 <= (n - pending) * largest
  {
  }

  lemma PassGuardSafe(s: State, t: Thread, c: nat, size: nat)
    requires Inv(s) && t < |s.pcs| && s.pcs[t] == Guard(c, size) && c < |s.chunks| && s.chunks[c].tail >= LIMIT
    ensures Inv(At(s, t, Subtract(c, size)))
  {
    var s' := At(s, t, Subtract(c, size));
    forall d | 0 <= d < |s.chunks|
      ensures Pending(s', d) == Pending(s, d) || (d == c && |Pending(s', d)| <= |s.pcs|)
    {
      if d == c { PendingFew(s', c); } else { PendingSame(s, s', d); }
    }
    hide Pending, RegionsOk;
    assert RegionsOk(s') by { SameRegions(s, s'); }
    forall d | 0 <= d < |s.chunks|
      ensures ChunkOk(s', d)
    {
      assert ChunkOk(s, d);
      if d == c && |Pending(s', d)| <= |s.pcs| { NonNegative(|s.pcs|, |Pending(s', d)|, s.largest); }
    }
  }

  lemma SameRegions(s: State, s': State)
    requires RegionsOk(s) && s'.chunks == s.chunks && s'.regions == s.regions
    ensures RegionsOk(s')
  {
  }

  lemma SubtractChunks(s: State, s': State, t: Thread)
    requires Inv(s) && t < |s.pcs| == |s'.pcs| && s.pcs[t].Subtract? && s'.pcs == s.pcs[t := s'.pcs[t]]
    requires !s'.pcs[t].Subtract?
    requires var c := s.pcs[t].chunk;
             c < |s.chunks| && s'.chunks == s.chunks[c := s.chunks[c].(tail := s.chunks[c].tail - s.pcs[t].size)]
    requires s'.largest == s.largest
    ensures forall d :: 0 <= d < |s'.chunks| ==> ChunkOk(s', d)
  {
    var c := s.pcs[t].chunk;
    forall d | 0 <= d < |s'.chunks|
      ensures ChunkOk(s', d)
    {
      assert ChunkOk(s, d);
      if d == c {
        assert s.pcs == s'.pcs[t := s.pcs[t]];
        PendingEnter(s', s, t, c);
        OneMore(|s.pcs|, |Pending(s, c)|, |Pending(s', c)|, s.largest);
      } else {
        PendingSame(s, s', d);
      }
    }
  }

  lemma OneMore(n: nat, before: nat, after: nat, largest: nat)
    requires before == after + 1
    ensures (n - after) * largest == (n - before) * largest + largest
  {
  }

  lemma SubtractSafe(s: State, t: Thread)
    requires Inv(s) && Enabled(s, Step(t)) && s.pcs[t].Subtract?
    ensures Inv(Next(s, Step(t)))
  {
    var s' := Next(s, Step(t));
    var c := s.pcs[t].chunk;
    SubtractChunks(s, s', t);
    assert ChunkOk(s, c);
    hide Pending;
    forall i | 0 <= i < |s'.regions|
      ensures Inside(s', s'.regions[i]) && s'.chunks[s'.regions[i].chunk].tail <= s'.regions[i].start
    {
      if i < |s.regions| { assert Inside(s, s.regions[i]); }
    }
  }

  lemma InstallSafe(s: State, t: Thread)
    requires Inv(s) && Enabled(s, Step(t)) && s.pcs[t].Install? && s.chunks[s.pcs[t].chunk].next.None?
    ensures Inv(Next(s, Step(t)))
  {
    var s' := Next(s, Step(t));
    forall d | 0 <= d < |s'.chunks|
      ensures ChunkOk(s', d)
    {
      if d < |s.chunks| {
        assert ChunkOk(s, d);
        PendingSame(s, s', d);
      } else {
        PendingFew(s', d);
      }
    }
    forall i | 0 <= i < |s'.regions|
      ensures Inside(s', s'.regions[i]) && s'.chunks[s'.regions[i].chunk].tail <= s'.regions[i].start
    {
      assert Inside(s, s.regions[i]);
    }
  }

  lemma StepSafe(s: State, a: Action)
    requires Inv(s) && Enabled(s, a)
    ensures Inv(Next(s, a))
    ensures |s.chunks| <= |Next(s, a).chunks| && s.regions <= Next(s, a).regions
    ensures forall c :: 0 <= c < |s.chunks| && s.chunks[c].next.Some? ==> Next(s, a).chunks[c].next == s.chunks[c].next
  {
    match a
    case Allocate(t, size) => MoveSafe(s, t, Guard(0, size));
    case Step(t) =>
      var c := s.pcs[t].chunk;
      assert ChunkOk(s, c);
      match s.pcs[t] {
        case Guard(_, size) =>
          if s.chunks[c].tail < LIMIT { MoveSafe(s, t, Grow(c, size)); } else { PassGuardSafe(s, t, c, size); }
        case Subtract(_, _) => SubtractSafe(s, t);
        case Grow(_, size) =>
          MoveSafe(s, t, if s.chunks[c].next.Some? then Guard(s.chunks[c].next.value, size) else Install(c, size));
        case Install(_, size) =>
          if s.chunks[c].next.None? { InstallSafe(s, t); } else { MoveSafe(s, t, Guard(s.chunks[c].next.value, size)); }
      }
  }

  /* Whole runs. */

  ghost predicate Run(states: seq<State>, actions: seq<Action>) {
    && |states| == |actions| + 1 && Init(states[0])
    && forall i :: 0 <= i < |actions| ==> Enabled(states[i], actions[i]) && states[i + 1] == Next(states[i], actions[i])
  }

  lemma InitInvariant(s: State)
    requires Init(s)
    ensures Inv(s)
  {
    PendingFew(s, 0);
  }

  lemma {:induction false} RunInvariant(states: seq<State>, actions: seq<Action>, i: nat)
    requires Run(states, actions) && i <= |actions|
    ensures Inv(states[i]) && |states[i].pcs| == |states[0].pcs| && states[i].largest == states[0].largest
  {
    if i == 0 {
      InitInvariant(states[0]);
    } else {
      RunInvariant(states, actions, i - 1);
      StepSafe(states[i - 1], actions[i - 1]);
    }
  }

  /** In every run all regions handed out lie inside one chunk each and are pairwise disjoint, and no
      tail is ever further below its limit than one largest request per thread. */
  lemma RunRegions(states: seq<State>, actions: seq<Action>, i: nat)
    requires Run(states, actions) && i <= |actions|
    ensures var s := states[i];
            && (forall j :: 0 <= j < |s.regions| ==> Inside(s, s.regions[j]))
            && (forall j, k :: 0 <= j < k < |s.regions| ==> Disjoint(s.regions[j], s.regions[k]))
            && (forall c :: 0 <= c < |s.chunks| ==> LIMIT - |states[0].pcs| * states[0].largest <= s.chunks[c].tail)
  {
    RunInvariant(states, actions, i);
    var s := states[i];
    forall c | 0 <= c < |s.chunks|
      ensures LIMIT - |states[0].pcs| * states[0].largest <= s.chunks[c].tail
    {
      assert ChunkOk(s, c);
      Fewer(|s.pcs|, |Pending(s, c)|, s.largest);
    }
  }

  lemma Fewer(n: nat, pending: nat, largest: nat)
    ensures (n - pending) * largest <= n * largest
  {
  }

  /** In every run a next pointer that is set stays what it is. */
  lemma {:induction false} RunNextOnce(states: seq<State>, actions: seq<Action>, i: nat, j: nat, c: nat)
    requires Run(states, actions) && i <= j <= |actions| && c < |states[i].chunks| && states[i].chunks[c].next.Some?
    ensures c < |states[j].chunks| && states[j].chunks[c].next == states[i].chunks[c].next
    decreases j
  {
    if i < j {
      RunNextOnce(states, actions, i, j - 1, c);
      RunInvariant(states, actions, j - 1);
      StepSafe(states[j - 1], actions[j - 1]);
    }
  }

  /* What a request gets. */

  /** The step hands out a region. */
  ghost predicate Serves(s: State, a: Action)
    requires Enabled(s, a)
  {
    a.Step? && Next(s, a).pcs[a.t].Idle?
  }

  lemma StepRegions(s: State, a: Action)
    requires Enabled(s, a)
    ensures |Next(s, a).pcs| == |s.pcs|
    ensures !Serves(s, a) ==> Next(s, a).regions == s.regions
    ensures Serves(s, a) ==>
      && Next(s, a).regions[..|Next(s, a).regions| - 1] == s.regions && |Next(s, a).regions| == |s.regions| + 1
      && Next(s, a).regions[|s.regions|].size == s.pcs[a.t].size
  {
  }

  lemma StepSize(s: State, a: Action, t: Thread)
    requires Enabled(s, a) && t < |s.pcs|
    ensures !s.pcs[t].Idle? && !Next(s, a).pcs[t].Idle? ==> Next(s, a).pcs[t].size == s.pcs[t].size
    ensures s.pcs[t].Idle? != Next(s, a).pcs[t].Idle? ==> a.t == t
  {
  }

  lemma {:induction false} SizeKept(states: seq<State>, actions: seq<Action>, i: nat, j: nat, t: Thread)
    requires Run(states, actions) && i < j <= |actions| && actions[i].Allocate? && actions[i].t == t < |states[0].pcs|
    requires forall m :: i < m <= j ==> |states[m].pcs| == |states[0].pcs| && !states[m].pcs[t].Idle?
    ensures states[j].pcs[t].size == actions[i].size
    decreases j
  {
    hide Init;
    if i + 1 == j {
      assert states[j] == Next(states[i], actions[i]);
    } else {
      SizeKept(states, actions, i, j - 1, t);
      StepSize(states[j - 1], actions[j - 1], t);
    }
  }

  /** In every run, the step with which a call returns adds exactly one region, and that has the size
      the call asked for; no earlier step of the call adds any. */
  lemma RunServed(states: seq<State>, actions: seq<Action>, i: nat, j: nat, t: Thread)
    requires Run(states, actions) && i < j < |actions| && actions[i].Allocate? && actions[i].t == t < |states[0].pcs|
    requires forall m :: i < m <= j ==> t < |states[m].pcs| && !states[m].pcs[t].Idle?
    requires t < |states[j + 1].pcs| && states[j + 1].pcs[t].Idle?
    ensures actions[j] == Step(t) && |states[j + 1].regions| == |states[j].regions| + 1
    ensures states[j].regions == states[j + 1].regions[..|states[j].regions|]
    ensures states[j + 1].regions[|states[j].regions|].size == actions[i].size
    ensures forall m :: i <= m < j && actions[m].t == t ==> states[m + 1].regions == states[m].regions
  {
    hide Init, Inv;
    forall m | 0 <= m <= |actions|
      ensures |states[m].pcs| == |states[0].pcs|
    {
      RunInvariant(states, actions, m);
    }
    SizeKept(states, actions, i, j, t);
    StepSize(states[j], actions[j], t);
    StepRegions(states[j], actions[j]);
    forall m | i <= m < j && actions[m].t == t
      ensures states[m + 1].regions == states[m].regions
    {
      StepRegions(states[m], actions[m]);
      assert states[m + 1] == Next(states[m], actions[m]);
    }
  }

  /* Where the bytes of a chunk go. */

  ghost function Taken(regions: seq<Region>, c: nat): nat {
    if regions == [] then 0
    else
      var n := |regions| - 1;
      Taken(regions[..n], c) + if regions[n].chunk == c then regions[n].size else 0
  }

  /** What a request that does not fit takes from the tail of chunk `c` in vain. */
  ghost function Wasted(s: State, a: Action, c: nat): nat
    requires Enabled(s, a)
  {
    if a.Step? && s.pcs[a.t].Subtract? && s.pcs[a.t].chunk == c && s.chunks[c].tail - s.pcs[a.t].size < LIMIT
    then s.pcs[a.t].size else 0
  }

  ghost function Lost(states: seq<State>, actions: seq<Action>, n: nat, c: nat): nat
    requires Run(states, actions) && n <= |actions|
  {
    if n == 0 then 0 else Lost(states, actions, n - 1, c) + Wasted(states[n - 1], actions[n - 1], c)
  }

  lemma {:induction false} TakenNothing(regions: seq<Region>, c: nat)
    requires forall i :: 0 <= i < |regions| ==> regions[i].chunk < c
    ensures Taken(regions, c) == 0
  {
    if regions != [] { TakenNothing(regions[..|regions| - 1], c); }
  }

  lemma TakenMore(regions: seq<Region>, r: Region, c: nat)
    ensures Taken(regions + [r], c) == Taken(regions, c) + if r.chunk == c then r.size else 0
  {
    assert (regions + [r])[..|regions|] == regions;
  }

  lemma StepAccounts(s: State, a: Action, c: nat)
    requires Inv(s) && Enabled(s, a) && c < |Next(s, a).chunks|
    ensures c < |s.chunks| ==> Next(s, a).chunks[c].size == s.chunks[c].size
    ensures c < |s.chunks| ==>
      s.chunks[c].tail - Next(s, a).chunks[c].tail ==
      Taken(Next(s, a).regions, c) - Taken(s.regions, c) + Wasted(s, a, c)
    ensures c >= |s.chunks| ==> Next(s, a).chunks[c].tail == Next(s, a).chunks[c].size && Wasted(s, a, c) == 0
    ensures c >= |s.chunks| ==> Taken(Next(s, a).regions, c) == 0
  {
    if a.Step? && s.pcs[a.t].Subtract? {
      var d, size := s.pcs[a.t].chunk, s.pcs[a.t].size;
      TakenMore(s.regions, Region(d, s.chunks[d].tail - size, size), c);
    }
    if c >= |s.chunks| {
      forall i | 0 <= i < |s.regions|
        ensures s.regions[i].chunk < c
      {
        assert Inside(s, s.regions[i]);
      }
      TakenNothing(s.regions, c);
    }
  }

  lemma {:induction false} LostNothing(states: seq<State>, actions: seq<Action>, n: nat, c: nat)
    requires Run(states, actions) && n <= |actions| && |states[n].chunks| <= c
    ensures Lost(states, actions, n, c) == 0
  {
    if n > 0 {
      RunInvariant(states, actions, n - 1);
      StepSafe(states[n - 1], actions[n - 1]);
      LostNothing(states, actions, n - 1, c);
    }
  }

  /** In every state of every run, what is missing from a chunk is what has been handed out of it and
      what requests that did not fit have taken in vain, and nothing else. */
  lemma {:induction false} RunAccounts(states: seq<State>, actions: seq<Action>, n: nat, c: nat)
    requires Run(states, actions) && n <= |actions| && c < |states[n].chunks|
    ensures states[n].chunks[c].size - states[n].chunks[c].tail ==
            Taken(states[n].regions, c) + Lost(states, actions, n, c)
  {
    hide Inv, Next, Wasted, Taken;
    if n == 0 {
      TakenNothing([], c);
    } else {
      RunInvariant(states, actions, n - 1);
      StepAccounts(states[n - 1], actions[n - 1], c);
      if c < |states[n - 1].chunks| {
        RunAccounts(states, actions, n - 1, c);
      } else {
        LostNothing(states, actions, n - 1, c);
      }
    }
  }

  /* A request that runs alone is served. */

  /** Next pointers lead to chunks that were made later. */
  ghost predicate Forward(s: State) {
    forall c :: 0 <= c < |s.chunks| && s.chunks[c].next.Some? ==> c < s.chunks[c].next.value < |s.chunks|
  }

  lemma {:induction false} RunForward(states: seq<State>, actions: seq<Action>, i: nat)
    requires Run(states, actions) && i <= |actions|
    ensures Forward(states[i])
  {
    if i > 0 {
      RunForward(states, actions, i - 1);
      RunInvariant(states, actions, i - 1);
    }
  }

  /** After `n` steps thread `t` has been served with `size` bytes, and nobody else has moved. */
  ghost predicate ServedAlone(s: State, t: Thread, size: nat, n: nat)
    decreases n
  {
    && n > 0 && Enabled(s, Step(t))
    && if Next(s, Step(t)).pcs[t].Idle? then
         var rs := Next(s, Step(t)).regions; rs != [] && rs[|rs| - 1].size == size
       else ServedAlone(Next(s, Step(t)), t, size, n - 1)
  }

  lemma ServeFromTail(s: State, t: Thread, c: nat, size: nat)
    requires t < |s.pcs| && s.pcs[t] == Guard(c, size) && c < |s.chunks| && s.chunks[c].tail >= size
    ensures ServedAlone(s, t, size, 2)
  {
    var s1 := Next(s, Step(t));
    assert s1.pcs[t] == Subtract(c, size);
    assert ServedAlone(s1, t, size, 1);
  }

  lemma ServeByGrowing(s: State, t: Thread, c: nat, size: nat)
    requires t < |s.pcs| && s.pcs[t] == Install(c, size) && c < |s.chunks| && s.chunks[c].next.None? &&
      size <= s.chunkSize
    ensures ServedAlone(s, t, size, 3)
  {
    ServeFromTail(Next(s, Step(t)), t, |s.chunks|, size);
  }

  /** From the guard of any chunk, a thread that runs alone is served after at most six steps for
      each chunk still ahead of it, if its request fits into a new chunk. */
  lemma {:induction false} AllocateAlone(s: State, t: Thread, c: nat, size: nat) returns (n: nat)
    requires Forward(s) && t < |s.pcs| && s.pcs[t] == Guard(c, size) && c < |s.chunks| && size <= s.chunkSize
    ensures n <= 6 * (|s.chunks| - c) && ServedAlone(s, t, size, n)
    decreases |s.chunks| - c
  {
    if s.chunks[c].tail >= size {
      ServeFromTail(s, t, c, size);
      n := 2;
    } else {
      var g := if s.chunks[c].tail < LIMIT then Next(s, Step(t)) else Next(Next(s, Step(t)), Step(t));
      assert g.pcs[t] == Grow(c, size) && Forward(g) && g.chunkSize == s.chunkSize;
      var k := FromGrow(g, t, c, size);
      if s.chunks[c].tail < LIMIT {
        n := k + 1;
      } else {
        assert ServedAlone(Next(s, Step(t)), t, size, k + 1);
        n := k + 2;
      }
    }
  }

  lemma {:induction false} FromGrow(s: State, t: Thread, c: nat, size: nat) returns (n: nat)
    requires Forward(s) && t < |s.pcs| && s.pcs[t] == Grow(c, size) && c < |s.chunks| && size <= s.chunkSize
    ensures n <= 6 * (|s.chunks| - c) - 2 && ServedAlone(s, t, size, n)
    decreases |s.chunks| - c, 0
  {
    var s1 := Next(s, Step(t));
    if s.chunks[c].next.None? {
      ServeByGrowing(s1, t, c, size);
      n := 4;
    } else {
      var k := AllocateAlone(s1, t, s.chunks[c].next.value, size);
      n := k + 1;
    }
  }

  /** A request that fits into a new chunk is served, whatever state the others have left behind. */
  lemma RequestServed(states: seq<State>, actions: seq<Action>, t: Thread, size: nat) returns (n: nat)
    requires Run(states, actions) && Enabled(states[|actions|], Allocate(t, size)) &&
      size <= states[|actions|].chunkSize
    ensures ServedAlone(Next(states[|actions|], Allocate(t, size)), t, size, n)
    ensures n <= 6 * |states[|actions|].chunks|
  {
    RunForward(states, actions, |actions|);
    n := AllocateAlone(Next(states[|actions|], Allocate(t, size)), t, 0, size);
  }
}
