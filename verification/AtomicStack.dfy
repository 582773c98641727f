/** The versioned lock-free stack: one pusher, any number of poppers. */
module AtomicStacks {
  type Item = int
  type Thread = nat

  /** The top pointer with its version. `At(-1, v)` is an empty stack; `Null` keeps poppers out
      while a push is under way. */
  datatype Top = Null | At(ptr: int, version: nat)

  /** The pusher holds the old top while it writes `items`, of which `done` are in place. */
  datatype Pusher = Ready | Filling(ptr: int, version: nat, items: seq<Item>, done: nat)

  datatype Popper =
    | Out
    | Loaded(top: Top)                  // is about to test the snapshot and read the item
    | Read(top: Top, item: Item)        // is about to compare-and-swap

  datatype State = State(data: seq<Item>, top: Top, pusher: Pusher, poppers: map<Thread, Popper>)

  datatype Action =
    | Prepare(items: seq<Item>)         // exchange the top for null; one item or a whole buffer
    | Fill                              // write the next item
    | Commit                            // store the new top
    | Load(t: Thread)
    | ReadItem(t: Thread)
    | GiveUp(t: Thread)                 // return "empty"
    | TryPop(t: Thread)                 // compare-and-swap; retries with the top it found

  function PopperOf(s: State, t: Thread): Popper { if t in s.poppers then s.poppers[t] else Out }

  ghost predicate Enabled(s: State, a: Action) {
    match a
    case Prepare(items) => s.pusher.Ready? && s.top.At? && s.top.ptr + |items| < |s.data|
    case Fill => s.pusher.Filling? && s.pusher.done < |s.pusher.items| &&
        0 <= s.pusher.ptr + 1 + s.pusher.done < |s.data|
    case Commit => s.pusher.Filling? && s.pusher.done == |s.pusher.items|
    case Load(t) => PopperOf(s, t).Out?
    case ReadItem(t) =>
      PopperOf(s, t).Loaded? && PopperOf(s, t).top.At? && 0 <= PopperOf(s, t).top.ptr < |s.data|
    case GiveUp(t) => PopperOf(s, t).Loaded? && (PopperOf(s, t).top.Null? || PopperOf(s, t).top.ptr < 0)
    case TryPop(t) => PopperOf(s, t).Read? && PopperOf(s, t).top.At?
  }

  ghost predicate Pops(s: State, a: Action) { a.TryPop? && Enabled(s, a) && s.top == PopperOf(s, a.t).top }

  ghost function Next(s: State, a: Action): State
    requires Enabled(s, a)
  {
    match a
    case Prepare(items) => s.(top := Null, pusher := Filling(s.top.ptr, s.top.version, items, 0))
    case Fill =>
      s.(data := s.data[s.pusher.ptr + 1 + s.pusher.done := s.pusher.items[s.pusher.done]],
         pusher := s.pusher.(done := s.pusher.done + 1))
    case Commit => s.(top := At(s.pusher.ptr + |s.pusher.items|, s.pusher.version + 1), pusher := Ready)
    case Load(t) => s.(poppers := s.poppers[t := Loaded(s.top)])
    case ReadItem(t) => s.(poppers := s.poppers[t := Read(PopperOf(s, t).top, s.data[PopperOf(s, t).top.ptr])])
    case GiveUp(t) => s.(poppers := s.poppers[t := Out])
    case TryPop(t) =>
      var top := PopperOf(s, t).top;
      if s.top == top then s.(top := At(top.ptr - 1, top.version + 1), poppers := s.poppers[t := Out])
      else s.(poppers := s.poppers[t := Loaded(s.top)])
  }

  ghost predicate Init(s: State) { s.top == At(-1, 0) && s.pusher.Ready? && s.poppers == map[] }

  /* The current top, whether visible or held by the pusher, and the stack below it. */

  ghost function Ptr(s: State): int { if s.pusher.Filling? then s.pusher.ptr else if s.top.At? then s.top.ptr else -1 }

  ghost function Version(s: State): nat {
    if s.pusher.Filling? then s.pusher.version else if s.top.At? then s.top.version else 0
  }

  ghost function Stack(s: State): seq<Item>
    requires -1 <= Ptr(s) < |s.data|
  {
    s.data[..Ptr(s) + 1]
  }

  /** A snapshot is either out of date for good or the current top. */
  ghost predicate SnapOk(s: State, top: Top) {
    top.At? ==>
      && top.version <= Version(s) && -1 <= top.ptr < |s.data|
      && (top.version == Version(s) ==> top.ptr == Ptr(s))
  }

  ghost predicate PopperOk(s: State, p: Popper) {
    match p
    case Out => true
    case Loaded(top) => SnapOk(s, top)
    case Read(top, item) =>
      && top.At? && 0 <= top.ptr && SnapOk(s, top)
      && (top.version == Version(s) && top.ptr == Ptr(s) ==> s.data[top.ptr] == item)
  }

  ghost predicate Inv(s: State) {
    && -1 <= Ptr(s) < |s.data| && (s.pusher.Ready? <==> s.top.At?)
    && (s.pusher.Filling? ==> s.pusher.done <= |s.pusher.items| && s.pusher.ptr + |s.pusher.items| < |s.data|
                              && forall i :: 0 <= i < s.pusher.done ==>
                                  s.data[s.pusher.ptr + 1 + i] == s.pusher.items[i])
    && forall t :: t in s.poppers ==> PopperOk(s, s.poppers[t])
  }

  lemma PointerSafe(s: State, a: Action)
    requires Inv(s) && Enabled(s, a)
    ensures var s' := Next(s, a);
            && -1 <= Ptr(s') < |s'.data| == |s.data| && (s'.pusher.Ready? <==> s'.top.At?)
            && Version(s) <= Version(s') && (Version(s) == Version(s') ==> Ptr(s) == Ptr(s'))
  {
    if a.TryPop? { assert PopperOk(s, s.poppers[a.t]); }
  }

  lemma PusherSafe(s: State, a: Action)
    requires Inv(s) && Enabled(s, a) && Next(s, a).pusher.Filling?
    ensures var s' := Next(s, a);
            && s'.pusher.done <= |s'.pusher.items| && s'.pusher.ptr + |s'.pusher.items| < |s'.data|
            && forall i :: 0 <= i < s'.pusher.done ==> s'.data[s'.pusher.ptr + 1 + i] == s'.pusher.items[i]
  {
    hide PopperOk;
  }

  lemma PopperSafe(s: State, a: Action, t: Thread)
    requires Inv(s) && Enabled(s, a) && t in Next(s, a).poppers
    ensures PopperOk(Next(s, a), Next(s, a).poppers[t])
  {
    if t in s.poppers { assert PopperOk(s, s.poppers[t]); }
  }

  lemma StackAfter(s: State, a: Action)
    requires Inv(s) && Enabled(s, a) && -1 <= Ptr(Next(s, a)) < |Next(s, a).data|
    ensures Pops(s, a) ==> Stack(s) != [] && Stack(s)[|Stack(s)| - 1] == PopperOf(s, a.t).item
    ensures Stack(Next(s, a)) ==
      if a.Commit? then Stack(s) + s.pusher.items
      else if Pops(s, a) then Stack(s)[..|Stack(s)| - 1]
      else Stack(s)
  {
    if a.TryPop? { assert PopperOk(s, s.poppers[a.t]); }
    if a.Commit? { assert Stack(Next(s, a)) == Stack(s) + s.pusher.items; }
  }

  /** Every step is a step of a LIFO stack: a commit pushes its items, a compare-and-swap that
      succeeds takes the last item and returns that very item, and nothing else changes the stack. */
  lemma StepSafe(s: State, a: Action)
    requires Inv(s) && Enabled(s, a)
    ensures Inv(Next(s, a))
    ensures Pops(s, a) ==> Stack(s) != [] && Stack(s)[|Stack(s)| - 1] == PopperOf(s, a.t).item
    ensures Stack(Next(s, a)) ==
      if a.Commit? then Stack(s) + s.pusher.items
      else if Pops(s, a) then Stack(s)[..|Stack(s)| - 1]
      else Stack(s)
    ensures Version(s) <= Version(Next(s, a))
    ensures Version(s) == Version(Next(s, a)) ==> Ptr(s) == Ptr(Next(s, a))
  {
    hide Next, Enabled, PopperOk, Pops, Ptr, Version;
    PointerSafe(s, a);
    StackAfter(s, a);
    if Next(s, a).pusher.Filling? { PusherSafe(s, a); }
    forall t | t in Next(s, a).poppers
      ensures PopperOk(Next(s, a), Next(s, a).poppers[t])
    {
      PopperSafe(s, a, t);
    }
  }

  /* Whole runs. */

  ghost predicate Run(states: seq<State>, actions: seq<Action>) {
    && |states| == |actions| + 1 && Init(states[0])
    && forall i :: 0 <= i < |actions| ==> Enabled(states[i], actions[i]) && states[i + 1] == Next(states[i], actions[i])
  }

  lemma {:induction false} RunInvariant(states: seq<State>, actions: seq<Action>, i: nat)
    requires Run(states, actions) && i <= |actions| && |states[0].data| > 0
    ensures Inv(states[i])
  {
    if i > 0 {
      RunInvariant(states, actions, i - 1);
      StepSafe(states[i - 1], actions[i - 1]);
    }
  }

  /** All items committed, and all items popped, up to a point of the run. */
  ghost function Pushed(states: seq<State>, actions: seq<Action>, n: nat): multiset<Item>
    requires n <= |actions| < |states|
  {
    if n == 0 then multiset{}
    else Pushed(states, actions, n - 1) +
         (if actions[n - 1].Commit? && states[n - 1].pusher.Filling? then
             multiset(states[n - 1].pusher.items) else multiset{})
  }

  ghost function Popped(states: seq<State>, actions: seq<Action>, n: nat): multiset<Item>
    requires n <= |actions| < |states|
  {
    if n == 0 then multiset{}
    else Popped(states, actions, n - 1) +
         (if Pops(states[n - 1], actions[n - 1]) then
             multiset{PopperOf(states[n - 1], actions[n - 1].t).item} else multiset{})
  }

  lemma StepConserves(s: State, a: Action)
    requires Inv(s) && Enabled(s, a)
    ensures Inv(Next(s, a))
    ensures multiset(Stack(s)) + (if a.Commit? && s.pusher.Filling? then multiset(s.pusher.items) else multiset{}) ==
            (if Pops(s, a) then multiset{PopperOf(s, a.t).item} else multiset{}) + multiset(Stack(Next(s, a)))
  {
    StepSafe(s, a);
    hide Inv, Next, Stack;
    if Pops(s, a) {
      assert Stack(s) == Stack(s)[..|Stack(s)| - 1] + [PopperOf(s, a.t).item];
    }
  }

  lemma Balance(pushed: multiset<Item>, popped: multiset<Item>, m: multiset<Item>, c: multiset<Item>,
      d: multiset<Item>, m': multiset<Item>)
    requires pushed == popped + m && m + c == d + m'
    ensures pushed + c == (popped + d) + m'
  {
    assert pushed + c == popped + (m + c);
    assert popped + (d + m') == (popped + d) + m';
  }

  /** No item is lost and none is popped twice. */
  lemma {:induction false} RunConserves(states: seq<State>, actions: seq<Action>, n: nat)
    requires Run(states, actions) && n <= |actions| && |states[0].data| > 0
    ensures Inv(states[n])
    ensures Pushed(states, actions, n) == Popped(states, actions, n) + multiset(Stack(states[n]))
  {
    RunInvariant(states, actions, n);
    if n == 0 {
      assert Stack(states[0]) == [];
    } else {
      RunConserves(states, actions, n - 1);
      var s, a := states[n - 1], actions[n - 1];
      hide Next, Stack, Enabled, Init, Inv, Pops, PopperOf;
      StepConserves(s, a);
      Balance(Pushed(states, actions, n - 1), Popped(states, actions, n - 1), multiset(Stack(s)),
              if a.Commit? && s.pusher.Filling? then multiset(s.pusher.items) else multiset{},
              if Pops(s, a) then multiset{PopperOf(s, a.t).item} else multiset{}, multiset(Stack(Next(s, a))));
    }
  }

  /** Versions of visible tops never decrease, and a version is never used for two tops: what a
      compare-and-swap compares with has no ABA. */
  lemma {:induction false} RunVersions(states: seq<State>, actions: seq<Action>, i: nat, j: nat)
    requires Run(states, actions) && i <= j <= |actions| && |states[0].data| > 0
    ensures Version(states[i]) <= Version(states[j])
    ensures Version(states[i]) == Version(states[j]) ==> Ptr(states[i]) == Ptr(states[j])
    ensures states[i].top.At? && states[j].top.At? && states[i].top != states[j].top ==>
      states[i].top.version < states[j].top.version
    decreases j
  {
    RunInvariant(states, actions, i);
    RunInvariant(states, actions, j);
    if i < j {
      RunVersions(states, actions, i, j - 1);
      RunInvariant(states, actions, j - 1);
      StepSafe(states[j - 1], actions[j - 1]);
    }
  }

  /** A popper is told "empty" exactly if, when it last read the top, the stack was empty or a push
      was under way. */
  lemma EmptyAnswers(s: State, a: Action)
    requires Inv(s) && Enabled(s, a) && (a.Load? || (a.TryPop? && !Pops(s, a)))
    ensures Enabled(Next(s, a), GiveUp(a.t)) <==> Stack(s) == [] || s.pusher.Filling?
  {
  }

  /* When a pop succeeds. */

  /** The action takes the top away from everybody who has loaded it. */
  ghost predicate Moves(s: State, a: Action) { a.Prepare? || Pops(s, a) }

  /** A snapshot of the top taken by `Load`, or by a compare-and-swap that failed. */
  ghost predicate Loads(s: State, a: Action, t: Thread) { a == Load(t) || (a == TryPop(t) && !Pops(s, a)) }

  ghost predicate ByPopper(a: Action, t: Thread) { (a.Load? || a.ReadItem? || a.GiveUp? || a.TryPop?) && a.t == t }

  /** The top changes only by a move, or by the commit that ends one. */
  lemma {:induction false} TopStays(states: seq<State>, actions: seq<Action>, i: nat, j: nat)
    requires Run(states, actions) && i <= j <= |actions| && |states[0].data| > 0 && states[i].top.At?
    requires forall m :: i <= m < j ==> !Moves(states[m], actions[m])
    ensures states[j].top == states[i].top
    decreases j
  {
    if i < j {
      TopStays(states, actions, i, j - 1);
      RunInvariant(states, actions, j - 1);
      assert !Moves(states[j - 1], actions[j - 1]);
    }
  }

  /** After a move no top with the old version is ever seen again. */
  lemma {:induction false} TopMoved(states: seq<State>, actions: seq<Action>, m: nat, j: nat)
    requires Run(states, actions) && m < j <= |actions| && |states[0].data| > 0 && Moves(states[m], actions[m])
    ensures states[j].top.At? ==> Version(states[m]) < states[j].top.version
    decreases j
  {
    RunInvariant(states, actions, m);
    RunInvariant(states, actions, j - 1);
    RunVersions(states, actions, m, j - 1);
    if m + 1 < j { TopMoved(states, actions, m, j - 1); }
    StepSafe(states[j - 1], actions[j - 1]);
  }

  lemma LoadSnapshot(s: State, a: Action, t: Thread)
    requires Enabled(s, a) && Loads(s, a, t)
    ensures !PopperOf(Next(s, a), t).Out? && PopperOf(Next(s, a), t).top == s.top
  {
  }

  lemma SnapshotStep(s: State, a: Action, t: Thread)
    requires Enabled(s, a) && !PopperOf(s, t).Out? && (ByPopper(a, t) ==> a.ReadItem?)
    ensures !PopperOf(Next(s, a), t).Out? && PopperOf(Next(s, a), t).top == PopperOf(s, t).top
  {
  }

  /** What a popper has in hand between its load and its compare-and-swap. */
  lemma {:induction false} SnapshotKept(states: seq<State>, actions: seq<Action>, i: nat, j: nat, t: Thread)
    requires Run(states, actions) && i < j <= |actions| && Loads(states[i], actions[i], t)
    requires forall m :: i < m < j && ByPopper(actions[m], t) ==> actions[m].ReadItem?
    ensures !PopperOf(states[j], t).Out? && PopperOf(states[j], t).top == states[i].top
    decreases j
  {
    hide Init, Next, Enabled, Loads, ByPopper, PopperOf;
    if i + 1 < j {
      SnapshotKept(states, actions, i, j - 1, t);
      SnapshotStep(states[j - 1], actions[j - 1], t);
    } else {
      LoadSnapshot(states[i], actions[i], t);
    }
  }

  /** In every run: a popper that has loaded the top of a non-empty stack wins its compare-and-swap,
      with the item that was on top when it loaded, if and only if no push has begun and nobody else
      has popped in between. A pop that has to retry means that somebody else got on. */
  lemma RunPopExactly(states: seq<State>, actions: seq<Action>, i: nat, j: nat, t: Thread)
    requires Run(states, actions) && i < j < |actions| && |states[0].data| > 0
    requires Loads(states[i], actions[i], t) && states[i].top.At? && actions[j] == TryPop(t)
    requires forall m :: i < m < j && ByPopper(actions[m], t) ==> actions[m].ReadItem?
    ensures Inv(states[i])
    ensures Pops(states[j], actions[j]) <==> forall m :: i < m < j ==> !Moves(states[m], actions[m])
    ensures Pops(states[j], actions[j]) ==>
      Stack(states[i]) != [] && PopperOf(states[j], t).item == Stack(states[i])[|Stack(states[i])| - 1]
  {
    hide Init, Next, Inv;
    RunInvariant(states, actions, i);
    RunInvariant(states, actions, j);
    SnapshotKept(states, actions, i, j, t);
    if forall m :: i < m < j ==> !Moves(states[m], actions[m]) {
      LoadMovesNothing(states, actions, i, t);
      TopStays(states, actions, i + 1, j);
    } else {
      var m :| i < m < j && Moves(states[m], actions[m]);
      TopMoved(states, actions, m, j);
      RunVersions(states, actions, i, m);
      VersionOfTop(states[i]);
    }
    if Pops(states[j], actions[j]) {
      StepSafe(states[j], actions[j]);
      RunSameStack(states, actions, i, j);
    }
  }

  lemma LoadMovesNothing(states: seq<State>, actions: seq<Action>, i: nat, t: Thread)
    requires Run(states, actions) && i < |actions| && Loads(states[i], actions[i], t)
    ensures states[i + 1].top == states[i].top
  {
  }

  lemma VersionOfTop(s: State)
    requires Inv(s) && s.top.At?
    ensures Version(s) == s.top.version && Ptr(s) == s.top.ptr
  {
  }

  /** While the version stands still, so does the stack. */
  lemma {:induction false} RunSameStack(states: seq<State>, actions: seq<Action>, i: nat, j: nat)
    requires Run(states, actions) && i <= j <= |actions| && |states[0].data| > 0
    requires states[i].top.At? && states[j].top == states[i].top
    ensures Inv(states[i]) && Inv(states[j]) && Stack(states[j]) == Stack(states[i])
  {
    hide Init, Inv, Next, Enabled, Stack, Pops;
    RunInvariant(states, actions, i);
    RunInvariant(states, actions, j);
    StackWhileVersion(states, actions, i, j);
  }

  lemma {:induction false} StackWhileVersion(states: seq<State>, actions: seq<Action>, i: nat, j: nat)
    requires Run(states, actions) && i <= j <= |actions| && |states[0].data| > 0
    requires Version(states[i]) == Version(states[j])
    ensures Inv(states[i]) && Inv(states[j]) && Stack(states[j]) == Stack(states[i])
    decreases j
  {
    RunInvariant(states, actions, i);
    RunInvariant(states, actions, j);
    if i < j {
      RunVersions(states, actions, i, j - 1);
      RunVersions(states, actions, j - 1, j);
      StackWhileVersion(states, actions, i, j - 1);
      StepVersion(states[j - 1], actions[j - 1]);
    }
  }

  lemma StepVersion(s: State, a: Action)
    requires Inv(s) && Enabled(s, a) && Version(Next(s, a)) == Version(s)
    ensures Inv(Next(s, a)) && Stack(Next(s, a)) == Stack(s)
  {
    StepSafe(s, a);
  }

  /** A popper that runs alone on a stack that is not empty has its top item after three steps. */
  lemma PopAlone(s: State, t: Thread)
    requires Inv(s) && s.pusher.Ready? && PopperOf(s, t).Out? && Stack(s) != []
    ensures Enabled(s, Load(t))
    ensures var s1 := Next(s, Load(t));
            && Enabled(s1, ReadItem(t))
            && var s2 := Next(s1, ReadItem(t));
               && Pops(s2, TryPop(t)) && PopperOf(s2, t).item == Stack(s)[|Stack(s)| - 1]
               && var s3 := Next(s2, TryPop(t));
                  PopperOf(s3, t).Out? && Inv(s3) && Stack(s3) == Stack(s)[..|Stack(s)| - 1]
  {
    var s1 := Next(s, Load(t));
    StepSafe(s, Load(t));
    var s2 := Next(s1, ReadItem(t));
    StepSafe(s1, ReadItem(t));
    StepSafe(s2, TryPop(t));
  }

  /* What a push puts on the stack. */

  /** In every run a commit puts exactly the items its push began with on the stack it found, whatever
      the poppers did meanwhile. */
  lemma RunPush(states: seq<State>, actions: seq<Action>, i: nat, j: nat)
    requires Run(states, actions) && i < j < |actions| && |states[0].data| > 0
    requires actions[i].Prepare? && actions[j].Commit? && forall m :: i < m < j ==> !actions[m].Commit?
    ensures Inv(states[i]) && Inv(states[j + 1])
    ensures Stack(states[j + 1]) == Stack(states[i]) + actions[i].items && states[j + 1].top.At?
  {
    hide Init, Inv, Stack;
    RunInvariant(states, actions, i);
    RunInvariant(states, actions, j);
    StepSafe(states[j], actions[j]);
    PushKept(states, actions, i, j);
    StackWhileVersion(states, actions, i, j);
  }

  lemma {:induction false} PushKept(states: seq<State>, actions: seq<Action>, i: nat, j: nat)
    requires Run(states, actions) && i < j < |actions| && |states[0].data| > 0
    requires actions[i].Prepare? && forall m :: i < m < j ==> !actions[m].Commit?
    ensures states[j].pusher.Filling? && states[j].pusher.items == actions[i].items
    ensures Version(states[j]) == Version(states[i])
    decreases j
  {
    RunInvariant(states, actions, i);
    RunInvariant(states, actions, j - 1);
    assert states[i + 1] == Next(states[i], actions[i]);
    if i + 1 < j {
      PushKept(states, actions, i, j - 1);
      assert states[j] == Next(states[j - 1], actions[j - 1]);
    }
  }

  /** The pusher is never held up: its next step is enabled until it has written all items, and then
      the commit is. */
  lemma PushGoesOn(s: State)
    requires Inv(s) && s.pusher.Filling?
    ensures s.pusher.done < |s.pusher.items| ==>
      Enabled(s, Fill) && Next(s, Fill).pusher == s.pusher.(done := s.pusher.done + 1)
    ensures s.pusher.done == |s.pusher.items| ==> Enabled(s, Commit) && Next(s, Commit).pusher.Ready?
  {
  }
}
