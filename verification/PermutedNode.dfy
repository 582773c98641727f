/** Permutations as sequences: what the packed word stands for, and sorted leaves searched
    through it. */
module PermutedNodes {
  import opened PackedPermutations

  /** All positions of the permutation; the first `Size` of them are in use, the others free. */
  ghost function Slots(x: Word, w: nat): (s: seq<nat>)
    requires w <= 15
    ensures |s| == w && forall k :: 0 <= k < w ==> s[k] == At(x, k)
  {
    seq(w, k requires 0 <= k < w => At(x, k))
  }

  ghost function Iota(w: nat): (s: seq<nat>)
    ensures |s| == w && forall k :: 0 <= k < w ==> s[k] == k
  {
    seq(w, k requires 0 <= k < w => k)
  }

  ghost predicate IsPermutation(s: seq<nat>, w: nat) { multiset(s) == multiset(Iota(w)) }

  /** A permuter of width `w`: every number below `w` in exactly one slot, and a size in range. */
  ghost predicate Valid(x: Word, w: nat) { 1 <= w <= 15 && Size(x) <= w && IsPermutation(Slots(x, w), w) }

  /* The operations on sequences. */

  function MoveTo(s: seq<nat>, from: nat, to: nat): (r: seq<nat>)
    requires from < |s| && to < |s|
    ensures |r| == |s|
  {
    if to <= from then s[..to] + [s[from]] + s[to..from] + s[from + 1..]
    else s[..from] + s[from + 1..to + 1] + [s[from]] + s[to + 1..]
  }

  function RotateSeq(s: seq<nat>, i: nat, j: nat): seq<nat>
    requires i <= j <= |s|
  {
    s[..i] + s[j..] + s[i..j]
  }

  /** Position by position, what moving one element does. */
  lemma MoveToAt(s: seq<nat>, from: nat, to: nat, k: nat)
    requires from < |s| && to < |s| && k < |s|
    ensures MoveTo(s, from, to)[k] ==
      if k == to then s[from]
      else if to < k <= from then s[k - 1]
      else if from <= k < to then s[k + 1]
      else s[k]
  {
    var r := MoveTo(s, from, to);
    if to <= from {
      var front, middle := s[..to] + [s[from]], s[to..from];
      assert |front| == to + 1 && |middle| == from - to && r == front + middle + s[from + 1..];
      if to < k <= from {
        assert r[k] == middle[k - to - 1];
      } else if from < k {
        assert r[k] == s[from + 1..][k - from - 1];
      }
    } else {
      var front, middle := s[..from], s[from + 1..to + 1];
      assert |front| == from && |middle| == to - from && r == front + middle + [s[from]] + s[to + 1..];
      if from <= k < to {
        assert r[k] == middle[k - from];
      } else if to < k {
        assert r[k] == s[to + 1..][k - to - 1];
      }
    }
  }

  lemma SwapParts(a: seq<nat>, b: seq<nat>, c: seq<nat>, d: seq<nat>)
    ensures multiset(a + b + c + d) == multiset(a + c + b + d)
  {
    assert multiset(a + b + c + d) == multiset(a) + multiset(b) + multiset(c) + multiset(d);
    assert multiset(a + c + b + d) == multiset(a) + multiset(c) + multiset(b) + multiset(d);
  }

  lemma MoveToMembers(s: seq<nat>, from: nat, to: nat)
    requires from < |s| && to < |s|
    ensures multiset(MoveTo(s, from, to)) == multiset(s)
  {
    var one: seq<nat> := [s[from]];
    if to <= from {
      assert s == s[..to] + s[to..from] + one + s[from + 1..];
      SwapParts(s[..to], s[to..from], one, s[from + 1..]);
    } else {
      assert s == s[..from] + one + s[from + 1..to + 1] + s[to + 1..];
      SwapParts(s[..from], one, s[from + 1..to + 1], s[to + 1..]);
    }
  }

  lemma RotateMembers(s: seq<nat>, i: nat, j: nat)
    requires i <= j <= |s|
    ensures multiset(RotateSeq(s, i, j)) == multiset(s)
  {
    assert s == s[..i] + s[i..j] + s[j..];
  }

  /* Each operation on the word is the operation on the sequence. */

  lemma InsertFromBackSeq(x: Word, w: nat, i: nat)
    requires 1 <= w <= 15 && i < w && Size(x) < w
    ensures Size(InsertFromBack(x, w, i)) == Size(x) + 1
    ensures Slots(InsertFromBack(x, w, i), w) == MoveTo(Slots(x, w), w - 1, i)
  {
    hide At, Size, InsertWord, SlotAt, Num, MoveTo;
    AtSmall(x, w - 1);
    InsertAt(x, i, SlotAt(x, w - 1), 0);
    forall k | 0 <= k < w
      ensures At(InsertFromBack(x, w, i), k) == MoveTo(Slots(x, w), w - 1, i)[k]
    {
      InsertAt(x, i, SlotAt(x, w - 1), k);
      MoveToAt(Slots(x, w), w - 1, i, k);
    }
  }

  lemma InsertSelectedSeq(x: Word, w: nat, di: nat, si: nat)
    requires 1 <= w <= 15 && di <= si < w && Size(x) < w
    ensures Size(InsertSelected(x, di, si)) == Size(x) + 1
    ensures Slots(InsertSelected(x, di, si), w) == MoveTo(Slots(x, w), si, di)
  {
    hide At, Size, InsertSelected, MoveTo;
    SelectAt(x, di, si, 0);
    forall k | 0 <= k < w
      ensures At(InsertSelected(x, di, si), k) == MoveTo(Slots(x, w), si, di)[k]
    {
      SelectAt(x, di, si, k);
      MoveToAt(Slots(x, w), si, di, k);
    }
  }

  lemma RemoveSeq(x: Word, w: nat, i: nat)
    requires 1 <= w <= 15 && i < Size(x) <= w
    ensures Size(Remove(x, i)) == Size(x) - 1
    ensures Slots(Remove(x, i), w) == MoveTo(Slots(x, w), i, Size(x) - 1)
  {
    hide At, Size, Remove, MoveTo;
    RemoveAt(x, i, 0);
    forall k | 0 <= k < w
      ensures At(Remove(x, i), k) == MoveTo(Slots(x, w), i, Size(x) - 1)[k]
    {
      RemoveAt(x, i, k);
      MoveToAt(Slots(x, w), i, Size(x) - 1, k);
    }
  }

  lemma RemoveToBackSeq(x: Word, w: nat, i: nat)
    requires 1 <= w <= 15 && i < Size(x) <= w
    ensures Size(RemoveToBack(x, w, i)) == Size(x) - 1
    ensures Slots(RemoveToBack(x, w, i), w) == MoveTo(Slots(x, w), i, w - 1)
  {
    hide At, Size, RemoveToBack, MoveTo;
    BackAt(x, w, i, 0);
    forall k | 0 <= k < w
      ensures At(RemoveToBack(x, w, i), k) == MoveTo(Slots(x, w), i, w - 1)[k]
    {
      BackAt(x, w, i, k);
      MoveToAt(Slots(x, w), i, w - 1, k);
    }
  }

  lemma RotateWordSeq(x: Word, w: nat, i: nat, j: nat)
    requires 1 <= w <= 15 && i <= j <= w
    ensures Size(Rotate(x, w, i, j)) == Size(x)
    ensures Slots(Rotate(x, w, i, j), w) == RotateSeq(Slots(x, w), i, j)
  {
    hide At, Size, Rotate;
    RotateAt(x, w, i, j, 0);
    forall k | 0 <= k < w
      ensures At(Rotate(x, w, i, j), k) == RotateSeq(Slots(x, w), i, j)[k]
    {
      RotateAt(x, w, i, j, k);
    }
  }

  lemma ExchangeSeq(x: Word, w: nat, i: nat, j: nat)
    requires 1 <= w <= 15 && i < w && j < w
    ensures Size(Exchange(x, i, j)) == Size(x)
    ensures Slots(Exchange(x, i, j), w) == Slots(x, w)[i := At(x, j)][j := At(x, i)]
  {
    hide At, Size, Exchange;
    ExchangeAt(x, i, j, 0);
    forall k | 0 <= k < w
      ensures At(Exchange(x, i, j), k) == Slots(x, w)[i := At(x, j)][j := At(x, i)][k]
    {
      ExchangeAt(x, i, j, k);
    }
  }

  lemma EmptySeq(w: nat)
    requires 1 <= w <= 15
    ensures Size(MakeEmpty(w)) == 0 && forall k :: 0 <= k < w ==> Slots(MakeEmpty(w), w)[k] == w - 1 - k
  {
    hide At, Size, MakeEmpty;
    EmptyAt(w, 0);
    forall k | 0 <= k < w
      ensures At(MakeEmpty(w), k) == w - 1 - k
    {
      EmptyAt(w, k);
    }
  }

  lemma SortedSeq(w: nat, n: nat)
    requires 1 <= w <= 15 && n <= w
    ensures Size(MakeSorted(w, n)) == n
    ensures forall k :: 0 <= k < w ==> Slots(MakeSorted(w, n), w)[k] == if k < n then k else w - 1 - (k - n)
  {
    hide At, Size, MakeSorted;
    SortedAt(w, n, 0);
    forall k | 0 <= k < w
      ensures At(MakeSorted(w, n), k) == if k < n then k else w - 1 - (k - n)
    {
      SortedAt(w, n, k);
    }
  }

  /* Permutations stay permutations. */

  /** The first `n` numbers in order, the others in reverse. */
  ghost predicate PartSorted(s: seq<nat>, n: nat, w: nat) {
    |s| == w && n <= w && forall k :: 0 <= k < w ==> s[k] == if k < n then k else w - 1 - (k - n)
  }

  lemma PartSortedMore(s: seq<nat>, n: nat, w: nat)
    requires PartSorted(s, n, w) && n < w
    ensures PartSorted(MoveTo(s, w - 1, n), n + 1, w)
  {
    var t := MoveTo(s, w - 1, n);
    forall k | 0 <= k < w
      ensures t[k] == if k < n + 1 then k else w - 1 - (k - (n + 1))
    {
      assert t[k] == if k < n then s[k] else if k == n then s[w - 1] else s[k - 1];
    }
  }

  lemma {:induction false} PartSortedMembers(s: seq<nat>, n: nat, w: nat)
    requires PartSorted(s, n, w)
    ensures IsPermutation(s, w)
    decreases w - n
  {
    hide PartSorted, MoveTo, Iota;
    PartSortedLength(s, n, w);
    if n == w {
      PartSortedAll(s, w);
    } else {
      PartSortedMore(s, n, w);
      MoveToMembers(s, w - 1, n);
      PartSortedMembers(MoveTo(s, w - 1, n), n + 1, w);
    }
  }

  lemma PartSortedAll(s: seq<nat>, w: nat)
    requires PartSorted(s, w, w)
    ensures s == Iota(w)
  {
  }

  lemma PartSortedLength(s: seq<nat>, n: nat, w: nat)
    requires PartSorted(s, n, w)
    ensures |s| == w && n <= w
  {
  }

  lemma MakeSortedValid(w: nat, n: nat)
    requires 1 <= w <= 15 && n <= w
    ensures Valid(MakeSorted(w, n), w) && Valid(MakeEmpty(w), w)
  {
    hide MakeSorted, MakeEmpty, Size, At;
    SortedSeq(w, n);
    EmptySeq(w);
    PartSortedMembers(Slots(MakeSorted(w, n), w), n, w);
    PartSortedMembers(Slots(MakeEmpty(w), w), 0, w);
  }

  datatype Op =
    | DoInsertFromBack(i: nat)
    | DoInsertSelected(di: nat, si: nat)
    | DoRemove(i: nat)
    | DoRemoveToBack(i: nat)
    | DoRotate(i: nat, j: nat)
    | DoExchange(i: nat, j: nat)
    | DoExchangeValues(u: Word, v: Word)

  /** When an operation may be called on a permuter of size `n`. */
  predicate Legal(op: Op, n: nat, w: nat) {
    match op
    case DoInsertFromBack(i) => i < w && n < w
    case DoInsertSelected(di, si) => di < w && n < w && n <= si < w
    case DoRemove(i) => i < n
    case DoRemoveToBack(i) => i < n
    case DoRotate(i, j) => i <= j <= n
    case DoExchange(i, j) => i < w && j < w
    case DoExchangeValues(u, v) => u < 16 && v < 16
  }

  function Apply(x: Word, w: nat, op: Op): Word
    requires 1 <= w <= 15 && Size(x) <= w && Legal(op, Size(x), w)
  {
    match op
    case DoInsertFromBack(i) => InsertFromBack(x, w, i)
    case DoInsertSelected(di, si) => InsertSelected(x, di, si)
    case DoRemove(i) => Remove(x, i)
    case DoRemoveToBack(i) => RemoveToBack(x, w, i)
    case DoRotate(i, j) => Rotate(x, w, i, j)
    case DoExchange(i, j) => Exchange(x, i, j)
    case DoExchangeValues(u, v) => ExchangeValuesWord(x, w, u, v)
  }

  /** What a caller can look at beforehand to know that the elements stay a permutation: an insertion
      of the element at `si` behind itself must not change the bits of the element it overlays, and an
      element is not to be exchanged for a value that is none. */
  predicate Keeps(x: Word, w: nat, op: Op)
    requires 1 <= w <= 15 && Legal(op, Size(x), w)
  {
    && (op.DoInsertSelected? && op.si < op.di ==> Or(SlotAt(x, op.si), SlotAt(x, op.di)) == SlotAt(x, op.di))
    && (op.DoExchangeValues? ==> (Num(op.u) < w <==> Num(op.v) < w))
  }

  lemma SwapMembers(s: seq<nat>, i: nat, j: nat)
    requires i < |s| && j < |s|
    ensures var t: seq<nat> := s[i := s[j]][j := s[i]]; multiset(t) == multiset(s)
  {
  }

  /** Every operation keeps the slots a permutation exactly if `Keeps` allows it. */
  lemma ApplyValid(x: Word, w: nat, op: Op)
    requires Valid(x, w) && Legal(op, Size(x), w)
    ensures Valid(Apply(x, w, op), w) <==> Keeps(x, w, op)
  {
    hide At, Size, InsertFromBack, InsertSelected, Remove, RemoveToBack, Rotate, Exchange, ExchangeValuesWord,
      MoveTo, RotateSeq,
      Slots, SlotAt, Or, Num;
    var s := Slots(x, w);
    match op
    case DoInsertFromBack(i) => InsertFromBackSeq(x, w, i); MoveToMembers(s, w - 1, i);
    case DoInsertSelected(di, si) =>
      if di <= si {
        InsertSelectedSeq(x, w, di, si);
        MoveToMembers(s, si, di);
      } else {
        InsertBehindValid(x, w, di, si);
      }
    case DoRemove(i) => RemoveSeq(x, w, i); MoveToMembers(s, i, Size(x) - 1);
    case DoRemoveToBack(i) => RemoveToBackSeq(x, w, i); MoveToMembers(s, i, w - 1);
    case DoRotate(i, j) => RotateWordSeq(x, w, i, j); RotateMembers(s, i, j);
    case DoExchange(i, j) => ExchangeSeq(x, w, i, j); SwapMembers(s, i, j);
    case DoExchangeValues(u, v) => ExchangeValuesValid(x, w, u, v);
  }

  /** Changing one element of a permutation leaves no permutation. */
  lemma ChangedMembers(s: seq<nat>, w: nat, i: nat, v: nat)
    requires IsPermutation(s, w) && i < |s| && |s| == w >= 2 && v != s[i]
    ensures !IsPermutation(s[i := v], w)
  {
    var t: seq<nat> := s[i := v];
    if IsPermutation(t, w) {
      Distinct(t, w, i, if i == 0 then 1 else 0);
      var j := PositionOf(s, w, v);
      Distinct(t, w, i, j);
    }
  }

  lemma InsertBehindValid(x: Word, w: nat, di: nat, si: nat)
    requires Valid(x, w) && Size(x) < w && si < di < w
    ensures Valid(InsertSelected(x, di, si), w) <==> Or(SlotAt(x, si), SlotAt(x, di)) == SlotAt(x, di)
  {
    hide At, Size, InsertSelected, SlotAt, Or, Num, IsPermutation;
    var y, s := InsertSelected(x, di, si), Slots(x, w);
    SelectBehind(x, di, si, di);
    forall k | 0 <= k < w
      ensures Slots(y, w)[k] == s[di := At(y, di)][k]
    {
      SelectBehind(x, di, si, k);
      AtSmall(x, k);
      AtSmall(y, k);
    }
    assert Slots(y, w) == s[di := At(y, di)];
    AtSmall(x, di);
    AtSmall(y, di);
    NumInjective(SlotAt(x, di), SlotAt(y, di));
    if At(y, di) == At(x, di) {
      assert s[di := At(y, di)] == s;
    } else {
      ChangedMembers(s, w, di, At(y, di));
    }
  }

  /** Any sequence of operations from any initial permutation. */
  ghost predicate Run(states: seq<Word>, ops: seq<Op>, w: nat) {
    && 1 <= w <= 15 && |states| == |ops| + 1
    && (states[0] == MakeEmpty(w) || exists n: nat :: n <= w && states[0] == MakeSorted(w, n))
    && forall i :: 0 <= i < |ops| ==>
         Size(states[i]) <= w && Legal(ops[i], Size(states[i]), w) && states[i + 1] == Apply(states[i], w, ops[i])
  }

  lemma StartValid(x: Word, w: nat)
    requires 1 <= w <= 15 && (x == MakeEmpty(w) || exists n: nat :: n <= w && x == MakeSorted(w, n))
    ensures Valid(x, w)
  {
    hide Size, MakeEmpty, MakeSorted, Valid;
    if x == MakeEmpty(w) {
      MakeSortedValid(w, 0);
    } else {
      var n: nat :| n <= w && x == MakeSorted(w, n);
      MakeSortedValid(w, n);
    }
  }

  /** The slots are a permutation throughout the first `n` operations if and only if each of them
      is one that `Keeps` allows. */
  lemma {:induction false} RunValid(states: seq<Word>, ops: seq<Op>, w: nat, n: nat)
    requires Run(states, ops, w) && n <= |ops|
    ensures (forall i :: 0 <= i <= n ==> Valid(states[i], w)) <==>
      (forall i :: 0 <= i < n ==> Keeps(states[i], w, ops[i]))
  {
    hide Size, Apply, MakeEmpty, MakeSorted, Valid, Legal, Keeps;
    StartValid(states[0], w);
    if n > 0 {
      RunValid(states, ops, w, n - 1);
      var m := n - 1;
      assert states[m + 1] == Apply(states[m], w, ops[m]);
      if Valid(states[m], w) { ApplyValid(states[m], w, ops[m]); }
      assert (forall i :: 0 <= i <= n ==> Valid(states[i], w)) <==>
        (forall i :: 0 <= i <= m ==> Valid(states[i], w)) && Valid(states[n], w);
    }
  }

  lemma PositionOf(s: seq<nat>, w: nat, v: nat) returns (i: nat)
    requires IsPermutation(s, w) && v < w
    ensures i < |s| && s[i] == v
  {
    assert Iota(w)[v] == v;
    assert v in multiset(Iota(w));
    assert v in s;
    i :| i < |s| && s[i] == v;
  }

  /** Exchanging two values keeps a permutation exactly if both are elements or neither is. */
  lemma ExchangeValuesValid(x: Word, w: nat, a: Word, b: Word)
    requires Valid(x, w) && a < 16 && b < 16
    ensures Valid(ExchangeValuesWord(x, w, a, b), w) <==> (Num(a) < w <==> Num(b) < w)
  {
    hide Valid, Num, ExchangeValuesWord;
    if Num(a) < w && Num(b) < w {
      ExchangeElements(x, w, a, b);
    } else if Num(a) < w {
      ExchangeForOther(x, w, a, b, a, b);
    } else if Num(b) < w {
      ExchangeForOther(x, w, a, b, b, a);
    } else {
      ExchangeOthers(x, w, a, b);
    }
  }

  /** Exchanging two elements is exchanging the two positions that hold them. */
  lemma ExchangeElements(x: Word, w: nat, a: Word, b: Word)
    requires Valid(x, w) && a < 16 && b < 16 && Num(a) < w && Num(b) < w
    ensures Valid(ExchangeValuesWord(x, w, a, b), w)
  {
    hide At, SlotAt, Num, SizeField, ExchangeValuesWord;
    var y := ExchangeValuesWord(x, w, a, b);
    var s, t := Slots(x, w), Slots(y, w);
    ExchangeValuesAt(x, w, a, b);
    var i := PositionOf(s, w, Num(a));
    var j := PositionOf(s, w, Num(b));
    forall k | 0 <= k < w
      ensures t[k] == s[i := s[j]][j := s[i]][k]
    {
      ExchangedAt(x, y, a, b, k);
      if k != i { Distinct(s, w, k, i); }
      if k != j { Distinct(s, w, k, j); }
    }
    SwapMembers(s, i, j);
    assert t == s[i := s[j]][j := s[i]];
  }

  /** An element exchanged for a value that is none is lost. */
  lemma ExchangeForOther(x: Word, w: nat, a: Word, b: Word, element: Word, other: Word)
    requires Valid(x, w) && a < 16 && b < 16 && ((element == a && other == b) || (element == b && other == a))
    requires Num(element) < w <= Num(other)
    ensures !Valid(ExchangeValuesWord(x, w, a, b), w)
  {
    hide At, SlotAt, Num, SizeField, ExchangeValuesWord;
    var y := ExchangeValuesWord(x, w, a, b);
    ExchangeValuesAt(x, w, a, b);
    var i := PositionOf(Slots(x, w), w, Num(element));
    ExchangedAt(x, y, a, b, i);
    assert Slots(y, w)[i] == Num(other);
    TooLarge(Slots(y, w), w, i);
  }

  lemma TooLarge(s: seq<nat>, w: nat, i: nat)
    requires i < |s| && w <= s[i]
    ensures !IsPermutation(s, w)
  {
    assert s[i] in multiset(s);
    assert s[i] !in Iota(w);
    assert s[i] !in multiset(Iota(w));
  }

  lemma ExchangeOthers(x: Word, w: nat, a: Word, b: Word)
    requires Valid(x, w) && a < 16 && b < 16 && w <= Num(a) && w <= Num(b)
    ensures Valid(ExchangeValuesWord(x, w, a, b), w)
  {
    hide At, SlotAt, Num, SizeField, ExchangeValuesWord;
    var y := ExchangeValuesWord(x, w, a, b);
    var s, t := Slots(x, w), Slots(y, w);
    ExchangeValuesAt(x, w, a, b);
    forall k | 0 <= k < w
      ensures t[k] == s[k]
    {
      ExchangedAt(x, y, a, b, k);
      ElementBelow(s, w, k);
    }
    assert t == s;
  }

  lemma ElementBelow(s: seq<nat>, w: nat, k: nat)
    requires IsPermutation(s, w) && k < |s|
    ensures s[k] < w
  {
    assert s[k] in multiset(s);
    assert s[k] in Iota(w);
  }

  /* Two comments in the source, held against the code. */

  lemma Distinct(s: seq<nat>, w: nat, i: nat, j: nat)
    requires IsPermutation(s, w) && i < |s| && j < |s| && i != j
    ensures s[i] != s[j] && s[i] < w
  {
    assert s[i] in multiset(s);
    assert s[i] in Iota(w);
    if s[i] == s[j] {
      var a, b := if i < j then i else j, if i < j then j else i;
      assert s == s[..a] + [s[a]] + s[a + 1..b] + [s[b]] + s[b + 1..];
      assert multiset(s)[s[a]] >= 2;
      IotaOnce(w, s[a]);
    }
  }

  lemma {:induction false} IotaOnce(w: nat, v: nat)
    ensures multiset(Iota(w))[v] <= 1
    decreases w
  {
    if w > 0 {
      assert Iota(w) == Iota(w - 1) + [w - 1];
      IotaOnce(w - 1, v);
      assert w - 1 !in Iota(w - 1);
    }
  }

  /** Where the element for position `k` comes from when positions `i` to `n - 1` turn by `j - i`. */
  function Turned(i: nat, j: nat, n: nat, k: nat): (r: nat)
    requires i <= j && i <= k < n
    ensures i <= r < n
  {
    i + (k - i + (j - i)) % (n - i)
  }

  /** `rotate` turns the elements from `i` on modulo `w - i`: free slots included. */
  lemma RotateIsModular(x: Word, w: nat, i: nat, j: nat, k: nat)
    requires 1 <= w <= 15 && i <= j <= w && i <= k < w
    ensures At(Rotate(x, w, i, j), k) == At(x, Turned(i, j, w, k))
  {
    hide At, Rotate;
    RotateAt(x, w, i, j, k);
    var d, n := k - i + (j - i), w - i;
    if d < n { SmallModulus(d, n); } else { LargeModulus(d, n); }
  }

  lemma LargeModulus(d: nat, n: nat)
    requires n <= d < 2 * n
    ensures d % n == d - n
  {
    assert d / n == 1;
  }

  /** What the comment on `rotate` says: the elements in use turn among themselves. */
  ghost predicate RotatesInUse(x: Word, w: nat, i: nat, j: nat)
    requires 1 <= w <= 15 && i <= j <= Size(x) <= w
  {
    forall k :: i <= k < Size(x) ==> At(Rotate(x, w, i, j), k) == At(x, Turned(i, j, Size(x), k))
  }

  lemma SmallModulus(a: nat, n: nat)
    requires a < n
    ensures a % n == a
  {
  }

  lemma RotateInUse(x: Word, w: nat, i: nat, j: nat)
    requires 1 <= w <= 15 && i <= j <= Size(x) <= w && (i == j || Size(x) == w)
    ensures RotatesInUse(x, w, i, j)
  {
    hide At, Rotate, Size;
    forall k | i <= k < Size(x)
      ensures At(Rotate(x, w, i, j), k) == At(x, Turned(i, j, Size(x), k))
    {
      RotateIsModular(x, w, i, j, k);
      if i == j {
        SmallModulus(k - i, Size(x) - i);
        SmallModulus(k - i, w - i);
      }
    }
  }

  /** The place that should get the first element back gets the first free slot instead. */
  lemma RotateTakesFree(x: Word, w: nat, i: nat, j: nat)
    requires Valid(x, w) && i < j <= Size(x) < w
    ensures !RotatesInUse(x, w, i, j)
  {
    hide At, Rotate, Size, RotatesInUse;
    var n := Size(x);
    RotateIsModular(x, w, i, j, i + n - j);
    SmallModulus(n - i, w - i);
    Distinct(Slots(x, w), w, i, n);
    if RotatesInUse(x, w, i, j) {
      InUseAt(x, w, i, j);
    }
  }

  lemma TurnedBack(i: nat, j: nat, n: nat)
    requires i < j <= n
    ensures Turned(i, j, n, i + n - j) == i
  {
    assert i + n - j - i + (j - i) == n - i;
    assert (n - i) % (n - i) == 0;
  }

  lemma InUseAt(x: Word, w: nat, i: nat, j: nat)
    requires 1 <= w <= 15 && i < j <= Size(x) < w && RotatesInUse(x, w, i, j)
    ensures At(Rotate(x, w, i, j), i + Size(x) - j) == At(x, i)
  {
    hide At, Rotate, Size, Turned;
    var n, k := Size(x), i + Size(x) - j;
    TurnedBack(i, j, n);
    assert At(Rotate(x, w, i, j), k) == At(x, Turned(i, j, n, k));
  }

  /** It holds exactly if nothing is to be turned or every slot is in use. */
  lemma RotateComment(x: Word, w: nat, i: nat, j: nat)
    requires Valid(x, w) && i <= j <= Size(x)
    ensures RotatesInUse(x, w, i, j) <==> i == j || Size(x) == w
  {
    hide RotatesInUse, Size;
    if i == j || Size(x) == w { RotateInUse(x, w, i, j); } else { RotateTakesFree(x, w, i, j); }
  }

  /** `insert_selected` moves the element at `si` to `di` exactly if `di` is not behind `si`. */
  lemma InsertSelectedExactly(x: Word, w: nat, di: nat, si: nat)
    requires Valid(x, w) && di < w && Size(x) <= si < w
    ensures Slots(InsertSelected(x, di, si), w) == MoveTo(Slots(x, w), si, di) <==> di <= si
  {
    hide At, InsertSelected, Size;
    if di <= si {
      InsertSelectedSeq(x, w, di, si);
    } else {
      SelectBehind(x, di, si, si);
      AtSmall(x, si);
      AtSmall(InsertSelected(x, di, si), si);
      Distinct(Slots(x, w), w, si, si + 1);
      assert MoveTo(Slots(x, w), si, di)[si] == At(x, si + 1);
    }
  }

  /** An insertion the comment allows after which an element is missing: the free element at position
      0 of an empty permuter, inserted at position 1. */
  lemma InsertSelectedBreaks()
    ensures Valid(MakeEmpty(15), 15) && Legal(DoInsertSelected(1, 0), Size(MakeEmpty(15)), 15)
    ensures !Valid(InsertSelected(MakeEmpty(15), 1, 0), 15)
  {
    hide At, Size, InsertSelected, MakeEmpty, Or, SlotAt, Valid;
    var x := MakeEmpty(15);
    MakeSortedValid(15, 0);
    EmptyAt(15, 0);
    EmptyAt(15, 1);
    AtSmall(x, 0);
    AtSmall(x, 1);
    assert SlotAt(x, 0) == 14 && SlotAt(x, 1) == 13;
    FourteenThirteen();
    InsertBehindValid(x, 15, 1, 0);
  }

  lemma FourteenThirteen()
    ensures Or(14, 13) == 15
  {
  }

  /** A rotation for which the comment fails: two elements in use, turned by one. */
  lemma RotateBreaks()
    ensures Valid(MakeSorted(15, 2), 15) && Size(MakeSorted(15, 2)) == 2
    ensures !RotatesInUse(MakeSorted(15, 2), 15, 0, 1)
  {
    hide At, Size, MakeSorted, RotatesInUse, Valid;
    MakeSortedValid(15, 2);
    SortedSeq(15, 2);
    RotateComment(MakeSorted(15, 2), 15, 0, 1);
  }
}
