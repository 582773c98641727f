/** The packed permutation of a leaf: a size in the low four bits and a four-bit slot for each
    position, in one machine word. */
module PackedPermutations {
  type Word = bv64

  /** A position as a machine integer, fit to compute a shift from. */
  type Index = bv7

  function Idx(n: nat): Index
    requires n < 16
  {
    if n == 0 then 0 else if n == 1 then 1 else if n == 2 then 2 else if n == 3 then 3
    else if n == 4 then 4 else if n == 5 then 5 else if n == 6 then 6 else if n == 7 then 7
    else if n == 8 then 8 else if n == 9 then 9 else if n == 10 then 10 else if n == 11 then 11
    else if n == 12 then 12 else if n == 13 then 13 else if n == 14 then 14 else 15
  }

  /** The number a four-bit value stands for. */
  function Num(v: Word): (n: nat)
    ensures n < 16
  {
    if v == 0 then 0 else if v == 1 then 1 else if v == 2 then 2 else if v == 3 then 3
    else if v == 4 then 4 else if v == 5 then 5 else if v == 6 then 6 else if v == 7 then 7
    else if v == 8 then 8 else if v == 9 then 9 else if v == 10 then 10 else if v == 11 then 11
    else if v == 12 then 12 else if v == 13 then 13 else if v == 14 then 14 else 15
  }

  lemma IdxStep(n: nat)
    requires n < 15
    ensures Idx(n + 1) == Idx(n) + 1 && Idx(n) < 15
  {
  }

  lemma {:induction false} IdxAdd(a: nat, b: nat)
    requires a + b < 16
    ensures Idx(a + b) == Idx(a) + Idx(b) && Idx(a + b) <= 15
  {
    hide Idx;
    IdxSmall(a);
    IdxSmall(b);
    if b > 0 {
      IdxAdd(a, b - 1);
      IdxStep(b - 1);
      IdxStep(a + b - 1);
    }
  }

  lemma IdxSmall(a: nat)
    requires a < 16
    ensures Idx(a) <= 15 && (a == 0 <==> Idx(a) == 0) && Num(Idx(a) as Word) == a
  {
  }

  lemma IdxOrder(a: nat, b: nat)
    requires a < 16 && b < 16
    ensures a < b <==> Idx(a) < Idx(b)
    ensures a == b <==> Idx(a) == Idx(b)
  {
    hide Idx;
    if a < b {
      IdxAdd(a, b - a);
      IdxSmall(b - a);
    } else {
      IdxAdd(b, a - b);
      IdxSmall(a - b);
    }
    IdxSmall(a);
    IdxSmall(b);
  }

  lemma Small(k: nat)
    requires k < 15
    ensures Idx(k) < 15
  {
    hide Idx;
    IdxOrder(k, 15);
    IdxSmall(15);
  }

  /* The pieces the operations' expressions are made of. */

  function SizeField(x: Word): Word { x & 15 }

  function Slot(x: Word, i: Index): Word
    requires i < 16
  {
    (x >> ((i << 2) + 4)) & 15
  }

  function Or(a: Word, b: Word): Word { a | b }

  function And(a: Word, b: Word): Word { a & b }

  function AndNot(a: Word, b: Word): Word { a & !b }

  function Xor(a: Word, b: Word): Word { a ^ b }

  function NoSize(x: Word): Word { x & !15 }

  function More(x: Word): Word { x + 1 }

  function Less(x: Word): Word { x - 1 }

  /** The size field and the slots below `i`. */
  function Mask(i: Index): Word
    requires i <= 15
  {
    (16 << (i << 2)) - 1
  }

  function Keep(x: Word, i: Index): Word
    requires i <= 15
  {
    x & Mask(i)
  }

  function Drop(x: Word, i: Index): Word
    requires i <= 15
  {
    x & !Mask(i)
  }

  function Up(x: Word, m: Index): Word
    requires m <= 15
  {
    x << (m << 2)
  }

  function Down(x: Word, m: Index): Word
    requires m <= 15
  {
    x >> (m << 2)
  }

  function Put(value: Word, i: Index): Word
    requires i < 15
  {
    value << ((i << 2) + 4)
  }

  /** The slots from `i` on, as many as `m + 1`. */
  function Range(i: Index, m: Index): Word
    requires i < 15 && m < 15
  {
    Mask(m) << ((i + 1) << 2)
  }

  function Within(x: Word, i: Index, m: Index): Word
    requires i < 15 && m < 15
  {
    And(x, Range(i, m))
  }

  function Outside(x: Word, i: Index, m: Index): Word
    requires i < 15 && m < 15
  {
    AndNot(x, Range(i, m))
  }

  /* The same pieces, slot by slot. */

  lemma OrBits(a: Word, b: Word, k: Index)
    requires k < 15
    ensures Slot(a | b, k) == Slot(a, k) | Slot(b, k)
  {
  }

  lemma OrSlot(a: Word, b: Word, k: Index)
    requires k < 15
    ensures Slot(Or(a, b), k) == Or(Slot(a, k), Slot(b, k))
  {
    hide Slot;
    OrBits(a, b, k);
  }

  lemma OrSize(a: Word, b: Word)
    ensures SizeField(Or(a, b)) == Or(SizeField(a), SizeField(b))
  {
  }

  lemma OrZero(a: Word)
    ensures Or(a, 0) == a && Or(0, a) == a
  {
  }

  lemma KeepSlot(x: Word, i: Index, k: Index)
    requires i <= 15 && k < 15
    ensures Slot(Keep(x, i), k) == (if k < i then Slot(x, k) else 0) && SizeField(Keep(x, i)) == SizeField(x)
  {
  }

  lemma DropSlot(x: Word, i: Index, k: Index)
    requires i <= 15 && k < 15
    ensures Slot(Drop(x, i), k) == (if k < i then 0 else Slot(x, k)) && SizeField(Drop(x, i)) == 0
  {
  }

  lemma UpSlot(x: Word, m: Index, k: Index)
    requires m <= k < 15
    ensures Slot(Up(x, m), k) == Slot(x, k - m)
  {
  }

  lemma UpEmpty(x: Word, m: Index, k: Index)
    requires k < m <= 15 && SizeField(x) == 0
    ensures Slot(Up(x, m), k) == 0
  {
  }

  lemma UpSize(x: Word, m: Index)
    requires m <= 15
    ensures SizeField(Up(x, m)) == if m == 0 then SizeField(x) else 0
  {
  }

  lemma DownSlot(x: Word, m: Index, k: Index)
    requires m <= 15 && k < 15 && k + m < 15
    ensures Slot(Down(x, m), k) == Slot(x, k + m)
  {
  }

  lemma DownBeyond(x: Word, m: Index, k: Index)
    requires m <= 15 && k < 15 && 15 <= k + m
    ensures Slot(Down(x, m), k) == 0
  {
  }

  /** Nothing is shifted in from above the width. */
  lemma DownTop(x: Word, w: Index, m: Index, k: Index)
    requires m <= w <= 15 && w - m <= k < w
    ensures Slot(Down(Keep(x, w), m), k) == 0
  {
    hide Slot, Down, Keep;
    if k + m < 15 {
      DownSlot(Keep(x, w), m, k);
      KeepSlot(x, w, k + m);
    } else {
      DownBeyond(Keep(x, w), m, k);
    }
  }

  lemma PutSlot(value: Word, i: Index, k: Index)
    requires i < 15 && k < 15 && value < 16
    ensures Slot(Put(value, i), k) == (if k == i then value else 0) && SizeField(Put(value, i)) == 0
  {
  }

  lemma RangeSlot(i: Index, m: Index, k: Index)
    requires i < 15 && m < 15 && i + m < 15 && k < 15
    ensures Slot(Range(i, m), k) == (if i <= k <= i + m then 15 else 0) && SizeField(Range(i, m)) == 0
  {
  }

  lemma AndSlot(a: Word, b: Word, k: Index)
    requires k < 15
    ensures Slot(b, k) == 15 ==> Slot(And(a, b), k) == Slot(a, k) && Slot(AndNot(a, b), k) == 0
    ensures Slot(b, k) == 0 ==> Slot(And(a, b), k) == 0 && Slot(AndNot(a, b), k) == Slot(a, k)
  {
  }

  lemma WithinSlot(x: Word, i: Index, m: Index, k: Index)
    requires i < 15 && m < 15 && i + m < 15 && k < 15
    ensures Slot(Within(x, i, m), k) == if i <= k <= i + m then Slot(x, k) else 0
    ensures Slot(Outside(x, i, m), k) == if i <= k <= i + m then 0 else Slot(x, k)
  {
    hide Slot, Range, And, AndNot;
    RangeSlot(i, m, k);
    AndSlot(x, Range(i, m), k);
  }

  lemma WithinSize(x: Word, i: Index, m: Index)
    requires i < 15 && m < 15 && i + m < 15
    ensures SizeField(Within(x, i, m)) == 0
  {
  }

  lemma OutsideSize(x: Word, i: Index, m: Index)
    requires i < 15 && m < 15 && i + m < 15
    ensures SizeField(Outside(x, i, m)) == SizeField(x)
  {
  }

  lemma WithinTop(x: Word, i: Index, m: Index)
    requires i < 15 && m < 15 && i + m < 15
    ensures Slot(Down(Within(x, i, m), 1), 14) == 0
  {
  }

  lemma MoreSlot(x: Word, k: Index)
    requires SizeField(x) < 15 && k < 15
    ensures Slot(More(x), k) == Slot(x, k) && SizeField(More(x)) == More(SizeField(x))
  {
  }

  lemma LessSlot(x: Word, k: Index)
    requires SizeField(x) != 0 && k < 15
    ensures Slot(Less(x), k) == Slot(x, k) && SizeField(Less(x)) == Less(SizeField(x))
  {
  }

  lemma SlotSmall(x: Word, k: Index)
    requires k < 15
    ensures Slot(x, k) < 16 && SizeField(x) < 16
  {
  }

  /** Counting in the size field. */
  lemma NumMore(v: Word)
    requires v < 15
    ensures Num(More(v)) == Num(v) + 1
  {
  }

  lemma NumLess(v: Word)
    requires v < 16
    ensures v != 0 <==> Num(v) != 0
    ensures v != 0 ==> Num(Less(v)) == Num(v) - 1
    ensures v < 15 <==> Num(v) < 15
  {
  }

  lemma NumZero(v: Word)
    ensures Num(v) == 0 <==> v == 0
  {
  }

  /* The same with numbers for positions and contents. */

  /** The element at position `k`. */
  function At(x: Word, k: nat): (n: nat)
    requires k < 15
  {
    Small(k);
    Num(Slot(x, Idx(k)))
  }

  function Size(x: Word): nat { Num(SizeField(x)) }

  /** Two pieces, one of them empty in slot `k`. */
  lemma Two(a: Word, b: Word, k: nat)
    requires k < 15
    ensures At(a, k) == 0 ==> At(Or(a, b), k) == At(b, k)
    ensures At(b, k) == 0 ==> At(Or(a, b), k) == At(a, k)
    ensures Size(b) == 0 ==> Size(Or(a, b)) == Size(a)
    ensures Size(a) == 0 ==> Size(Or(a, b)) == Size(b)
  {
    hide Or, Slot, Idx, Num, SizeField;
    Small(k);
    OrSlot(a, b, Idx(k));
    OrSize(a, b);
    NumZero(Slot(a, Idx(k)));
    NumZero(Slot(b, Idx(k)));
    OrZero(Slot(a, Idx(k)));
    OrZero(Slot(b, Idx(k)));
    NumZero(SizeField(a));
    NumZero(SizeField(b));
    OrZero(SizeField(a));
    OrZero(SizeField(b));
  }

  lemma KeepAt(x: Word, i: nat, k: nat)
    requires i <= 15 && k < 15
    ensures Idx(i) <= 15 && At(Keep(x, Idx(i)), k) == (if k < i then At(x, k) else 0)
    ensures Size(Keep(x, Idx(i))) == Size(x)
  {
    hide Keep, Slot, Idx, SizeField, Num;
    Small(k);
    IdxSmall(i);
    IdxOrder(k, i);
    NumZero(0);
    KeepSlot(x, Idx(i), Idx(k));
  }

  lemma DropAt(x: Word, i: nat, k: nat)
    requires i <= 15 && k < 15
    ensures Idx(i) <= 15 && At(Drop(x, Idx(i)), k) == (if k < i then 0 else At(x, k)) && Size(Drop(x, Idx(i))) == 0
  {
    hide Drop, Slot, Idx, SizeField, Num;
    Small(k);
    IdxSmall(i);
    IdxOrder(k, i);
    NumZero(0);
    DropSlot(x, Idx(i), Idx(k));
  }

  lemma UpAt(x: Word, m: nat, k: nat)
    requires m <= 15 && k < 15
    ensures Idx(m) <= 15
    ensures m <= k ==> At(Up(x, Idx(m)), k) == At(x, k - m)
    ensures k < m && Size(x) == 0 ==> At(Up(x, Idx(m)), k) == 0
    ensures m > 0 || Size(x) == 0 ==> Size(Up(x, Idx(m))) == 0
  {
    hide Up, Slot, Idx, SizeField, Num;
    Small(k);
    IdxSmall(m);
    IdxOrder(k, m);
    NumZero(0);
    NumZero(SizeField(x));
    UpSize(x, Idx(m));
    if m <= k {
      IdxAdd(k - m, m);
      IdxSmall(k - m);
      UpSlot(x, Idx(m), Idx(k));
    } else if SizeField(x) == 0 {
      UpEmpty(x, Idx(m), Idx(k));
    }
  }

  lemma DownAt(x: Word, m: nat, k: nat)
    requires k + m < 15
    ensures Idx(m) <= 15 && At(Down(x, Idx(m)), k) == At(x, k + m)
  {
    hide Down, Slot, Idx, Num;
    Small(k);
    Small(m);
    Small(k + m);
    IdxAdd(k, m);
    DownSlot(x, Idx(m), Idx(k));
  }

  lemma DownTopAt(x: Word, w: nat, m: nat, k: nat)
    requires m <= w <= 15 && w - m <= k < w
    ensures Idx(m) <= 15 && Idx(w) <= 15 && At(Down(Keep(x, Idx(w)), Idx(m)), k) == 0
  {
    hide Down, Keep, Slot, Idx, Num;
    Small(k);
    IdxSmall(m);
    IdxSmall(w);
    IdxOrder(k, w);
    IdxAdd(w - m, m);
    IdxSmall(w - m);
    IdxOrder(k, w - m);
    NumZero(0);
    DownTop(x, Idx(w), Idx(m), Idx(k));
  }

  lemma PutAt(value: Word, i: nat, k: nat)
    requires i < 15 && k < 15 && value < 16
    ensures Idx(i) < 15 && At(Put(value, Idx(i)), k) == (if k == i then Num(value) else 0)
    ensures Size(Put(value, Idx(i))) == 0
  {
    hide Put, Slot, Idx, SizeField, Num;
    Small(k);
    Small(i);
    IdxOrder(k, i);
    NumZero(0);
    PutSlot(value, Idx(i), Idx(k));
  }

  lemma WithinAt(x: Word, i: nat, m: nat, k: nat)
    requires i + m < 15 && k < 15
    ensures Idx(i) < 15 && Idx(m) < 15
    ensures At(Within(x, Idx(i), Idx(m)), k) == if i <= k <= i + m then At(x, k) else 0
    ensures At(Outside(x, Idx(i), Idx(m)), k) == if i <= k <= i + m then 0 else At(x, k)
  {
    hide Within, Outside, Slot, Idx, SizeField, Num;
    Small(k);
    Small(i);
    Small(m);
    Small(i + m);
    IdxAdd(i, m);
    IdxOrder(k, i);
    IdxOrder(i + m, k);
    NumZero(0);
    WithinSlot(x, Idx(i), Idx(m), Idx(k));
  }

  lemma WithinSizes(x: Word, i: nat, m: nat)
    requires i + m < 15
    ensures Idx(i) < 15 && Idx(m) < 15
    ensures SizeField(Within(x, Idx(i), Idx(m))) == 0 && Size(Within(x, Idx(i), Idx(m))) == 0
    ensures Size(Outside(x, Idx(i), Idx(m))) == Size(x)
  {
    hide Within, Outside, Slot, Idx, SizeField, Num;
    Small(i);
    Small(m);
    Small(i + m);
    IdxAdd(i, m);
    NumZero(0);
    WithinSize(x, Idx(i), Idx(m));
    OutsideSize(x, Idx(i), Idx(m));
  }

  lemma WithinTopAt(x: Word, i: nat, m: nat)
    requires i + m < 15
    ensures Idx(i) < 15 && Idx(m) < 15 && At(Down(Within(x, Idx(i), Idx(m)), 1), 14) == 0
  {
    Small(i);
    Small(m);
    Small(i + m);
    IdxAdd(i, m);
    NumZero(0);
    assert Idx(14) == 14;
    hide Within, Down, Slot, Idx, Num;
    WithinTop(x, Idx(i), Idx(m));
  }

  lemma MoreAt(x: Word, k: nat)
    requires Size(x) < 15 && k < 15
    ensures At(More(x), k) == At(x, k) && Size(More(x)) == Size(x) + 1
  {
    hide More, Slot, Idx, SizeField, Num;
    Small(k);
    SizeSmall(x);
    NumLess(SizeField(x));
    NumMore(SizeField(x));
    MoreSlot(x, Idx(k));
  }

  lemma LessAt(x: Word, k: nat)
    requires Size(x) != 0 && k < 15
    ensures At(Less(x), k) == At(x, k) && Size(Less(x)) == Size(x) - 1
  {
    hide Less, Slot, Idx, SizeField, Num;
    Small(k);
    SizeSmall(x);
    NumLess(SizeField(x));
    LessSlot(x, Idx(k));
  }

  lemma SizeSmall(x: Word)
    ensures SizeField(x) < 16
  {
  }

  lemma DownOne(x: Word, k: nat)
    requires k + 1 < 15
    ensures At(Down(x, 1), k) == At(x, k + 1)
  {
    IdxOne();
    hide Down, Slot, Idx, Num;
    DownAt(x, 1, k);
  }

  lemma IdxOne()
    ensures Idx(1) == 1
  {
  }

  /* The operations, for a permuter of width `w`. */

  function MakeEmpty(w: nat): Word
    requires 1 <= w <= 15
  {
    IdxSmall(15 - w);
    NoSize(Down(0x0123456789ABCDE0, Idx(15 - w)))
  }

  function FullWord(mask: Word): Word { 0xEDCBA98765432100 & mask }

  function FullBelow(w: nat, n: nat): Word
    requires n <= w <= 15
  {
    IdxSmall(n);
    FullWord(if n == w then 0 - 1 else Mask(Idx(n)))
  }

  function MakeSorted(w: nat, n: nat): Word
    requires 1 <= w <= 15 && n <= w
  {
    IdxSmall(n);
    Or(Or(Up(MakeEmpty(w), Idx(n)), FullBelow(w, n)), Idx(n) as Word)
  }

  function InsertWord(x: Word, i: nat, value: Word): Word
    requires i < 15
  {
    Small(i);
    IdxSmall(i + 1);
    Or(Or(Keep(More(x), Idx(i)), Put(value, Idx(i))), Drop(Up(x, 1), Idx(i + 1)))
  }

  function SlotAt(x: Word, k: nat): Word
    requires k < 15
  {
    Small(k);
    Slot(x, Idx(k))
  }

  function InsertFromBack(x: Word, w: nat, i: nat): Word
    requires 1 <= w <= 15 && i < w
  {
    InsertWord(x, i, SlotAt(x, w - 1))
  }

  function InsertSelected(x: Word, di: nat, si: nat): Word
    requires di < 15 && si < 15
  {
    Small(di);
    IdxSmall(di + 1);
    IdxSmall(si + 1);
    Or(Or(Or(Keep(More(x), Idx(di)), Put(SlotAt(x, si), Idx(di))), Drop(Keep(Up(x, 1), Idx(si + 1)), Idx(di + 1))),
       Drop(x, Idx(si + 1)))
  }

  /** Moves slot `i` behind the `m` slots after it, and takes one off the size. */
  function RotateRange(x: Word, i: Index, m: Index): Word
    requires i < 15 && m < 15
  {
    var y := Within(x, i, m);
    Or(Or(Outside(Less(x), i, m), Within(Down(y, 1), i, m)), Within(Up(y, m), i, m))
  }

  function Remove(x: Word, i: nat): Word
    requires i < Size(x)
  {
    var m := Size(x) - i - 1;
    if m == 0 then Less(x)
    else
      Small(i);
      Small(m);
      RotateRange(x, Idx(i), Idx(m))
  }

  function RemoveToBack(x: Word, w: nat, i: nat): Word
    requires 1 <= w <= 15 && i < w
  {
    IdxSmall(w);
    IdxSmall(i);
    IdxSmall(w - i - 1);
    var y := Keep(x, Idx(w));
    Or(Or(Keep(Less(y), Idx(i)), Drop(Down(y, 1), Idx(i))), Up(Drop(y, Idx(i)), Idx(w - i - 1)))
  }

  function Rotate(x: Word, w: nat, i: nat, j: nat): Word
    requires 1 <= w <= 15 && i <= j <= w
  {
    IdxSmall(w);
    IdxSmall(i);
    IdxSmall(j - i);
    IdxSmall(w - j);
    var y := Keep(x, Idx(w));
    if i == w then y else Or(Or(Keep(y, Idx(i)), Drop(Down(y, Idx(j - i)), Idx(i))), Up(Drop(y, Idx(i)), Idx(w - j)))
  }

  /* What each operation does to each slot. */

  /** Three pieces of which at most one is not empty in slot `k`. */
  lemma Three(a: Word, b: Word, c: Word, k: nat)
    requires k < 15 && Size(b) == 0 && Size(c) == 0
    ensures At(b, k) == 0 && At(c, k) == 0 ==> At(Or(Or(a, b), c), k) == At(a, k)
    ensures At(a, k) == 0 && At(c, k) == 0 ==> At(Or(Or(a, b), c), k) == At(b, k)
    ensures At(a, k) == 0 && At(b, k) == 0 ==> At(Or(Or(a, b), c), k) == At(c, k)
    ensures Size(Or(Or(a, b), c)) == Size(a)
  {
    hide Or, At, Size;
    Two(a, b, k);
    Two(Or(a, b), c, k);
  }

  lemma UpOne(x: Word, k: nat)
    requires k < 15
    ensures 0 < k ==> At(Up(x, 1), k) == At(x, k - 1)
  {
    IdxOne();
    hide Up, At, Idx;
    UpAt(x, 1, k);
  }

  lemma InsertAt(x: Word, i: nat, value: Word, k: nat)
    requires i < 15 && k < 15 && Size(x) < 15 && value < 16
    ensures Size(InsertWord(x, i, value)) == Size(x) + 1
    ensures At(InsertWord(x, i, value), k) == if k < i then At(x, k) else if k == i then Num(value) else At(x, k - 1)
  {
    hide Or, Keep, Drop, Put, Up, At, Size, More, Idx, Slot, Num;
    KeepAt(More(x), i, k);
    MoreAt(x, k);
    PutAt(value, i, k);
    DropAt(Up(x, 1), i + 1, k);
    UpOne(x, k);
    Three(Keep(More(x), Idx(i)), Put(value, Idx(i)), Drop(Up(x, 1), Idx(i + 1)), k);
  }

  lemma AtSmall(x: Word, k: nat)
    requires k < 15
    ensures SlotAt(x, k) < 16 && Num(SlotAt(x, k)) == At(x, k)
  {
    hide Slot, Idx, SizeField, Num;
    Small(k);
    SlotSmall(x, Idx(k));
  }

  lemma SelectAt(x: Word, di: nat, si: nat, k: nat)
    requires di <= si < 15 && k < 15 && Size(x) < 15
    ensures Size(InsertSelected(x, di, si)) == Size(x) + 1
    ensures At(InsertSelected(x, di, si), k) == if k == di then At(x, si) else if di < k <= si then
      At(x, k - 1) else At(x, k)
  {
    hide Or, Keep, Drop, Put, Up, At, Size, More, Idx, Slot, Num, SlotAt;
    var v := SlotAt(x, si);
    AtSmall(x, si);
    KeepAt(More(x), di, k);
    MoreAt(x, k);
    PutAt(v, di, k);
    KeepAt(Up(x, 1), si + 1, k);
    DropAt(Keep(Up(x, 1), Idx(si + 1)), di + 1, k);
    UpOne(x, k);
    DropAt(x, si + 1, k);
    var a, b, c := Keep(More(x), Idx(di)), Put(v, Idx(di)), Drop(Keep(Up(x, 1), Idx(si + 1)), Idx(di + 1));
    Three(a, b, c, k);
    Two(Or(Or(a, b), c), Drop(x, Idx(si + 1)), k);
  }

  /** With the destination behind the source, the word built from four overlapping pieces. */
  lemma SelectBehindSlot(x: Word, di: Index, si: Index, k: Index)
    requires si < di < 15 && k < 15 && SizeField(x) < 15
    ensures var y := Or(Or(Or(Keep(More(x), di), Put(Slot(x, si), di)), Drop(Keep(Up(x, 1), si + 1), di + 1)),
      Drop(x, si + 1));
            && Slot(y, k) == (if k == di then Or(Slot(x, si), Slot(x, di)) else Slot(x, k))
            && SizeField(y) == More(SizeField(x))
  {
    hide Or, Keep, Drop, Put, Up, More, Slot, SizeField;
    var v := Slot(x, si);
    var a, b := Keep(More(x), di), Put(v, di);
    var c, d := Drop(Keep(Up(x, 1), si + 1), di + 1), Drop(x, si + 1);
    SlotSmall(x, si);
    MoreSlot(x, k);
    KeepSlot(More(x), di, k);
    PutSlot(v, di, k);
    KeepSlot(Up(x, 1), si + 1, k);
    DropSlot(Keep(Up(x, 1), si + 1), di + 1, k);
    DropSlot(x, si + 1, k);
    OrSlot(a, b, k);
    OrSlot(Or(a, b), c, k);
    OrSlot(Or(Or(a, b), c), d, k);
    OrSize(a, b);
    OrSize(Or(a, b), c);
    OrSize(Or(Or(a, b), c), d);
    OrZero(Slot(x, k));
    OrZero(v);
    OrSame(Slot(x, k));
    OrZero(More(SizeField(x)));
    OrZero(0);
  }

  /** With the destination behind the source nothing moves: the destination is overlaid with the
      bits of the source, and every other slot keeps its element. */
  lemma SelectBehind(x: Word, di: nat, si: nat, k: nat)
    requires si < di < 15 && k < 15 && Size(x) < 15
    ensures Size(InsertSelected(x, di, si)) == Size(x) + 1
    ensures SlotAt(InsertSelected(x, di, si), k) == if k == di then Or(SlotAt(x, si), SlotAt(x, di)) else SlotAt(x, k)
  {
    hide Or, Keep, Drop, Put, Up, More, Idx, Slot, Num, SizeField;
    Small(di);
    Small(si);
    Small(k);
    IdxStep(di);
    IdxStep(si);
    IdxOrder(si, di);
    IdxOrder(k, di);
    SizeSmall(x);
    NumLess(SizeField(x));
    NumMore(SizeField(x));
    SelectBehindSlot(x, Idx(di), Idx(si), Idx(k));
  }

  /** The elements behind `i` come down by one. */
  lemma RemoveMid(x: Word, i: nat, m: nat, k: nat)
    requires i + m < 15 && 0 < m && k < 15
    ensures Idx(i) < 15 && Idx(m) < 15
    ensures var b := Within(Down(Within(x, Idx(i), Idx(m)), 1), Idx(i), Idx(m));
            At(b, k) == (if i <= k < i + m then At(x, k + 1) else 0) && Size(b) == 0
  {
    hide Within, Outside, Down, At, Size, Idx, Slot;
    Small(i);
    Small(m);
    var y := Within(x, Idx(i), Idx(m));
    WithinAt(Down(y, 1), i, m, k);
    WithinSizes(Down(y, 1), i, m);
    if k + 1 < 15 {
      DownOne(y, k);
      WithinAt(x, i, m, k + 1);
    } else {
      WithinTopAt(x, i, m);
    }
  }

  /** The element at `i` goes to the end of the range. */
  lemma RemoveHigh(x: Word, i: nat, m: nat, k: nat)
    requires i + m < 15 && 0 < m && k < 15
    ensures Idx(i) < 15 && Idx(m) < 15
    ensures var c := Within(Up(Within(x, Idx(i), Idx(m)), Idx(m)), Idx(i), Idx(m));
            At(c, k) == (if k == i + m then At(x, i) else 0) && Size(c) == 0
  {
    hide Within, Outside, Up, At, Size, Idx, Slot;
    Small(i);
    Small(m);
    var y := Within(x, Idx(i), Idx(m));
    UpAt(y, m, k);
    WithinAt(Up(y, Idx(m)), i, m, k);
    WithinSizes(Up(y, Idx(m)), i, m);
    WithinSizes(x, i, m);
    WithinAt(x, i, m, if m <= k then k - m else 0);
  }

  lemma RangeAt(x: Word, i: nat, m: nat, k: nat)
    requires i + m < 15 && 0 < m && k < 15 && Size(x) != 0
    ensures Idx(i) < 15 && Idx(m) < 15
    ensures Size(RotateRange(x, Idx(i), Idx(m))) == Size(x) - 1
    ensures At(RotateRange(x, Idx(i), Idx(m)), k) ==
      if i <= k < i + m then At(x, k + 1) else if k == i + m then At(x, i) else At(x, k)
  {
    hide Or, Within, Outside, Up, Down, At, Less, Idx, Slot, Size;
    Small(i);
    Small(m);
    LessAt(x, k);
    WithinAt(Less(x), i, m, k);
    WithinSizes(Less(x), i, m);
    RemoveMid(x, i, m, k);
    RemoveHigh(x, i, m, k);
    var y := Within(x, Idx(i), Idx(m));
    Three(Outside(Less(x), Idx(i), Idx(m)), Within(Down(y, 1), Idx(i), Idx(m)),
        Within(Up(y, Idx(m)), Idx(i), Idx(m)), k);
  }

  lemma RemoveAt(x: Word, i: nat, k: nat)
    requires i < Size(x) && k < 15
    ensures Size(Remove(x, i)) == Size(x) - 1
    ensures At(Remove(x, i), k) ==
      if i <= k < Size(x) - 1 then At(x, k + 1) else if k == Size(x) - 1 then At(x, i) else At(x, k)
  {
    hide RotateRange, At, Less, Idx, Slot, Size;
    SizeBelow(x);
    LessAt(x, k);
    if Size(x) - i - 1 > 0 { RangeAt(x, i, Size(x) - i - 1, k); }
  }

  lemma SizeBelow(x: Word)
    ensures Size(x) < 16
  {
  }

  /** The part of a rotation that moves slots down by `m`. */
  lemma RotateMid(x: Word, w: nat, i: nat, m: nat, k: nat)
    requires 1 <= w <= 15 && i + m <= w && k < w
    ensures Idx(w) <= 15 && Idx(i) <= 15 && Idx(m) <= 15
    ensures var b := Drop(Down(Keep(x, Idx(w)), Idx(m)), Idx(i));
            At(b, k) == (if i <= k < w - m then At(x, k + m) else 0) && Size(b) == 0
  {
    hide Keep, Drop, Down, At, Size, Idx, Slot;
    IdxSmall(w);
    IdxSmall(i);
    IdxSmall(m);
    var y := Keep(x, Idx(w));
    DropAt(Down(y, Idx(m)), i, k);
    if k + m < w {
      DownAt(y, m, k);
      KeepAt(x, w, k + m);
    } else {
      DownTopAt(x, w, m, k);
    }
  }

  /** The part of a rotation that moves slots up by `m`. */
  lemma RotateHigh(x: Word, w: nat, i: nat, m: nat, k: nat)
    requires 1 <= w <= 15 && i + m <= w && k < w
    ensures Idx(w) <= 15 && Idx(i) <= 15 && Idx(m) <= 15
    ensures var c := Up(Drop(Keep(x, Idx(w)), Idx(i)), Idx(m));
            At(c, k) == (if i + m <= k then At(x, k - m) else 0) && Size(c) == 0
  {
    hide Keep, Drop, Up, At, Size, Idx, Slot;
    IdxSmall(w);
    IdxSmall(i);
    IdxSmall(m);
    var y := Keep(x, Idx(w));
    var h := if m <= k then k - m else 0;
    DropAt(y, i, h);
    UpAt(Drop(y, Idx(i)), m, k);
    KeepAt(x, w, h);
  }

  lemma BackAt(x: Word, w: nat, i: nat, k: nat)
    requires 1 <= w <= 15 && i < w && Size(x) != 0 && k < w
    ensures Size(RemoveToBack(x, w, i)) == Size(x) - 1
    ensures At(RemoveToBack(x, w, i), k) == if k < i then At(x, k) else if k < w - 1 then At(x, k + 1) else At(x, i)
  {
    IdxOne();
    hide Or, Keep, Drop, Up, Down, At, Size, Less, Idx, Slot;
    IdxSmall(w);
    var y := Keep(x, Idx(w));
    KeepAt(x, w, k);
    LessAt(y, k);
    KeepAt(Less(y), i, k);
    RotateMid(x, w, i, 1, k);
    RotateHigh(x, w, i, w - i - 1, k);
    Three(Keep(Less(y), Idx(i)), Drop(Down(y, 1), Idx(i)), Up(Drop(y, Idx(i)), Idx(w - i - 1)), k);
  }

  lemma RotateAt(x: Word, w: nat, i: nat, j: nat, k: nat)
    requires 1 <= w <= 15 && i <= j <= w && k < w
    ensures Size(Rotate(x, w, i, j)) == Size(x)
    ensures At(Rotate(x, w, i, j), k) ==
      At(x, if k < i then k else if k < i + (w - j) then k + (j - i) else k - (w - j))
  {
    hide Or, Keep, Drop, Up, Down, At, Size, Idx, Slot;
    KeepAt(x, w, k);
    if i < w {
      var y := Keep(x, Idx(w));
      KeepAt(y, i, k);
      RotateMid(x, w, i, j - i, k);
      RotateHigh(x, w, i, w - j, k);
      Three(Keep(y, Idx(i)), Drop(Down(y, Idx(j - i)), Idx(i)), Up(Drop(y, Idx(i)), Idx(w - j)), k);
    }
  }

  /* Exchanging two positions or two values. */

  function Difference(x: Word, i: Index, j: Index): Word
    requires i < 15 && j < 15
  {
    ((x >> (i << 2)) ^ (x >> (j << 2))) & 240
  }

  function ExchangeWord(x: Word, i: Index, j: Index): Word
    requires i < 15 && j < 15
  {
    Xor(x, Or(Up(Difference(x, i, j), i), Up(Difference(x, i, j), j)))
  }

  function Exchange(x: Word, i: nat, j: nat): Word
    requires i < 15 && j < 15
  {
    Small(i);
    Small(j);
    ExchangeWord(x, Idx(i), Idx(j))
  }

  lemma XorBits(a: Word, b: Word, k: Index)
    requires k < 15
    ensures Slot(a ^ b, k) == Slot(a, k) ^ Slot(b, k)
  {
  }

  lemma XorSlot(a: Word, b: Word, k: Index)
    requires k < 15
    ensures Slot(Xor(a, b), k) == Xor(Slot(a, k), Slot(b, k))
  {
    hide Slot;
    XorBits(a, b, k);
  }

  lemma XorSize(a: Word, b: Word)
    ensures SizeField(Xor(a, b)) == Xor(SizeField(a), SizeField(b))
  {
  }

  lemma XorLaws(a: Word, b: Word)
    ensures Xor(a, 0) == a && Xor(a, Xor(a, b)) == b && Xor(b, Xor(a, b)) == a
  {
  }

  lemma DifferenceIs(x: Word, i: Index, j: Index)
    requires i < 15 && j < 15
    ensures Up(Difference(x, i, j), i) == Put(Xor(Slot(x, i), Slot(x, j)), i)
  {
  }

  lemma DifferenceMirrored(x: Word, i: Index, j: Index)
    requires i < 15 && j < 15
    ensures Up(Difference(x, i, j), j) == Put(Xor(Slot(x, i), Slot(x, j)), j)
  {
  }

  lemma XorSmall(a: Word, b: Word)
    requires a < 16 && b < 16
    ensures Xor(a, b) < 16
  {
  }

  /** The difference in both slots and nowhere else. */
  lemma PutBoth(d: Word, i: Index, j: Index, k: Index)
    requires i < 15 && j < 15 && k < 15 && d < 16
    ensures Slot(Or(Put(d, i), Put(d, j)), k) == if k == i || k == j then d else 0
  {
    hide Slot, Or, Put;
    PutSlot(d, i, k);
    PutSlot(d, j, k);
    OrSlot(Put(d, i), Put(d, j), k);
    if k == i && k == j {
      OrSame(d);
    } else if k == i || k == j {
      OrZero(d);
    } else {
      OrZero(0);
    }
  }

  lemma OrSame(d: Word)
    ensures Or(d, d) == d
  {
  }

  lemma ExchangeIs(x: Word, i: Index, j: Index)
    requires i < 15 && j < 15
    ensures var d := Xor(Slot(x, i), Slot(x, j)); ExchangeWord(x, i, j) == Xor(x, Or(Put(d, i), Put(d, j))) && d < 16
  {
    hide Slot, Xor, Or, Up, Put, Difference;
    DifferenceIs(x, i, j);
    DifferenceMirrored(x, i, j);
    SlotSmall(x, i);
    SlotSmall(x, j);
    XorSmall(Slot(x, i), Slot(x, j));
  }

  lemma ExchangeIndex(x: Word, i: Index, j: Index, k: Index)
    requires i < 15 && j < 15 && k < 15
    ensures Slot(ExchangeWord(x, i, j), k) == if k == i then Slot(x, j) else if k == j then Slot(x, i) else Slot(x, k)
  {
    hide Slot, Xor, Or, Put, ExchangeWord;
    var d := Xor(Slot(x, i), Slot(x, j));
    ExchangeIs(x, i, j);
    PutBoth(d, i, j, k);
    XorSlot(x, Or(Put(d, i), Put(d, j)), k);
    if k == i || k == j {
      XorLaws(Slot(x, i), Slot(x, j));
    } else {
      XorLaws(Slot(x, k), 0);
    }
  }

  lemma ExchangeSlot(x: Word, i: nat, j: nat, k: nat)
    requires i < 15 && j < 15 && k < 15
    ensures Idx(i) < 15 && Idx(j) < 15 && Idx(k) < 15
    ensures Slot(ExchangeWord(x, Idx(i), Idx(j)), Idx(k)) == if k == i then Slot(x, Idx(j)) else if k == j then
      Slot(x, Idx(i)) else Slot(x, Idx(k))
  {
    hide Slot, ExchangeWord, Idx;
    Small(i);
    Small(j);
    Small(k);
    IdxOrder(k, i);
    IdxOrder(k, j);
    ExchangeIndex(x, Idx(i), Idx(j), Idx(k));
  }

  lemma ExchangeSize(x: Word, i: Index, j: Index)
    requires i < 15 && j < 15
    ensures SizeField(ExchangeWord(x, i, j)) == SizeField(x)
  {
  }

  lemma ExchangeAt(x: Word, i: nat, j: nat, k: nat)
    requires i < 15 && j < 15 && k < 15
    ensures Size(Exchange(x, i, j)) == Size(x)
    ensures At(Exchange(x, i, j), k) == At(x, if k == i then j else if k == j then i else k)
  {
    hide Slot, ExchangeWord, Idx, Num, SizeField;
    Small(i);
    Small(j);
    Small(k);
    ExchangeSize(x, Idx(i), Idx(j));
    ExchangeSlot(x, i, j, k);
  }

  /** What exchanging the values `a` and `b` does to one slot that holds `v`. */
  function Flip(v: Word, a: Word, b: Word): Word { if v == a || v == b then Xor(a, b) else 0 }

  /** The difference collected by the first `t` rounds, which look at the slots from the last one down. */
  function FlipsAfter(x: Word, w: nat, t: nat, a: Word, b: Word): Word
    requires t <= w <= 15
  {
    if t == 0 then 0 else Up(Xor(FlipsAfter(x, w, t - 1, a, b), Flip(SlotAt(x, w - t), a, b)), 1)
  }

  function ExchangeValuesWord(x: Word, w: nat, a: Word, b: Word): Word
    requires w <= 15
  {
    Xor(x, FlipsAfter(x, w, w, a, b))
  }

  /** The slots of that difference. */
  ghost predicate Flipped(x: Word, diff: Word, w: nat, t: nat, a: Word, b: Word)
    requires t <= w <= 15
  {
    SizeField(diff) == 0 && forall k :: 0 <= k < t ==> SlotAt(diff, k) == Flip(SlotAt(x, w - t + k), a, b)
  }

  lemma TopSlot(x: Word, w: nat, t: nat)
    requires t < w <= 15
    ensures Idx(t) <= 15 && SlotAt(Up(x, Idx(t)), w - 1) == SlotAt(x, w - 1 - t)
  {
    hide Up, Slot, Idx;
    IdxSmall(t);
    Small(w - 1);
    Small(w - 1 - t);
    IdxAdd(w - 1 - t, t);
    IdxOrder(t, w);
    IdxSmall(w - 1 - t);
    UpSlot(x, Idx(t), Idx(w - 1));
  }

  lemma ShiftIn(diff: Word, e: Word, k: nat)
    requires SizeField(diff) == 0 && e < 16 && k < 15
    ensures SizeField(Up(Xor(diff, e), 1)) == 0
    ensures SlotAt(Up(Xor(diff, e), 1), k) == if k == 0 then e else SlotAt(diff, k - 1)
  {
    hide Up, Xor, Slot, Idx, SizeField;
    Small(k);
    ShiftInZero(diff, e);
    if k > 0 {
      Small(k - 1);
      IdxStep(k - 1);
      ShiftInMore(diff, e, Idx(k - 1));
    }
  }

  lemma ShiftInZero(diff: Word, e: Word)
    requires SizeField(diff) == 0 && e < 16
    ensures SizeField(Up(Xor(diff, e), 1)) == 0 && SlotAt(Up(Xor(diff, e), 1), 0) == e
  {
  }

  lemma ShiftInMore(diff: Word, e: Word, k: Index)
    requires e < 16 && k < 14
    ensures Slot(Up(Xor(diff, e), 1), k + 1) == Slot(diff, k)
  {
  }

  /** The loop that exchanges the positions of two values. */
  method ExchangeValues(x: Word, w: nat, a: Word, b: Word) returns (y: Word)
    requires 1 <= w <= 15 && a < 16 && b < 16
    ensures y == ExchangeValuesWord(x, w, a, b)
  {
    hide Up, Xor, Slot, Idx, SizeField, SlotAt, Flip;
    var diff: Word, p: Word := 0, x;
    UpNone(x);
    for t := 0 to w
      invariant diff == FlipsAfter(x, w, t, a, b)
      invariant Idx(t) <= 15 && p == Up(x, Idx(t))
    {
      TopSlot(x, w, t);
      UpTwice(x, t);
      var v := SlotAt(p, w - 1);
      diff := Up(Xor(diff, Flip(v, a, b)), 1);
      p := Up(p, 1);
    }
    y := Xor(x, diff);
  }

  lemma UpNone(x: Word)
    ensures Idx(0) <= 15 && Up(x, Idx(0)) == x
  {
  }

  lemma {:induction false} FlipsFlipped(x: Word, w: nat, t: nat, a: Word, b: Word)
    requires t <= w <= 15 && a < 16 && b < 16
    ensures Flipped(x, FlipsAfter(x, w, t, a, b), w, t, a, b)
  {
    hide Flipped, Flip, Up, Xor, SlotAt;
    if t > 0 {
      FlipsFlipped(x, w, t - 1, a, b);
      FlipRound(x, FlipsAfter(x, w, t - 1, a, b), w, t - 1, a, b);
    } else {
      NothingFlipped(x, w, a, b);
    }
  }

  lemma NothingFlipped(x: Word, w: nat, a: Word, b: Word)
    requires w <= 15
    ensures Flipped(x, 0, w, 0, a, b)
  {
  }

  lemma FlipRound(x: Word, diff: Word, w: nat, t: nat, a: Word, b: Word)
    requires t < w <= 15 && a < 16 && b < 16 && Flipped(x, diff, w, t, a, b)
    ensures Flipped(x, Up(Xor(diff, Flip(SlotAt(x, w - 1 - t), a, b)), 1), w, t + 1, a, b)
  {
    hide Up, Slot, Idx, SizeField, SlotAt;
    var e := Flip(SlotAt(x, w - 1 - t), a, b);
    XorSmall(a, b);
    forall k | 0 <= k < t + 1
      ensures SlotAt(Up(Xor(diff, e), 1), k) == Flip(SlotAt(x, w - (t + 1) + k), a, b)
    {
      ShiftIn(diff, e, k);
    }
    ShiftIn(diff, e, 0);
  }

  /** Exchanging two values replaces each of them by the other wherever it stands. */
  lemma ExchangeValuesAt(x: Word, w: nat, a: Word, b: Word)
    requires 1 <= w <= 15 && a < 16 && b < 16
    ensures var y := ExchangeValuesWord(x, w, a, b);
            && SizeField(y) == SizeField(x)
            && forall k :: 0 <= k < w ==>
                 SlotAt(y, k) == if SlotAt(x, k) == a then b else if SlotAt(x, k) == b then a else SlotAt(x, k)
  {
    hide Xor, SizeField, SlotAt, FlipsAfter;
    FlipsFlipped(x, w, w, a, b);
    FlipEnd(x, FlipsAfter(x, w, w, a, b), w, a, b);
  }

  lemma UpTwice(x: Word, t: nat)
    requires t < 15
    ensures Idx(t) <= 15 && Idx(t + 1) <= 15 && Up(Up(x, Idx(t)), 1) == Up(x, Idx(t + 1))
  {
    hide Idx, Up;
    Small(t);
    IdxStep(t);
    IdxSmall(t + 1);
    UpAgain(x, Idx(t));
  }

  lemma UpAgain(x: Word, m: Index)
    requires m < 15
    ensures Up(Up(x, m), 1) == Up(x, m + 1)
  {
  }

  lemma FlipEnd(x: Word, diff: Word, w: nat, a: Word, b: Word)
    requires 1 <= w <= 15 && a < 16 && b < 16 && Flipped(x, diff, w, w, a, b)
    ensures SizeField(Xor(x, diff)) == SizeField(x)
    ensures forall k :: 0 <= k < w ==>
      SlotAt(Xor(x, diff), k) == if SlotAt(x, k) == a then b else if SlotAt(x, k) == b then a else SlotAt(x, k)
  {
    hide Xor, Slot, Idx, SizeField;
    XorSize(x, diff);
    XorLaws(SizeField(x), 0);
    XorLaws(a, b);
    forall k | 0 <= k < w
      ensures SlotAt(Xor(x, diff), k) == if SlotAt(x, k) == a then b else if SlotAt(x, k) == b then a else SlotAt(x, k)
    {
      Small(k);
      XorSlot(x, diff, Idx(k));
      XorLaws(SlotAt(x, k), 0);
      assert SlotAt(diff, k) == Flip(SlotAt(x, w - w + k), a, b);
    }
  }

  /* The initial permutations. */

  lemma EmptySlot(short: Index, w: Index, k: Index, e: Index)
    requires k < 15 && e < 15 && short <= 15 && w == e + k + 1 && short + w == 15
    ensures Slot(NoSize(Down(0x0123456789ABCDE0, short)), k) == e as Word
  {
  }

  lemma EmptyIndices(w: nat, k: nat)
    requires 1 <= w <= 15 && k < w
    ensures Idx(k) < 15 && Idx(w - 1 - k) < 15 && Idx(15 - w) <= 15
    ensures Idx(w) == Idx(w - 1 - k) + Idx(k) + 1 && Idx(15 - w) + Idx(w) == 15
  {
    IdxFifteen();
    hide Idx;
    Small(k);
    Small(w - 1 - k);
    IdxSmall(15 - w);
    IdxAdd(15 - w, w);
    IdxStep(k);
    IdxAdd(w - 1 - k, k + 1);
  }

  lemma EmptyAt(w: nat, k: nat)
    requires 1 <= w <= 15 && k < w
    ensures Size(MakeEmpty(w)) == 0 && At(MakeEmpty(w), k) == w - 1 - k
  {
    hide Down, Slot, Idx, NoSize, SizeField, Num;
    EmptySize(w);
    NumZero(0);
    EmptyIndices(w, k);
    IdxSmall(w - 1 - k);
    EmptySlot(Idx(15 - w), Idx(w), Idx(k), Idx(w - 1 - k));
  }

  lemma IdxFifteen()
    ensures Idx(15) == 15
  {
  }

  lemma EmptySize(w: nat)
    requires 1 <= w <= 15
    ensures SizeField(MakeEmpty(w)) == 0
  {
    hide Down, Idx;
    IdxSmall(15 - w);
  }

  lemma FullSlot(n: Index, k: Index)
    requires n <= 15 && k < 15
    ensures Slot(FullWord(Mask(n)), k) == (if k < n then k as Word else 0) && SizeField(FullWord(Mask(n))) == 0
    ensures Slot(FullWord(0 - 1), k) == k as Word && SizeField(FullWord(0 - 1)) == 0
  {
  }

  lemma FullAt(w: nat, n: nat, k: nat)
    requires n <= w <= 15 && k < w
    ensures At(FullBelow(w, n), k) == (if k < n then k else 0) && Size(FullBelow(w, n)) == 0
  {
    hide Slot, Idx, SizeField, Num, Mask, FullWord;
    Small(k);
    IdxSmall(k);
    IdxSmall(n);
    IdxOrder(k, n);
    NumZero(0);
    FullSlot(Idx(n), Idx(k));
  }

  lemma SizeOnly(n: Index, k: Index)
    requires n <= 15 && k < 15
    ensures Slot(n as Word, k) == 0 && SizeField(n as Word) == n as Word
  {
  }

  lemma SortedAt(w: nat, n: nat, k: nat)
    requires 1 <= w <= 15 && n <= w && k < w
    ensures Size(MakeSorted(w, n)) == n
    ensures At(MakeSorted(w, n), k) == if k < n then k else w - 1 - (k - n)
  {
    hide Or, Up, MakeEmpty, FullBelow, Slot, Idx, SizeField, Num;
    Small(k);
    IdxSmall(n);
    NumZero(0);
    SizeOnly(Idx(n), Idx(k));
    FullAt(w, n, k);
    EmptyAt(w, if n <= k then k - n else 0);
    UpAt(MakeEmpty(w), n, k);
    var a, b, c := Up(MakeEmpty(w), Idx(n)), FullBelow(w, n), Idx(n) as Word;
    Two(a, b, k);
    Two(Or(a, b), c, k);
  }

  lemma NumInjective(u: Word, v: Word)
    requires u < 16 && v < 16
    ensures Num(u) == Num(v) <==> u == v
  {
  }

  /** Exchanging two values, in numbers. */
  lemma ExchangedAt(x: Word, y: Word, a: Word, b: Word, k: nat)
    requires k < 15 && a < 16 && b < 16
    requires SlotAt(y, k) == if SlotAt(x, k) == a then b else if SlotAt(x, k) == b then a else SlotAt(x, k)
    ensures At(y, k) == if At(x, k) == Num(a) then Num(b) else if At(x, k) == Num(b) then Num(a) else At(x, k)
  {
    hide SlotAt, At, Num;
    AtSmall(x, k);
    AtSmall(y, k);
    NumInjective(SlotAt(x, k), a);
    NumInjective(SlotAt(x, k), b);
  }
}
