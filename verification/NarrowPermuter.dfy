/** Permuters of width up to 7, which the source keeps in a 32-bit word: each operation on that word
    is the low half of the operation on the 64-bit word. */
module NarrowPermutations {
  import opened PackedPermutations
  import opened PermutedNodes

  type Half = bv32

  function Wide(x: Half): Word { x as Word }

  function Low(y: Word): Half { (y & 0xFFFF_FFFF) as Half }

  /* The pieces of the expressions, in 32 bits. */

  function HalfSlot(x: Half, i: Index): Half
    requires i < 7
  {
    (x >> ((i << 2) + 4)) & 15
  }

  function HalfMask(i: Index): Half
    requires i <= 7
  {
    (16 << (i << 2)) - 1
  }

  function HalfOr(a: Half, b: Half): Half { a | b }

  function HalfXor(a: Half, b: Half): Half { a ^ b }

  function HalfMore(x: Half): Half { x + 1 }

  function HalfLess(x: Half): Half { x - 1 }

  function HalfAnd(a: Half, b: Half): Half { a & b }

  function HalfAndNot(a: Half, b: Half): Half { a & !b }

  function HalfKeep(x: Half, i: Index): Half
    requires i <= 7
  {
    HalfAnd(x, HalfMask(i))
  }

  function HalfDrop(x: Half, i: Index): Half
    requires i <= 7
  {
    HalfAndNot(x, HalfMask(i))
  }

  function HalfUp(x: Half, m: Index): Half
    requires m <= 7
  {
    x << (m << 2)
  }

  function HalfDown(x: Half, m: Index): Half
    requires m <= 7
  {
    x >> (m << 2)
  }

  function HalfPut(value: Half, i: Index): Half
    requires i < 7
  {
    value << ((i << 2) + 4)
  }

  function HalfRange(i: Index, m: Index): Half
    requires i < 7 && m < 7
  {
    HalfUp(HalfMask(m), i + 1)
  }

  function HalfWithin(x: Half, i: Index, m: Index): Half
    requires i < 7 && m < 7
  {
    HalfAnd(x, HalfRange(i, m))
  }

  function HalfOutside(x: Half, i: Index, m: Index): Half
    requires i < 7 && m < 7
  {
    HalfAndNot(x, HalfRange(i, m))
  }

  function HalfDifference(x: Half, i: Index, j: Index): Half
    requires i < 7 && j < 7
  {
    HalfAnd(HalfXor(HalfDown(x, i), HalfDown(x, j)), 240)
  }

  /* How the pieces in 64 bits relate to them. */

  lemma LowWide(x: Half)
    ensures Low(Wide(x)) == x
  {
  }

  lemma LowOr(a: Word, b: Word)
    ensures Low(Or(a, b)) == HalfOr(Low(a), Low(b))
  {
  }

  lemma LowXor(a: Word, b: Word)
    ensures Low(Xor(a, b)) == HalfXor(Low(a), Low(b))
  {
  }

  lemma LowAnd(a: Word, b: Word)
    ensures Low(And(a, b)) == HalfAnd(Low(a), Low(b))
  {
  }

  lemma LowAndNot(a: Word, b: Word)
    ensures Low(AndNot(a, b)) == HalfAndNot(Low(a), Low(b))
  {
  }

  lemma WideAnd(x: Half, b: Word)
    ensures And(Wide(x), b) == Wide(HalfAnd(x, Low(b)))
  {
  }

  lemma KeepIsAnd(y: Word, i: Index)
    requires i <= 15
    ensures Keep(y, i) == And(y, Mask(i)) && Drop(y, i) == AndNot(y, Mask(i))
  {
    hide Mask;
  }

  lemma RangeIsUp(i: Index, m: Index)
    requires i < 15 && m < 15
    ensures Range(i, m) == Up(Mask(m), i + 1)
  {
    hide Mask;
  }

  lemma LowMask(i: Index)
    requires i <= 7
    ensures Low(Mask(i)) == HalfMask(i)
  {
    if i <= 3 {
      if i == 0 {} else if i == 1 {} else if i == 2 {} else { assert i == 3; }
    } else {
      if i == 4 {} else if i == 5 {} else if i == 6 {} else { assert i == 7; }
    }
  }

  lemma LowKeep(y: Word, i: Index)
    requires i <= 7
    ensures Low(Keep(y, i)) == HalfKeep(Low(y), i) && Low(Drop(y, i)) == HalfDrop(Low(y), i)
  {
    hide Mask, HalfMask, Low, And, AndNot, HalfAnd, HalfAndNot, Keep, Drop;
    KeepIsAnd(y, i);
    LowMask(i);
    LowAnd(y, Mask(i));
    LowAndNot(y, Mask(i));
  }

  lemma LowUp(y: Word, m: Index)
    requires m <= 7
    ensures Low(Up(y, m)) == HalfUp(Low(y), m)
  {
  }

  lemma LowCount(y: Word)
    ensures Low(More(y)) == HalfMore(Low(y)) && Low(Less(y)) == HalfLess(Low(y))
  {
  }

  lemma LowPut(v: Half, i: Index)
    requires i < 7 && v < 16
    ensures Low(Put(Wide(v), i)) == HalfPut(v, i)
  {
  }

  /** Shifting down one slot at a time. */
  lemma DownOneMore(y: Word, m: Index)
    requires m < 15
    ensures Down(y, m + 1) == Down(Down(y, m), 1)
  {
  }

  lemma HalfDownOneMore(x: Half, m: Index)
    requires m < 7
    ensures HalfDown(x, m + 1) == HalfDown(HalfDown(x, m), 1)
  {
  }

  lemma WideDownOne(x: Half)
    ensures Down(Wide(x), 1) == Wide(HalfDown(x, 1)) && Down(Wide(x), 0) == Wide(HalfDown(x, 0))
  {
  }

  lemma {:induction false} WideDown(x: Half, m: nat)
    requires m <= 7
    ensures Idx(m) <= 7 && Down(Wide(x), Idx(m)) == Wide(HalfDown(x, Idx(m)))
  {
    hide Idx, Down, HalfDown, Wide;
    Seven(m);
    if m == 0 {
      IdxSmall(0);
      WideDownOne(x);
    } else {
      WideDown(x, m - 1);
      IdxStep(m - 1);
      DownOneMore(Wide(x), Idx(m - 1));
      HalfDownOneMore(x, Idx(m - 1));
      WideDownOne(HalfDown(x, Idx(m - 1)));
    }
  }

  lemma Seven(m: nat)
    requires m <= 7
    ensures Idx(m) <= 7 && (m < 7 <==> Idx(m) < 7)
  {
  }

  lemma WideKeep(x: Half, i: Index)
    requires i <= 7
    ensures Keep(Wide(x), i) == Wide(HalfKeep(x, i))
  {
    hide Mask, HalfMask, Low, Wide, And, HalfAnd, Keep;
    KeepIsAnd(Wide(x), i);
    LowMask(i);
    WideAnd(x, Mask(i));
  }

  lemma LowRange(i: Index, m: Index)
    requires i < 7 && m < 7 && i + m < 7
    ensures Low(Range(i, m)) == HalfRange(i, m)
  {
    hide Mask, HalfMask, Low, Up, HalfUp, Range;
    RangeIsUp(i, m);
    LowMask(m);
    LowUp(Mask(m), i + 1);
  }

  lemma LowWithin(y: Word, i: Index, m: Index)
    requires i < 7 && m < 7 && i + m < 7
    ensures Low(Within(y, i, m)) == HalfWithin(Low(y), i, m) && Low(Outside(y, i, m)) == HalfOutside(Low(y), i, m)
  {
    hide Range, HalfRange, Low, And, AndNot, HalfAnd, HalfAndNot;
    LowRange(i, m);
    LowAnd(y, Range(i, m));
    LowAndNot(y, Range(i, m));
  }

  lemma WideWithin(x: Half, i: Index, m: Index)
    requires i < 7 && m < 7 && i + m < 7
    ensures Within(Wide(x), i, m) == Wide(HalfWithin(x, i, m))
  {
    hide Range, HalfRange, Low, Wide, And, HalfAnd;
    LowRange(i, m);
    WideAnd(x, Range(i, m));
  }

  lemma WideSlot(x: Half, k: Index)
    requires k < 7
    ensures Slot(Wide(x), k) == Wide(HalfSlot(x, k)) && HalfSlot(x, k) < 16
  {
  }

  lemma DifferenceParts(y: Word, i: Index, j: Index)
    requires i < 15 && j < 15
    ensures Difference(y, i, j) == And(Xor(Down(y, i), Down(y, j)), 240)
  {
  }

  lemma WideXor(a: Half, b: Half)
    ensures And(Xor(Wide(a), Wide(b)), 240) == Wide(HalfAnd(HalfXor(a, b), 240))
  {
  }

  lemma WideDifference(x: Half, i: nat, j: nat)
    requires i < 7 && j < 7
    ensures Idx(i) < 7 && Idx(j) < 7 && Difference(Wide(x), Idx(i), Idx(j)) == Wide(HalfDifference(x, Idx(i), Idx(j)))
  {
    hide Idx, Difference, Down, HalfDown, Wide, And, Xor, HalfAnd, HalfXor;
    Seven(i);
    Seven(j);
    DifferenceParts(Wide(x), Idx(i), Idx(j));
    WideDown(x, i);
    WideDown(x, j);
    WideXor(HalfDown(x, Idx(i)), HalfDown(x, Idx(j)));
  }

  lemma LowSlot(y: Word, k: Index)
    requires k < 7
    ensures Slot(Wide(Low(y)), k) == Slot(y, k) && SizeField(Wide(Low(y))) == SizeField(y)
  {
  }

  /* The operations on the 32-bit word, for widths up to 7. */

  /** Widths up to 3 start from a 16-bit pattern, the others from a 32-bit one. */
  function HalfEmpty(w: nat): Half
    requires 1 <= w <= 7
  {
    Seven(7 - w);
    if w <= 3 then HalfAndNot(HalfDown(0x0120, Idx(3 - w)), 15) else HalfAndNot(HalfDown(0x01234560, Idx(7 - w)), 15)
  }

  function HalfFull(w: nat): Half { if w <= 3 then 0x2100 else 0x65432100 }

  function HalfSorted(w: nat, n: nat): Half
    requires 1 <= w <= 7 && n <= w
  {
    Seven(n);
    HalfOr(HalfOr(HalfUp(HalfEmpty(w), Idx(n)), HalfAnd(HalfFull(w), if n == w then 0 - 1 else HalfMask(Idx(n)))),
        Idx(n) as Half)
  }

  function HalfSize(x: Half): nat { Size(Wide(x)) }

  function HalfSlotAt(x: Half, k: nat): Half
    requires k < 7
  {
    Seven(k);
    HalfSlot(x, Idx(k))
  }

  function HalfInsertWord(x: Half, i: nat, value: Half): Half
    requires i < 7
  {
    Seven(i);
    Seven(i + 1);
    HalfOr(HalfOr(HalfKeep(HalfMore(x), Idx(i)), HalfPut(value, Idx(i))), HalfDrop(HalfUp(x, 1), Idx(i + 1)))
  }

  function HalfInsertSelected(x: Half, di: nat, si: nat): Half
    requires di < 7 && si < 7
  {
    Seven(di);
    Seven(di + 1);
    Seven(si + 1);
    HalfOr(HalfOr(HalfOr(HalfKeep(HalfMore(x), Idx(di)), HalfPut(HalfSlotAt(x, si), Idx(di))),
                  HalfDrop(HalfKeep(HalfUp(x, 1), Idx(si + 1)), Idx(di + 1))),
           HalfDrop(x, Idx(si + 1)))
  }

  function HalfRotateRange(x: Half, i: Index, m: Index): Half
    requires i < 7 && m < 7
  {
    var y := HalfWithin(x, i, m);
    HalfOr(HalfOr(HalfOutside(HalfLess(x), i, m), HalfWithin(HalfDown(y, 1), i, m)), HalfWithin(HalfUp(y, m), i, m))
  }

  function HalfRemove(x: Half, i: nat): Half
    requires i < HalfSize(x) <= 7
  {
    var m := HalfSize(x) - i - 1;
    if m == 0 then HalfLess(x)
    else
      Seven(i);
      Seven(m);
      HalfRotateRange(x, Idx(i), Idx(m))
  }

  function HalfRemoveToBack(x: Half, w: nat, i: nat): Half
    requires 1 <= w <= 7 && i < w
  {
    Seven(w);
    Seven(i);
    Seven(w - i - 1);
    var y := HalfKeep(x, Idx(w));
    HalfOr(HalfOr(HalfKeep(HalfLess(y), Idx(i)), HalfDrop(HalfDown(y, 1), Idx(i))),
        HalfUp(HalfDrop(y, Idx(i)), Idx(w - i - 1)))
  }

  function HalfRotate(x: Half, w: nat, i: nat, j: nat): Half
    requires 1 <= w <= 7 && i <= j <= w
  {
    Seven(w);
    Seven(i);
    Seven(j - i);
    Seven(w - j);
    var y := HalfKeep(x, Idx(w));
    if i == w then y
    else HalfOr(HalfOr(HalfKeep(y, Idx(i)), HalfDrop(HalfDown(y, Idx(j - i)), Idx(i))),
        HalfUp(HalfDrop(y, Idx(i)), Idx(w - j)))
  }

  function HalfExchange(x: Half, i: nat, j: nat): Half
    requires i < 7 && j < 7
  {
    Seven(i);
    Seven(j);
    var d := HalfDifference(x, Idx(i), Idx(j));
    HalfXor(x, HalfOr(HalfUp(d, Idx(i)), HalfUp(d, Idx(j))))
  }

  function HalfFlips(x: Half, w: nat, t: nat, a: Half, b: Half): Half
    requires t <= w <= 7
  {
    if t == 0 then 0
    else
      var v := HalfSlotAt(x, w - t);
      HalfUp(HalfXor(HalfFlips(x, w, t - 1, a, b), if v == a || v == b then HalfXor(a, b) else 0), 1)
  }

  function HalfApply(x: Half, w: nat, op: Op): Half
    requires 1 <= w <= 7 && HalfSize(x) <= w && Legal(op, HalfSize(x), w)
  {
    match op
    case DoInsertFromBack(i) => HalfInsertWord(x, i, HalfSlotAt(x, w - 1))
    case DoInsertSelected(di, si) => HalfInsertSelected(x, di, si)
    case DoRemove(i) => HalfRemove(x, i)
    case DoRemoveToBack(i) => HalfRemoveToBack(x, w, i)
    case DoRotate(i, j) => HalfRotate(x, w, i, j)
    case DoExchange(i, j) => HalfExchange(x, i, j)
    case DoExchangeValues(u, v) => HalfXor(x, HalfFlips(x, w, w, Low(u), Low(v)))
  }

  /* Each is the low half of the operation on 64 bits. */

  lemma LowInsertWord(x: Half, i: nat, v: Half)
    requires i < 7 && v < 16
    ensures Low(InsertWord(Wide(x), i, Wide(v))) == HalfInsertWord(x, i, v)
  {
    hide Low, Wide, Or, Keep, Drop, Put, Up, More, Idx, HalfOr, HalfKeep, HalfDrop, HalfPut, HalfUp, HalfMore;
    Seven(i);
    Seven(i + 1);
    var y := Wide(x);
    LowWide(x);
    LowCount(y);
    LowKeep(More(y), Idx(i));
    LowPut(v, Idx(i));
    LowUp(y, 1);
    LowKeep(Up(y, 1), Idx(i + 1));
    var a, b, c := Keep(More(y), Idx(i)), Put(Wide(v), Idx(i)), Drop(Up(y, 1), Idx(i + 1));
    LowOr(a, b);
    LowOr(Or(a, b), c);
  }

  lemma WideSlotAt(x: Half, k: nat)
    requires k < 7
    ensures SlotAt(Wide(x), k) == Wide(HalfSlotAt(x, k)) && HalfSlotAt(x, k) < 16
  {
    hide Idx, Slot, HalfSlot, Wide;
    Seven(k);
    WideSlot(x, Idx(k));
  }

  lemma LowInsertSelected(x: Half, di: nat, si: nat)
    requires di < 7 && si < 7
    ensures Low(InsertSelected(Wide(x), di, si)) == HalfInsertSelected(x, di, si)
  {
    hide Low, Wide, Or, Keep, Drop, Put, Up, More, Idx, SlotAt, HalfOr, HalfKeep, HalfDrop, HalfPut, HalfUp,
      HalfSlotAt, HalfMore;
    Seven(di);
    Seven(di + 1);
    Seven(si + 1);
    var y := Wide(x);
    var v := HalfSlotAt(x, si);
    LowWide(x);
    WideSlotAt(x, si);
    LowCount(y);
    LowKeep(More(y), Idx(di));
    LowPut(v, Idx(di));
    LowUp(y, 1);
    LowKeep(Up(y, 1), Idx(si + 1));
    LowKeep(Keep(Up(y, 1), Idx(si + 1)), Idx(di + 1));
    LowKeep(y, Idx(si + 1));
    var a, b := Keep(More(y), Idx(di)), Put(Wide(v), Idx(di));
    var c, d := Drop(Keep(Up(y, 1), Idx(si + 1)), Idx(di + 1)), Drop(y, Idx(si + 1));
    LowOr(a, b);
    LowOr(Or(a, b), c);
    LowOr(Or(Or(a, b), c), d);
  }

  lemma LowRotateRange(x: Half, i: Index, m: Index)
    requires i < 7 && m < 7 && i + m < 7
    ensures Low(RotateRange(Wide(x), i, m)) == HalfRotateRange(x, i, m)
  {
    hide Low, Wide, Or, Within, Outside, Down, Up, Less, HalfOr, HalfWithin, HalfOutside, HalfDown, HalfUp, HalfLess;
    var y, h := Within(Wide(x), i, m), HalfWithin(x, i, m);
    LowWide(x);
    LowCount(Wide(x));
    WideWithin(x, i, m);
    LowWide(h);
    WideDownOne(h);
    LowWide(HalfDown(h, 1));
    LowUp(y, m);
    LowWithin(Less(Wide(x)), i, m);
    LowWithin(Down(y, 1), i, m);
    LowWithin(Up(y, m), i, m);
    var a, b, c := Outside(Less(Wide(x)), i, m), Within(Down(y, 1), i, m), Within(Up(y, m), i, m);
    LowOr(a, b);
    LowOr(Or(a, b), c);
  }

  lemma LowRemove(x: Half, i: nat)
    requires i < HalfSize(x) <= 7
    ensures Low(Remove(Wide(x), i)) == HalfRemove(x, i)
  {
    hide Low, Wide, RotateRange, HalfRotateRange, Less, HalfLess, Idx, Size;
    var m := HalfSize(x) - i - 1;
    LowCount(Wide(x));
    LowWide(x);
    if m > 0 {
      Seven(i);
      Seven(m);
      Seven(i + m);
      IdxAdd(i, m);
      LowRotateRange(x, Idx(i), Idx(m));
    }
  }

  lemma LowRemoveToBack(x: Half, w: nat, i: nat)
    requires 1 <= w <= 7 && i < w
    ensures Low(RemoveToBack(Wide(x), w, i)) == HalfRemoveToBack(x, w, i)
  {
    hide Low, Wide, Or, Keep, Drop, Down, Up, Less, HalfLess, Idx, HalfOr, HalfKeep, HalfDrop, HalfDown, HalfUp;
    Seven(w);
    Seven(i);
    Seven(w - i - 1);
    var y, h := Keep(Wide(x), Idx(w)), HalfKeep(x, Idx(w));
    WideKeep(x, Idx(w));
    LowWide(h);
    LowCount(y);
    LowKeep(Less(y), Idx(i));
    WideDownOne(h);
    LowWide(HalfDown(h, 1));
    LowKeep(Down(y, 1), Idx(i));
    LowKeep(y, Idx(i));
    LowUp(Drop(y, Idx(i)), Idx(w - i - 1));
    var a, b, c := Keep(Less(y), Idx(i)), Drop(Down(y, 1), Idx(i)), Up(Drop(y, Idx(i)), Idx(w - i - 1));
    LowOr(a, b);
    LowOr(Or(a, b), c);
  }

  lemma LowRotate(x: Half, w: nat, i: nat, j: nat)
    requires 1 <= w <= 7 && i <= j <= w
    ensures Low(Rotate(Wide(x), w, i, j)) == HalfRotate(x, w, i, j)
  {
    hide Low, Wide, Or, Keep, Drop, Down, Up, Idx, HalfOr, HalfKeep, HalfDrop, HalfDown, HalfUp;
    Seven(w);
    Seven(i);
    Seven(j - i);
    Seven(w - j);
    var y, h := Keep(Wide(x), Idx(w)), HalfKeep(x, Idx(w));
    WideKeep(x, Idx(w));
    LowWide(h);
    WideDown(h, j - i);
    LowWide(HalfDown(h, Idx(j - i)));
    LowKeep(y, Idx(i));
    LowKeep(Down(y, Idx(j - i)), Idx(i));
    LowUp(Drop(y, Idx(i)), Idx(w - j));
    var a, b, c := Keep(y, Idx(i)), Drop(Down(y, Idx(j - i)), Idx(i)), Up(Drop(y, Idx(i)), Idx(w - j));
    LowOr(a, b);
    LowOr(Or(a, b), c);
  }

  lemma LowExchange(x: Half, i: nat, j: nat)
    requires i < 7 && j < 7
    ensures Low(Exchange(Wide(x), i, j)) == HalfExchange(x, i, j)
  {
    hide Low, Wide, Or, Xor, Up, Difference, Idx, HalfOr, HalfXor, HalfUp, HalfDifference;
    Seven(i);
    Seven(j);
    var y := Wide(x);
    var d, h := Difference(y, Idx(i), Idx(j)), HalfDifference(x, Idx(i), Idx(j));
    WideDifference(x, i, j);
    LowWide(x);
    LowWide(h);
    LowUp(d, Idx(i));
    LowUp(d, Idx(j));
    LowOr(Up(d, Idx(i)), Up(d, Idx(j)));
    LowXor(y, Or(Up(d, Idx(i)), Up(d, Idx(j))));
  }

  lemma LowSmall(v: Word)
    requires v < 16
    ensures Wide(Low(v)) == v
  {
  }

  lemma LowZero()
    ensures Low(0) == 0
  {
  }

  lemma {:induction false} LowFlips(x: Half, w: nat, t: nat, a: Word, b: Word)
    requires t <= w <= 7 && a < 16 && b < 16
    ensures Low(FlipsAfter(Wide(x), w, t, a, b)) == HalfFlips(x, w, t, Low(a), Low(b))
  {
    hide Low, Wide, Xor, Up, SlotAt, HalfXor, HalfUp, HalfSlotAt;
    LowZero();
    if t > 0 {
      var d, v := FlipsAfter(Wide(x), w, t - 1, a, b), HalfSlotAt(x, w - t);
      LowFlips(x, w, t - 1, a, b);
      WideSlotAt(x, w - t);
      LowWide(v);
      LowSmall(a);
      LowSmall(b);
      LowXor(a, b);
      LowXor(d, Flip(SlotAt(Wide(x), w - t), a, b));
      LowUp(Xor(d, Flip(SlotAt(Wide(x), w - t), a, b)), 1);
    }
  }

  /** Every operation on the 32-bit word is the low half of the operation on the 64-bit word. */
  lemma LowApply(x: Half, w: nat, op: Op)
    requires 1 <= w <= 7 && HalfSize(x) <= w && Legal(op, HalfSize(x), w)
    ensures HalfApply(x, w, op) == Low(Apply(Wide(x), w, op))
  {
    hide Low, Wide, Size, SlotAt, InsertWord, InsertSelected, Remove, RemoveToBack, Rotate, Exchange, FlipsAfter,
      Xor, Num,
      HalfInsertWord, HalfInsertSelected, HalfRemove, HalfRemoveToBack, HalfRotate, HalfExchange, HalfFlips, HalfXor,
          HalfSlotAt;
    match op
    case DoInsertFromBack(i) => WideSlotAt(x, w - 1); LowInsertWord(x, i, HalfSlotAt(x, w - 1));
    case DoInsertSelected(di, si) => LowInsertSelected(x, di, si);
    case DoRemove(i) => LowRemove(x, i);
    case DoRemoveToBack(i) => LowRemoveToBack(x, w, i);
    case DoRotate(i, j) => LowRotate(x, w, i, j);
    case DoExchange(i, j) => LowExchange(x, i, j);
    case DoExchangeValues(u, v) =>
      LowFlips(x, w, w, u, v);
      LowWide(x);
      LowXor(Wide(x), FlipsAfter(Wide(x), w, w, u, v));
  }

  /* Permutations of width up to 7 stay permutations. */

  /** The elements the 32-bit word holds. */
  ghost predicate HalfValid(x: Half, w: nat) { 1 <= w <= 7 && Valid(Wide(x), w) }

  lemma LowAt(y: Word, k: nat)
    requires k < 7
    ensures At(Wide(Low(y)), k) == At(y, k) && Size(Wide(Low(y))) == Size(y)
  {
    hide Idx, Slot, SizeField, Num, Wide, Low;
    Seven(k);
    LowSlot(y, Idx(k));
  }

  lemma LowValid(y: Word, w: nat)
    requires 1 <= w <= 7
    ensures HalfValid(Low(y), w) <==> Valid(y, w)
  {
    hide At, Size, Wide, Low, IsPermutation;
    LowAt(y, 0);
    forall k | 0 <= k < w
      ensures Slots(Wide(Low(y)), w)[k] == Slots(y, w)[k]
    {
      LowAt(y, k);
    }
    assert Slots(Wide(Low(y)), w) == Slots(y, w);
  }

  /** Reading an element from the 32-bit word. */
  lemma HalfElement(x: Half, k: nat)
    requires k < 7
    ensures At(Wide(x), k) == Num(Wide(HalfSlotAt(x, k)))
  {
    hide Idx, Slot, HalfSlot, Num, Wide;
    Seven(k);
    WideSlot(x, Idx(k));
  }

  /** The counterpart of `ApplyValid` on 32 bits. */
  lemma HalfApplyValid(x: Half, w: nat, op: Op)
    requires HalfValid(x, w) && Legal(op, HalfSize(x), w)
    ensures HalfValid(HalfApply(x, w, op), w) <==> Keeps(Wide(x), w, op)
  {
    hide Low, Wide, Size, Apply, HalfApply, Keeps, Legal, IsPermutation, Slots;
    LowApply(x, w, op);
    LowValid(Apply(Wide(x), w, op), w);
    ApplyValid(Wide(x), w, op);
  }

  /* The initial words. */

  lemma LowConstants()
    ensures Low(0xEDCBA98765432100) == 0x65432100 && Low(0 - 1) == 0 - 1
  {
  }

  lemma EmptySmall(w: nat)
    requires 1 <= w <= 3
    ensures HalfEmpty(w) == Low(MakeEmpty(w))
  {
    if w == 1 {
    } else if w == 2 {
    } else {
      assert w == 3;
    }
  }

  lemma EmptyLarge(w: nat)
    requires 4 <= w <= 7
    ensures HalfEmpty(w) == Low(MakeEmpty(w))
  {
    if w == 4 {
    } else if w == 5 {
    } else if w == 6 {
    } else {
      assert w == 7;
    }
  }

  lemma LowEmpty(w: nat)
    requires 1 <= w <= 7
    ensures HalfEmpty(w) == Low(MakeEmpty(w))
  {
    hide HalfEmpty, MakeEmpty, Low;
    if w <= 3 { EmptySmall(w); } else { EmptyLarge(w); }
  }

  lemma SmallFull(n: Index)
    requires n <= 2
    ensures HalfAnd(0x65432100, HalfMask(n)) == HalfAnd(0x2100, HalfMask(n))
  {
  }

  lemma FullIsAnd(mask: Word)
    ensures FullWord(mask) == And(0xEDCBA98765432100, mask)
  {
  }

  lemma LowFull(w: nat, n: nat)
    requires 1 <= w <= 7 && n <= w && (n < w || w > 3)
    ensures Idx(n) <= 7
    ensures Low(FullBelow(w, n)) == HalfAnd(HalfFull(w), if n == w then 0 - 1 else HalfMask(Idx(n)))
  {
    hide Low, FullWord, Mask, HalfMask, And, HalfAnd, Idx;
    Seven(n);
    LowConstants();
    var mask := if n == w then 0 - 1 else Mask(Idx(n));
    FullIsAnd(mask);
    LowMask(Idx(n));
    LowAnd(0xEDCBA98765432100, mask);
    if w <= 3 {
      UpToTwo(n);
      SmallFull(Idx(n));
    }
  }

  lemma UpToTwo(n: nat)
    requires n < 3
    ensures Idx(n) <= 2
  {
  }

  lemma LowIndex(n: Index)
    requires n <= 7
    ensures Low(n as Word) == n as Half
  {
  }

  lemma LowSorted(w: nat, n: nat)
    requires 1 <= w <= 7 && n <= w && (n < w || w > 3)
    ensures HalfSorted(w, n) == Low(MakeSorted(w, n))
  {
    hide Low, Or, Up, MakeEmpty, FullBelow, Idx, HalfOr, HalfUp, HalfEmpty, HalfAnd, HalfMask, HalfFull;
    Seven(n);
    LowEmpty(w);
    LowFull(w, n);
    LowIndex(Idx(n));
    LowUp(MakeEmpty(w), Idx(n));
    LowOr(Up(MakeEmpty(w), Idx(n)), FullBelow(w, n));
    LowOr(Or(Up(MakeEmpty(w), Idx(n)), FullBelow(w, n)), Idx(n) as Word);
  }

  /** The words of the narrowest permuters when all of their elements are in use. */
  lemma SortedThree()
    ensures HalfSorted(1, 1) == 0x2101 && HalfSorted(2, 2) == 0x3102 && HalfSorted(3, 3) == 0x122103
  {
  }

  lemma ThreeElements()
    ensures At(Wide(0x2101), 0) == 0 && Size(Wide(0x2101)) == 1
    ensures At(Wide(0x3102), 0) == 0 && At(Wide(0x3102), 1) == 1 && Size(Wide(0x3102)) == 2
    ensures At(Wide(0x122103), 0) == 0 && At(Wide(0x122103), 1) == 1 && At(Wide(0x122103), 2) == 2
    ensures Size(Wide(0x122103)) == 3
  {
  }

  /** In both initial words the elements are a permutation, the first `n` of them in order. */
  lemma HalfSortedValid(w: nat, n: nat)
    requires 1 <= w <= 7 && n <= w
    ensures HalfValid(HalfSorted(w, n), w) && HalfSize(HalfSorted(w, n)) == n
    ensures HalfValid(HalfEmpty(w), w) && HalfSize(HalfEmpty(w)) == 0
  {
    hide At, Size, Wide, Low, MakeSorted, MakeEmpty, HalfSorted, HalfEmpty, IsPermutation;
    MakeSortedValid(w, n);
    EmptyAt(w, 0);
    SortedAt(w, n, 0);
    LowEmpty(w);
    LowValid(MakeEmpty(w), w);
    LowAt(MakeEmpty(w), 0);
    if n < w || w > 3 {
      LowSorted(w, n);
      LowValid(MakeSorted(w, n), w);
      LowAt(MakeSorted(w, n), 0);
    } else {
      SortedThree();
      ThreeElements();
      PartSortedMembers(Slots(Wide(HalfSorted(w, n)), w), w, w);
    }
  }

  /** Any sequence of operations on a 32-bit word from any initial one. */
  ghost predicate HalfRun(states: seq<Half>, ops: seq<Op>, w: nat) {
    && 1 <= w <= 7 && |states| == |ops| + 1
    && (states[0] == HalfEmpty(w) || exists n: nat :: n <= w && states[0] == HalfSorted(w, n))
    && forall i :: 0 <= i < |ops| ==>
         && HalfSize(states[i]) <= w && Legal(ops[i], HalfSize(states[i]), w)
         && states[i + 1] == HalfApply(states[i], w, ops[i])
  }

  lemma HalfStartValid(x: Half, w: nat)
    requires 1 <= w <= 7 && (x == HalfEmpty(w) || exists n: nat :: n <= w && x == HalfSorted(w, n))
    ensures HalfValid(x, w)
  {
    hide HalfSize, HalfEmpty, HalfSorted, HalfValid;
    if x == HalfEmpty(w) {
      HalfSortedValid(w, 0);
    } else {
      var n: nat :| n <= w && x == HalfSorted(w, n);
      HalfSortedValid(w, n);
    }
  }

  /** The elements are a permutation throughout if and only if `Keeps` allows each operation. */
  lemma {:induction false} HalfRunValid(states: seq<Half>, ops: seq<Op>, w: nat, n: nat)
    requires HalfRun(states, ops, w) && n <= |ops|
    ensures (forall i :: 0 <= i <= n ==> HalfValid(states[i], w)) <==>
            (forall i :: 0 <= i < n ==> Keeps(Wide(states[i]), w, ops[i]))
  {
    hide Size, Wide, HalfApply, HalfEmpty, HalfSorted, HalfValid, Legal, Keeps;
    HalfStartValid(states[0], w);
    if n > 0 {
      HalfRunValid(states, ops, w, n - 1);
      var m := n - 1;
      assert states[m + 1] == HalfApply(states[m], w, ops[m]);
      if HalfValid(states[m], w) { HalfApplyValid(states[m], w, ops[m]); }
      assert (forall i :: 0 <= i <= n ==> HalfValid(states[i], w)) <==>
             (forall i :: 0 <= i <= m ==> HalfValid(states[i], w)) && HalfValid(states[n], w);
    }
  }
}
