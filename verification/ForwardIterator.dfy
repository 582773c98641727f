/** Forward iteration over the leaf list. */
module ForwardIteration {
  import opened Options
  import opened Ordered
  import opened LeafChains
  import opened LeafConsolidation
  import opened LeafProtocol
  import InnerChains
  import InnerConsolidation

  /* Iteration while other threads work: every page is consolidated from a fresh snapshot of
     whatever leaf covers the wanted key at that moment. */

  /** A page load: the key asked for and the leaf chain the traversal stopped at. */
  datatype PageLoad = PageLoad(start: Key, chain: Leaf)

  ghost predicate LoadOk(l: PageLoad) { WellFormed(l.chain) && InRange(l.chain, l.start) }

  /** Each load after the first asks for the high key of the page before it. */
  ghost predicate Loads(ls: seq<PageLoad>) {
    && (forall i :: 0 <= i < |ls| ==> LoadOk(ls[i]))
    && (forall i :: 0 <= i < |ls| - 1 ==>
          High(ls[i].chain).value != INVALID_NODE_ID && ls[i + 1].start == High(ls[i].chain).key)
  }

  ghost function From(m: map<Key, Value>, key: Key): map<Key, Value> { map k | k in m && key <= k :: m[k] }

  /** `items` is what the page of one load yields: its items from the start key on, sorted. */
  ghost predicate Yields(l: PageLoad, items: seq<Item>) {
    Sorted(items) && MapOf(items) == From(Contents(l.chain), l.start)
  }

  ghost predicate PagesOf(ls: seq<PageLoad>, pages: seq<seq<Item>>) {
    |pages| == |ls| && forall i :: 0 <= i < |ls| ==> Yields(ls[i], pages[i])
  }

  ghost function Concat(pages: seq<seq<Item>>): seq<Item> {
    if pages == [] then [] else pages[0] + Concat(pages[1..])
  }

  lemma YieldsRange(l: PageLoad, items: seq<Item>)
    requires LoadOk(l) && Yields(l, items)
    ensures forall i :: 0 <= i < |items| ==> l.start <= items[i].key && BelowHigh(items[i].key, High(l.chain))
  {
    ContentsInRange(l.chain);
    forall i | 0 <= i < |items|
      ensures l.start <= items[i].key && InRange(l.chain, items[i].key)
    {
      MapOfAt(items, i);
    }
  }

  /** Whatever the other threads do between page loads, the keys come out strictly increasing. */
  lemma {:induction false} KeysIncrease(ls: seq<PageLoad>, pages: seq<seq<Item>>)
    requires Loads(ls) && PagesOf(ls, pages)
    ensures Sorted(Concat(pages))
    ensures ls != [] ==> forall i :: 0 <= i < |Concat(pages)| ==> ls[0].start <= Concat(pages)[i].key
  {
    if ls != [] {
      assert LoadOk(ls[0]) && Yields(ls[0], pages[0]);
      hide WellFormed, Contents, MapOf;
      YieldsRange(ls[0], pages[0]);
      ProperRange(ls[0].chain);
      var rest := Concat(pages[1..]);
      KeysIncrease(ls[1..], pages[1..]);
      if |ls| == 1 {
        assert rest == [];
      } else {
        assert ls[1..][0].start == High(ls[0].chain).key;
      }
    }
  }

  lemma SortedParts<T>(a: seq<Pair<T>>, b: seq<Pair<T>>)
    requires Sorted(a + b)
    ensures forall i, j :: 0 <= i < |a| && 0 <= j < |b| ==> a[i].key < b[j].key
  {
    forall i, j | 0 <= i < |a| && 0 <= j < |b|
      ensures a[i].key < b[j].key
    {
      assert a[i] == (a + b)[i] && b[j] == (a + b)[|a| + j];
    }
  }

  /** Nothing is skipped or made up: for every key the loads went past, the iteration reports
      exactly what the one snapshot that covered the key held for it. */
  lemma {:induction false} NothingSkipped(ls: seq<PageLoad>, pages: seq<seq<Item>>, k: Key) returns (i: nat)
    requires Loads(ls) && PagesOf(ls, pages) && ls != []
    requires ls[0].start <= k && BelowHigh(k, High(ls[|ls| - 1].chain))
    ensures i < |ls| && ls[i].start <= k && InRange(ls[i].chain, k)
    ensures Lookup(MapOf(Concat(pages)), k) == Lookup(Contents(ls[i].chain), k)
  {
    assert LoadOk(ls[0]) && Yields(ls[0], pages[0]);
    KeysIncrease(ls, pages);
    KeysIncrease(ls[1..], pages[1..]);
    SortedParts(pages[0], Concat(pages[1..]));
    MapOfConcat(pages[0], Concat(pages[1..]));
    hide WellFormed, Contents, MapOf;
    YieldsRange(ls[0], pages[0]);
    var first, rest := pages[0], Concat(pages[1..]);
    if BelowHigh(k, High(ls[0].chain)) {
      i := 0;
      if k in MapOf(rest) {
        var j := MapOfIndex(rest, k);
      }
    } else {
      if k in MapOf(first) {
        var j := MapOfIndex(first, k);
      }
      var j := NothingSkipped(ls[1..], pages[1..], k);
      i := j + 1;
    }
  }

  /* Iteration over a tree whose contents do not change. Leaves may still be in the middle of a removal:
     a traversal that meets one completes it, which moves records between leaves but stores the same map. */

  ghost predicate Leaves(table: Table, order: seq<NodeId>) {
    Tiles(table, order, FIRST_LEAF_NODE_ID, None) && Entries(table)
  }

  /** Where the leaves end. */
  ghost function HighKeys(table: Table, order: seq<NodeId>): set<Key> {
    set id | id in order && id in table && High(table[id]).value != INVALID_NODE_ID :: High(table[id]).key
  }

  ghost function HighsAbove(highs: set<Key>, start: Key): set<Key> { set h | h in highs && h > start }

  lemma HighsShrink(highs: set<Key>, highs': set<Key>, start: Key, next: Key)
    requires highs' <= highs && next in highs' && start < next
    ensures HighsAbove(highs', next) < HighsAbove(highs, start)
  {
    assert next in HighsAbove(highs, start) && next !in HighsAbove(highs', next);
  }

  /** The leaf of a separator starts at the separator, and is a listed leaf unless it is being removed. */
  ghost predicate StartsAt(table: Table, order: seq<NodeId>, id: NodeId, sep: Key) {
    id in table && LowIs(table[id], Some(sep)) && (id in order || table[id].Remove?)
  }

  /** An inner node just above the leaves. Its first child is never removed. */
  ghost predicate ParentOk(c: InnerChains.Inner, table: Table, order: seq<NodeId>) {
    && InnerChains.WellFormed(c)
    && (forall sep :: sep in InnerChains.Seps(c) ==> StartsAt(table, order, InnerChains.Seps(c)[sep], sep))
    && var id, low := InnerChains.Low(c).value, InnerChains.Low(c).key;
       && id in order && id in table && !table[id].Remove?
       && LowIs(table[id], if InnerChains.Leftmost(c) then None else Some(low))
  }

  /** The child is the one of separator `sep`, or the first child. */
  ghost predicate IsChild(c: InnerChains.Inner, sep: Option<Key>, id: NodeId) {
    if sep.None? then id == InnerChains.Low(c).value
    else sep.value in InnerChains.Seps(c) && InnerChains.Seps(c)[sep.value] == id
  }

  ghost function SepsUpTo(c: InnerChains.Inner, sep: Option<Key>): set<Key> {
    if sep.None? then {} else set s | s in InnerChains.Seps(c) && s <= sep.value
  }

  /** The child the inner search leads to is a valid start for the walk along the leaves. */
  lemma LeadsToStart(c: InnerChains.Inner, table: Table, order: seq<NodeId>, key: Key,
      id: NodeId) returns (sep: Option<Key>)
    requires ParentOk(c, table, order) && InnerChains.InRange(c, key) && InnerChains.Leads(c, key, id)
    ensures IsChild(c, sep, id) && id in table && AboveLow(key, Low(table[id]))
  {
    hide InnerChains.WellFormed, InnerChains.Seps;
    if id == InnerChains.Low(c).value && forall j :: j in InnerChains.Seps(c) ==> key < j {
      sep := None;
    } else {
      var g :| g in InnerChains.Seps(c) && g <= key && InnerChains.Seps(c)[g] == id;
      assert StartsAt(table, order, id, g);
      sep := Some(g);
    }
  }

  /** So is the left neighbour of a child that is being removed. */
  lemma LeftIsStart(c: InnerChains.Inner, table: Table, order: seq<NodeId>, key: Key, s: Key,
      id: NodeId) returns (sep: Option<Key>)
    requires ParentOk(c, table, order) && InnerChains.InRange(c, key) && s <= key
    requires InnerConsolidation.IsLeft(InnerChains.Seps(c), InnerChains.Low(c).value, s, id)
    ensures IsChild(c, sep, id) && id in table && AboveLow(key, Low(table[id])) && (sep.Some? ==> sep.value < s)
  {
    hide InnerChains.WellFormed, InnerChains.Seps;
    if id == InnerChains.Low(c).value && forall j :: j in InnerChains.Seps(c) ==> s <= j {
      sep := None;
    } else {
      var g :| g in InnerChains.Seps(c) && g < s && InnerChains.Seps(c)[g] == id;
      assert StartsAt(table, order, id, g);
      sep := Some(g);
    }
  }

  /** The root of a new tree has one child, the first leaf. */
  function InitialRoot(): InnerChains.Inner {
    var none := Pair(0, INVALID_NODE_ID);
    InnerChains.Base(Pair(0, FIRST_LEAF_NODE_ID), none, [Pair(0, FIRST_LEAF_NODE_ID)], 0, true)
  }

  lemma InitialParentOk(s: State, k: Key)
    requires Init(s)
    ensures Leaves(s.table, [FIRST_LEAF_NODE_ID])
    ensures InnerChains.InRange(InitialRoot(), k) && ParentOk(InitialRoot(), s.table, [FIRST_LEAF_NODE_ID])
  {
    InitInvariant(s);
    assert InitialRoot().items[1..] == [];
  }

  /** From any leaf of the list on, the list is a list of leaves again. */
  lemma {:induction false} TilesFrom(table: Table, ids: seq<NodeId>, first: NodeId, low: Option<Key>, id: NodeId)
    returns (rest: seq<NodeId>, start: Option<Key>)
    requires Tiles(table, ids, first, low) && id in ids
    ensures Tiles(table, rest, id, start) && id != INVALID_NODE_ID
  {
    if ids[0] == id {
      rest, start := ids, low;
    } else {
      rest, start := TilesFrom(table, ids[1..], High(table[first]).value, Some(High(table[first]).key), id);
    }
  }

  lemma {:induction false} WithoutShorter(ids: seq<NodeId>, id: NodeId)
    requires id in ids
    ensures |Without(ids, id)| < |ids|
  {
    if id in ids[1..] {
      WithoutShorter(ids[1..], id);
    } else {
      WithoutAtMost(ids[1..], id);
    }
  }

  lemma {:induction false} WithoutAtMost(ids: seq<NodeId>, id: NodeId)
    ensures |Without(ids, id)| <= |ids|
  {
    if ids != [] { WithoutAtMost(ids[1..], id); }
  }

  /** Completing the removal of the leaf to the right: its records move over, and nothing else changes. */
  lemma AbsorbOk(table: Table, order: seq<NodeId>, id: NodeId, gone: NodeId)
    requires Leaves(table, order) && id in order && id in table && !table[id].Remove?
    requires High(table[id]).value == gone != INVALID_NODE_ID && gone in table && table[gone].Remove?
    ensures var m := MergeNode(gone, table[gone], table[id]); var order' := Without(order, gone);
            && !m.Remove? && Low(m) == Low(table[id]) && High(m) == High(table[gone])
            && Leaves(table[id := m], order') && Stored(table[id := m], order') == Stored(table, order)
            && |order'| < |order| && gone in order && gone != id && id in order'
  {
    hide Stored, Contents, WellFormed;
    NextStarts(table, order, FIRST_LEAF_NODE_ID, None, id);
    assert EntryOk(id, table[id]) && EntryOk(gone, table[gone]);
    MergeOk(table[id], gone, table[gone]);
    var m := MergeNode(gone, table[gone], table[id]);
    assert gone != id;
    MergeTiles(table, order, FIRST_LEAF_NODE_ID, None, id, gone, m);
    WithoutShorter(order, gone);
    WithoutMembers(order, gone);
  }

  lemma AbsorbHighKeys(table: Table, order: seq<NodeId>, id: NodeId, gone: NodeId, m: Leaf)
    requires id in order && gone in order && gone in table && High(m) == High(table[gone])
    ensures HighKeys(table[id := m], Without(order, gone)) <= HighKeys(table, order)
  {
    WithoutMembers(order, gone);
  }

  lemma AbsorbParent(c: InnerChains.Inner, table: Table, order: seq<NodeId>, id: NodeId, gone: NodeId, m: Leaf)
    requires ParentOk(c, table, order) && id in table && !table[id].Remove? && gone in table && table[gone].Remove?
    requires Low(m) == Low(table[id]) && !m.Remove?
    requires id in Without(order, gone)
    ensures ParentOk(c, table[id := m], Without(order, gone))
  {
    hide InnerChains.WellFormed, InnerChains.Seps, Low;
    WithoutMembers(order, gone);
    var table', order' := table[id := m], Without(order, gone);
    forall sep | sep in InnerChains.Seps(c)
      ensures StartsAt(table', order', InnerChains.Seps(c)[sep], sep)
    {
      assert StartsAt(table, order, InnerChains.Seps(c)[sep], sep);
    }
  }

  ghost function Above(m: map<Key, Value>, key: Key): map<Key, Value> { map k | k in m && key < k :: m[k] }

  /** `item` is the item of `m` with the least key, or none when `m` is empty. */
  ghost predicate IsLeast(m: map<Key, Value>, item: Option<Item>) {
    match item
    case None => m == map[]
    case Some(it) => it.key in m && m[it.key] == it.value && forall k :: k in m ==> it.key <= k
  }

  /** The page agrees with the stored map on the page's own range. */
  ghost predicate PageOk(p: Leaf, m: map<Key, Value>) {
    && p.Base? && WellFormed(p)
    && forall k :: InRange(p, k) ==> Lookup(Contents(p), k) == Lookup(m, k)
  }

  /** What the lower bound in a page says about the whole stored map. */
  lemma PageSearch(p: Leaf, m: map<Key, Value>, start: Key, pos: nat)
    requires PageOk(p, m) && InRange(p, start) && pos <= |p.items|
    requires forall i :: 0 <= i < pos ==> p.items[i].key < start
    requires pos < |p.items| ==> start <= p.items[pos].key
    ensures pos < |p.items| ==> IsLeast(From(m, start), Some(p.items[pos]))
    ensures pos == |p.items| ==> forall k :: k in m && start <= k ==> !BelowHigh(k, p.high)
  {
    ContentsInRange(p);
    if pos < |p.items| {
      MapOfAt(p.items, pos);
      assert InRange(p, p.items[pos].key);
    }
    forall k | k in m && start <= k && BelowHigh(k, p.high)
      ensures pos < |p.items| && p.items[pos].key <= k
    {
      assert InRange(p, k) && k in MapOf(p.items);
      var j := MapOfIndex(p.items, k);
      assert pos <= j;
    }
  }

  /** The item after position `i` of a page is the next one of the whole stored map. */
  lemma PageStep(p: Leaf, m: map<Key, Value>, i: nat)
    requires PageOk(p, m) && i < |p.items|
    ensures InRange(p, p.items[i].key)
    ensures i + 1 < |p.items| ==> IsLeast(Above(m, p.items[i].key), Some(p.items[i + 1]))
    ensures i + 1 == |p.items| ==> forall k :: k in m && p.items[i].key < k ==> !BelowHigh(k, p.high)
  {
    ContentsInRange(p);
    MapOfAt(p.items, i);
    assert InRange(p, p.items[i].key);
    if i + 1 < |p.items| {
      MapOfAt(p.items, i + 1);
      assert InRange(p, p.items[i + 1].key);
    }
    forall k | k in m && p.items[i].key < k && BelowHigh(k, p.high)
      ensures i + 1 < |p.items| && p.items[i + 1].key <= k
    {
      assert InRange(p, k) && k in MapOf(p.items);
      var j := MapOfIndex(p.items, k);
      assert i < j;
    }
  }

  lemma FromLater(m: map<Key, Value>, key: Key, start: Key)
    requires key <= start && forall k :: k in m && key <= k ==> start <= k
    ensures From(m, key) == From(m, start)
  {
  }

  lemma PageAgrees(table: Table, order: seq<NodeId>, id: NodeId, p: Leaf)
    requires Tiles(table, order, FIRST_LEAF_NODE_ID, None) && Entries(table) && id in order && id in table
    requires p.Base? && WellFormed(p) && p.low == Low(table[id]) && p.high == High(table[id])
    requires Contents(p) == Contents(table[id])
    ensures PageOk(p, Stored(table, order))
  {
    forall k | InRange(p, k)
      ensures Lookup(Contents(p), k) == Lookup(Stored(table, order), k)
    {
      LeafDecides(table, order, FIRST_LEAF_NODE_ID, None, id, k);
    }
  }

  class ForwardIterator {
    var table: Table
    /** The inner node the upper levels lead to for a key. */
    const descend: Key -> InnerChains.Inner
    const hash: Key -> bv64
    ghost var order: seq<NodeId>
    var page: Leaf
    var pos: nat

    ghost predicate Tree() reads this {
      && Leaves(table, order)
      && forall k :: InnerChains.InRange(descend(k), k) && ParentOk(descend(k), table, order)
    }

    ghost function Items(): map<Key, Value> reads this { Stored(table, order) }

    ghost predicate Valid() reads this {
      && Tree() && PageOk(page, Items()) && pos <= |page.items|
      && (pos < |page.items| || page.high.value == INVALID_NODE_ID)
    }

    function Current(): Option<Item> reads this {
      if page.Base? && pos < |page.items| then Some(page.items[pos]) else None
    }

    function IsEnd(): bool
      requires page.Base?
      reads this
    {
      page.high.value == INVALID_NODE_ID && |page.items| == pos
    }

    constructor (table: Table, descend: Key -> InnerChains.Inner, hash: Key -> bv64, start: Key,
        ghost order: seq<NodeId>)
      requires Leaves(table, order)
      requires forall k :: InnerChains.InRange(descend(k), k) && ParentOk(descend(k), table, order)
      ensures Valid() && Items() == Stored(table, order) && IsLeast(From(Items(), start), Current())
    {
      this.table, this.descend, this.hash, this.order := table, descend, hash, order;
      page, pos := Base(Pair(0, 0), Pair(0, 0), []), 0;
      new;
      LowerBound(start);
    }

    /** Goes down from the inner node to a leaf that is not being removed and starts at or before
        the key: a child that is being removed is left for its left neighbour. */
    method Descend(key: Key) returns (id: NodeId)
      requires Tree()
      ensures id in order && id in table && !table[id].Remove? && AboveLow(key, Low(table[id]))
    {
      hide Leaves, InnerChains.WellFormed, InnerChains.Seps;
      var c := descend(key);
      id := InnerChains.NavigateInnerNode(c, key);
      ghost var sep := LeadsToStart(c, table, order, key, id);
      while table[id].Remove?
        invariant id in table && IsChild(c, sep, id) && AboveLow(key, Low(table[id]))
        decreases SepsUpTo(c, sep)
      {
        assert StartsAt(table, order, id, sep.value);
        InnerChains.SepsInRange(c);
        var s := Low(table[id]).key;
        id := InnerConsolidation.FindLeftSibling(c, s);
        ghost var before := sep;
        sep := LeftIsStart(c, table, order, key, s, id);
        assert s in SepsUpTo(c, before) && s !in SepsUpTo(c, sep);
      }
      if sep.Some? { assert StartsAt(table, order, id, sep.value); }
    }

    /** Walks right until the range of the leaf contains the key; a right neighbour that is being
        removed is absorbed. */
    method NavigateSiblingChain(start: NodeId, key: Key) returns (id: NodeId)
      requires Tree() && start in order && start in table && !table[start].Remove? && AboveLow(key, Low(table[start]))
      modifies this`table, this`order
      ensures Tree() && Items() == old(Items()) && HighKeys(table, order) <= old(HighKeys(table, order))
      ensures id in order && id in table && !table[id].Remove? && InRange(table[id], key)
    {
      hide Stored, ParentOk, HighKeys;
      id := start;
      ghost var rest, low := TilesFrom(table, order, FIRST_LEAF_NODE_ID, None, id);
      while High(table[id]).value != INVALID_NODE_ID && key >= High(table[id]).key
        invariant Tree() && Items() == old(Items()) && HighKeys(table, order) <= old(HighKeys(table, order))
        invariant id in order && id in table && !table[id].Remove? && AboveLow(key, Low(table[id]))
        invariant Tiles(table, rest, id, low) && id != INVALID_NODE_ID
        decreases |order|, |rest|
      {
        var next := High(table[id]).value;
        NextStarts(table, order, FIRST_LEAF_NODE_ID, None, id);
        if table[next].Remove? {
          Absorb(id, next);
          rest, low := TilesFrom(table, order, FIRST_LEAF_NODE_ID, None, id);
        } else {
          low := Some(High(table[id]).key);
          rest := rest[1..];
          id := next;
        }
      }
    }

    /** Posts the merge of a leaf with its right neighbour that is being removed. */
    method Absorb(id: NodeId, gone: NodeId)
      requires Tree() && id in order && id in table && !table[id].Remove?
      requires High(table[id]).value == gone != INVALID_NODE_ID && gone in table && table[gone].Remove?
      modifies this`table, this`order
      ensures Tree() && Items() == old(Items()) && HighKeys(table, order) <= old(HighKeys(table, order))
      ensures |order| < |old(order)| && id in order && id in table && !table[id].Remove?
      ensures Low(table[id]) == old(Low(table[id]))
    {
      hide Leaves, Stored, ParentOk, HighKeys;
      AbsorbOk(table, order, id, gone);
      var m := MergeNode(gone, table[gone], table[id]);
      AbsorbHighKeys(table, order, id, gone, m);
      forall k
        ensures ParentOk(descend(k), table[id := m], Without(order, gone))
      {
        AbsorbParent(descend(k), table, order, id, gone, m);
      }
      table := table[id := m];
      order := Without(order, gone);
    }

    /** Loads the page with the first item at or after `key`, past pages without one. */
    method LowerBound(key: Key)
      requires Tree()
      modifies this`table, this`order, this`page, this`pos
      ensures Valid() && Items() == old(Items()) && IsLeast(From(Items(), key), Current())
    {
      var start := key;
      while true
        invariant Tree() && Items() == old(Items()) && key <= start
        invariant forall k :: k in Items() && key <= k ==> start <= k
        decreases HighsAbove(HighKeys(table, order), start)
      {
        hide Leaves, ParentOk, Stored, WellFormed, Contents, MapOf, HighKeys;
        ghost var highs := HighKeys(table, order);
        page := LoadPage(start);
        pos := Ordered.LowerBound(page.items, 0, |page.items|, start);
        PageSearch(page, Items(), start, pos);
        FromLater(Items(), key, start);
        if pos < |page.items| || page.high.value == INVALID_NODE_ID {
          return;
        }
        HighsShrink(highs, HighKeys(table, order), start, page.high.key);
        start := page.high.key;
      }
    }

    /** Traverses to the leaf for `key` and consolidates it into a private page. */
    method LoadPage(key: Key) returns (p: Leaf)
      requires Tree()
      modifies this`table, this`order
      ensures Tree() && Items() == old(Items()) && HighKeys(table, order) <= old(HighKeys(table, order))
      ensures PageOk(p, Items()) && InRange(p, key)
      ensures p.high.value != INVALID_NODE_ID ==> p.high.key in HighKeys(table, order)
    {
      hide Stored, ParentOk;
      var id := Descend(key);
      id := NavigateSiblingChain(id, key);
      assert EntryOk(id, table[id]);
      p := CollectAllValuesOnLeaf(table[id], hash);
      PageAgrees(table, order, id, p);
    }

    /** Moves to the next item in key order. */
    method MoveAheadByOne()
      requires Valid() && !IsEnd()
      modifies this`table, this`order, this`page, this`pos
      ensures Valid() && Items() == old(Items()) && IsLeast(Above(Items(), old(page.items[pos].key)), Current())
    {
      hide Leaves, ParentOk, Stored, WellFormed, Contents;
      ghost var before, p, k0 := pos, page, page.items[pos].key;
      pos := pos + 1;
      PageStep(p, Items(), before);
      if pos == |page.items| {
        if IsEnd() { return; }
        LowerBound(page.high.key);
        assert Above(Items(), k0) == From(Items(), p.high.key);
      }
    }
  }

  lemma ScanStep(m: map<Key, Value>, key: Key, out: seq<Item>, item: Item)
    requires Sorted(out) && item.key in m && m[item.key] == item.value
    requires forall i :: 0 <= i < |out| ==> out[i].key < item.key
    requires MapOf(out) + From(m, item.key) == From(m, key)
    ensures Sorted(out + [item]) && MapOf(out + [item]) + Above(m, item.key) == From(m, key)
  {
    var one := map[item.key := item.value];
    assert MapOf([item]) == one by { assert [item][1..] == []; }
    MapOfConcat(out, [item]);
    FromFirst(m, item);
    hide MapOf;
    UnionAssociates(MapOf(out), one, Above(m, item.key));
  }

  lemma FromFirst(m: map<Key, Value>, item: Item)
    requires item.key in m && m[item.key] == item.value
    ensures map[item.key := item.value] + Above(m, item.key) == From(m, item.key)
  {
  }

  lemma UnionAssociates<K, V>(a: map<K, V>, b: map<K, V>, c: map<K, V>)
    ensures (a + b) + c == a + (b + c)
  {
  }

  lemma AboveFrom(m: map<Key, Value>, key: Key, item: Option<Item>)
    requires IsLeast(Above(m, key), item)
    ensures item.Some? ==> Above(m, key) == From(m, item.value.key) && key < item.value.key
  {
  }

  /** The whole iteration: exactly the items at or after `key`, once each, in order. */
  method Scan(table: Table, descend: Key -> InnerChains.Inner, hash: Key -> bv64, key: Key, ghost order: seq<NodeId>)
    returns (out: seq<Item>)
    requires Leaves(table, order)
    requires forall k :: InnerChains.InRange(descend(k), k) && ParentOk(descend(k), table, order)
    ensures Sorted(out) && MapOf(out) == From(Stored(table, order), key)
  {
    hide Leaves, ParentOk, Stored, WellFormed, Contents;
    var it := new ForwardIterator(table, descend, hash, key, order);
    out := [];
    ghost var m := Stored(table, order);
    ghost var left := From(m, key);
    assert MapOf(out) == map[] && MapOf(out) + left == left;
    while !it.IsEnd()
      invariant fresh(it) && it.Valid() && it.Items() == m
      invariant Sorted(out) && IsLeast(left, it.Current())
      invariant MapOf(out) + left == From(m, key)
      invariant it.Current().Some? ==> left == From(m, it.Current().value.key)
      invariant it.Current().Some? ==> forall i :: 0 <= i < |out| ==> out[i].key < it.Current().value.key
      decreases left.Keys
    {
      var item := it.page.items[it.pos];
      ScanStep(m, key, out, item);
      out := out + [item];
      it.MoveAheadByOne();
      left := Above(m, item.key);
      AboveFrom(m, item.key, it.Current());
    }
  }
}
