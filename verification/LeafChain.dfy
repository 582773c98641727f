/** Leaf delta chains: what a chain means, what makes one well formed, and the
    two hint-narrowed searches over it. */
module LeafChains {
  import opened Options
  import opened Ordered

  type Value = int
  type NodeId = nat
  type Item = Pair<Value>
  type KeyNodeId = Pair<NodeId>

  const INVALID_NODE_ID: NodeId := 0
  const FIRST_LEAF_NODE_ID: NodeId := 2

  /** A high key whose node id is invalid is +Inf, a low key whose node id is invalid is -Inf. */
  predicate BelowHigh(k: Key, high: KeyNodeId) { high.value == INVALID_NODE_ID || k < high.key }
  predicate AboveLow(k: Key, low: KeyNodeId) { low.value == INVALID_NODE_ID || low.key <= k }

  datatype IndexPair = IndexPair(first: nat, second: bool)
  datatype DataOp = InsertOp | DeleteOp | UpdateOp

  datatype Leaf =
    | Base(low: KeyNodeId, high: KeyNodeId, items: seq<Item>)
    | Data(op: DataOp, item: Item, index: IndexPair, child: Leaf)
    | Split(splitItem: KeyNodeId, siblingCount: nat, child: Leaf)
    | Remove(removedId: NodeId, child: Leaf)
    | Merged(deleteItem: KeyNodeId, right: Leaf, child: Leaf)

  /* Node metadata, as each constructor derives it from its children. */

  function Low(c: Leaf): KeyNodeId {
    if c.Base? then c.low else Low(c.child)
  }

  function High(c: Leaf): KeyNodeId {
    match c
    case Base(_, high, _) => high
    case Data(_, _, _, child) => High(child)
    case Split(item, _, _) => item
    case Remove(_, child) => High(child)
    case Merged(_, right, _) => High(right)
  }

  function Depth(c: Leaf): nat {
    match c
    case Base(_, _, _) => 0
    case Data(_, _, _, child) => Depth(child) + 1
    case Split(_, _, child) => Depth(child)
    case Remove(_, child) => Depth(child)
    case Merged(_, right, child) => Depth(child) + Depth(right)
  }

  function ItemCount(c: Leaf): int {
    match c
    case Base(_, _, items) => |items|
    case Data(op, _, _, child) =>
      ItemCount(child) + (match op case InsertOp => 1 case DeleteOp => -1 case UpdateOp => 0)
    case Split(_, siblingCount, child) => ItemCount(child) - siblingCount
    case Remove(_, child) => ItemCount(child)
    case Merged(_, right, child) => ItemCount(child) + ItemCount(right)
  }

  predicate InRange(c: Leaf, k: Key) { AboveLow(k, Low(c)) && BelowHigh(k, High(c)) }

  /** The map a chain stands for: its base with the delta records replayed bottom up. */
  ghost function Contents(c: Leaf): map<Key, Value> {
    match c
    case Base(_, _, items) => MapOf(items)
    case Data(op, item, _, child) =>
      if op.DeleteOp? then Contents(child) - {item.key} else Contents(child)[item.key := item.value]
    case Split(item, _, child) => Under(Contents(child), item)
    case Remove(_, child) => Contents(child)
    case Merged(_, right, child) => Contents(child) + Contents(right)
  }

  ghost function Under<T>(m: map<Key, T>, high: KeyNodeId): map<Key, T> {
    map k | k in m && BelowHigh(k, high) :: m[k]
  }

  ghost function Lookup<T>(m: map<Key, T>, k: Key): Option<T> {
    if k in m then Some(m[k]) else None
  }

  /** The base leaf that decides key `k` once no delta record does. */
  ghost function BaseFor(c: Leaf, k: Key): (b: Leaf)
    ensures b.Base?
  {
    match c
    case Base(_, _, _) => c
    case Data(_, _, _, child) => BaseFor(child, k)
    case Split(_, _, child) => BaseFor(child, k)
    case Remove(_, child) => BaseFor(child, k)
    case Merged(item, right, child) => if k >= item.key then BaseFor(right, k) else BaseFor(child, k)
  }

  /** `p` is the lower bound of `k` in `items`, and whether `k` is stored there. */
  ghost predicate IsHint(items: seq<Item>, k: Key, p: IndexPair) {
    && p.first <= |items|
    && (forall i :: 0 <= i < p.first ==> items[i].key < k)
    && (forall i :: p.first <= i < |items| ==> k <= items[i].key)
    && p.second == (p.first < |items| && items[p.first].key == k)
  }

  /** Chains free of remove nodes in which every record is true of the chain below it:
      inserts are of absent keys, deletes and updates of present ones, index pairs are
      exact, splits sit on base leaves, and the two sides of a merge meet at its key. */
  ghost predicate WellFormed(c: Leaf) {
    match c
    case Base(low, high, items) =>
      && Sorted(items)
      && (forall i :: 0 <= i < |items| ==> AboveLow(items[i].key, low) && BelowHigh(items[i].key, high))
      && (low.value != INVALID_NODE_ID && high.value != INVALID_NODE_ID ==> low.key < high.key)
    case Data(op, item, index, child) =>
      && WellFormed(child) && InRange(child, item.key)
      && (op.InsertOp? <==> item.key !in Contents(child))
      && IsHint(BaseFor(child, item.key).items, item.key, index)
    case Split(item, siblingCount, child) =>
      && child.Base? && WellFormed(child) && InRange(child, item.key)
      && item.value != INVALID_NODE_ID
      && (child.low.value != INVALID_NODE_ID ==> child.low.key < item.key)
      && siblingCount == |Contents(child)| - |Under(Contents(child), item)|
    case Remove(_, _) => false
    case Merged(item, right, child) =>
      && WellFormed(child) && WellFormed(right)
      && High(child).value != INVALID_NODE_ID && High(child).key == item.key
      && Low(right).value != INVALID_NODE_ID && Low(right).key == item.key
  }

  /** Both ends of a well-formed chain leave room for a key in between. */
  lemma {:induction false} ProperRange(c: Leaf)
    requires WellFormed(c)
    ensures Low(c).value != INVALID_NODE_ID && High(c).value != INVALID_NODE_ID ==> Low(c).key < High(c).key
  {
    match c
    case Base(_, _, _) =>
    case Data(_, _, _, child) => ProperRange(child);
    case Split(_, _, child) => ProperRange(child);
    case Merged(_, right, child) => ProperRange(child); ProperRange(right);
  }

  /** A well-formed chain stores only keys of its own range. */
  lemma {:induction false} ContentsInRange(c: Leaf)
    requires WellFormed(c)
    ensures forall k :: k in Contents(c) ==> InRange(c, k)
  {
    match c
    case Base(_, _, items) => MapOfAll(items);
    case Data(_, _, _, child) => ContentsInRange(child);
    case Split(_, _, child) => ContentsInRange(child);
    case Merged(_, right, child) =>
      ContentsInRange(child);
      ContentsInRange(right);
      ProperRange(child);
      ProperRange(right);
  }

  lemma {:induction false} MapOfSize<T>(s: seq<Pair<T>>)
    requires Sorted(s)
    ensures |MapOf(s)| == |s|
  {
    if s != [] {
      MapOfSize(s[1..]);
      MapOfAbove(s[1..], s[0].key);
    }
  }

  lemma DisjointSize<T>(a: map<Key, T>, b: map<Key, T>)
    requires a.Keys !! b.Keys
    ensures |a + b| == |a| + |b|
  {
    assert (a + b).Keys == a.Keys + b.Keys;
    assert |(a + b).Keys| == |a.Keys| + |b.Keys|;
  }

  /** The recorded item count is the number of live items. */
  lemma {:induction false} ItemCountExact(c: Leaf)
    requires WellFormed(c)
    ensures ItemCount(c) == |Contents(c)|
  {
    match c
    case Base(_, _, items) => MapOfSize(items);
    case Data(op, item, _, child) =>
      ItemCountExact(child);
      if op.DeleteOp? {
        assert Contents(child).Keys == Contents(c).Keys + {item.key};
      }
    case Split(_, _, child) => ItemCountExact(child);
    case Merged(_, right, child) =>
      ItemCountExact(child);
      ItemCountExact(right);
      ContentsInRange(child);
      ContentsInRange(right);
      forall k | k in Contents(child)
        ensures k !in Contents(right)
      {
        assert InRange(child, k) && !InRange(right, k);
      }
      DisjointSize(Contents(child), Contents(right));
  }

  /** One step down a merge takes the side that decides the key. */
  lemma MergeSide(c: Leaf, k: Key)
    requires WellFormed(c) && c.Merged? && InRange(c, k)
    ensures k >= c.deleteItem.key ==> InRange(c.right, k) && (k in Contents(c) <==> k in Contents(c.right))
    ensures k >= c.deleteItem.key && k in Contents(c) ==> Contents(c)[k] == Contents(c.right)[k]
    ensures k < c.deleteItem.key ==> InRange(c.child, k) && (k in Contents(c) <==> k in Contents(c.child))
    ensures k < c.deleteItem.key && k in Contents(c) ==> Contents(c)[k] == Contents(c.child)[k]
  {
    ContentsInRange(c.child);
    ContentsInRange(c.right);
  }

  /** No merge on the way down: one base decides every key. */
  ghost predicate MergeFree(c: Leaf) { !c.Merged? && (c.Base? || MergeFree(c.child)) }

  lemma {:induction false} SameBase(c: Leaf, j: Key, k: Key)
    requires MergeFree(c)
    ensures BaseFor(c, j) == BaseFor(c, k)
  {
    if !c.Base? { SameBase(c.child, j, k); }
  }

  /** The search interval `[start, end)` (`end` is -1 while unknown) brackets the key. */
  ghost predicate Brackets(items: seq<Item>, k: Key, start: nat, end: int) {
    && start <= |items| && -1 <= end <= |items|
    && (forall i :: 0 <= i < start ==> items[i].key < k)
    && (end != -1 ==> forall i :: end <= i < |items| ==> k <= items[i].key)
  }

  lemma BracketsOrdered(items: seq<Item>, k: Key, start: nat, end: int)
    requires Brackets(items, k, start, end) && end != -1
    ensures start <= end
  {
    if end < |items| { assert k <= items[end].key; }
  }

  lemma BaseLookup(items: seq<Item>, k: Key, start: nat, end: int) returns (p: nat)
    requires Sorted(items) && Brackets(items, k, start, end) && (end != -1 ==> start <= end)
    ensures p == LowerBound(items, start, if end == -1 then |items| else end, k)
    ensures IsHint(items, k, IndexPair(p, p < |items| && items[p].key == k))
    ensures k in MapOf(items) <==> p < |items| && items[p].key == k
    ensures k in MapOf(items) ==> MapOf(items)[k] == items[p].value
  {
    p := LowerBound(items, start, if end == -1 then |items| else end, k);
    MapOfAll(items);
  }

  /** Search used by insert, upsert and delete: the live value, if any, and the index pair. */
  method NavigateLeafNode(c: Leaf, key: Key) returns (found: Option<Value>, index: IndexPair)
    requires WellFormed(c) && InRange(c, key)
    ensures found == Lookup(Contents(c), key)
    ensures IsHint(BaseFor(c, key).items, key, index)
  {
    var node := c;
    var start: nat, end: int := 0, -1;
    while true
      invariant WellFormed(node) && InRange(node, key)
      invariant Lookup(Contents(node), key) == Lookup(Contents(c), key)
      invariant BaseFor(node, key) == BaseFor(c, key)
      invariant MergeFree(node) ==> Brackets(BaseFor(node, key).items, key, start, end)
      decreases node
    {
      match node
      case Base(_, _, items) =>
        if end != -1 { BracketsOrdered(items, key, start, end); }
        var p := LowerBound(items, start, if end == -1 then |items| else end, key);
        ghost var q := BaseLookup(items, key, start, end);
        if p < |items| && items[p].key == key {
          return Some(items[p].value), IndexPair(p, true);
        }
        return None, IndexPair(p, false);
      case Data(op, item, hint, child) =>
        if key == item.key {
          return if op.DeleteOp? then None else Some(item.value), hint;
        }
        if MergeFree(child) { SameBase(child, key, item.key); }
        if key > item.key {
          start := hint.first;
        } else {
          end := hint.first;
        }
        node := child;
      case Split(_, _, child) =>
        node := child;
      case Merged(item, right, child) =>
        MergeSide(node, key);
        node := if key >= item.key then right else child;
        start, end := 0, -1;
    }
  }

  /** Read-only search: the list of values found for the key, which holds at most one. */
  method CollectValues(c: Leaf, key: Key) returns (values: seq<Value>)
    requires WellFormed(c) && InRange(c, key)
    ensures values == if key in Contents(c) then [Contents(c)[key]] else []
  {
    var node := c;
    var start: nat, end: int := 0, -1;
    while true
      invariant WellFormed(node) && InRange(node, key)
      invariant Lookup(Contents(node), key) == Lookup(Contents(c), key)
      invariant MergeFree(node) ==> Brackets(BaseFor(node, key).items, key, start, end)
      decreases node
    {
      match node
      case Base(_, _, items) =>
        if end != -1 { BracketsOrdered(items, key, start, end); }
        var p := LowerBound(items, start, if end == -1 then |items| else end, key);
        ghost var q := BaseLookup(items, key, start, end);
        return if p < |items| && items[p].key == key then [items[p].value] else [];
      case Data(op, item, hint, child) =>
        if key == item.key {
          return if op.DeleteOp? then [] else [item.value];
        }
        if MergeFree(child) { SameBase(child, key, item.key); }
        if key > item.key {
          start := hint.first;
        } else {
          end := hint.first;
        }
        node := child;
      case Split(_, _, child) =>
        node := child;
      case Merged(item, right, child) =>
        MergeSide(node, key);
        node := if key >= item.key then right else child;
        start, end := 0, -1;
    }
  }
}
