/** The leaf level of the tree as a concurrent protocol: threads take snapshots of mapping
    table entries and install delta nodes, consolidated leaves, splits, removes and merges
    with compare-and-swap. */
module LeafProtocol {
  import opened Options
  import opened Ordered
  import opened LeafChains
  import opened LeafConsolidation

  const LEAF_NODE_SIZE_UPPER_THRESHOLD := 128
  const LEAF_NODE_SIZE_LOWER_THRESHOLD := 32

  type Thread = nat
  type Table = map<NodeId, Leaf>

  datatype Pc =
    | Idle
    | Holding(id: NodeId, node: Leaf)
    | SplitReady(id: NodeId, node: Leaf, newId: NodeId)
    | Merging(removedId: NodeId, removed: Leaf, leftId: NodeId, left: Leaf)

  /** `known` records the ids that have been published through a mapped node. */
  datatype State = State(table: Table, nextId: NodeId, known: set<NodeId>, threads: map<Thread, Pc>)

  datatype Action =
    | Load(t: Thread, id: NodeId)
    | PostData(t: Thread, op: DataOp, item: Item, index: IndexPair)
    | Consolidate(t: Thread, leaf: Leaf)
    | InstallSibling(t: Thread)
    | PostSplit(t: Thread)
    | PostRemove(t: Thread)
    | LoadLeft(t: Thread, id: NodeId)
    | PostMerge(t: Thread)

  function Cas(table: Table, id: NodeId, expected: Leaf, node: Leaf): Table {
    if id in table && table[id] == expected then table[id := node] else table
  }

  function PcOf(s: State, t: Thread): Pc { if t in s.threads then s.threads[t] else Idle }

  /* The nodes a thread builds from its snapshot. */

  function SplitIndex(node: Leaf): nat
    requires node.Base?
  {
    |node.items| / 2
  }

  /** Splitting before index `j` separates two keys. */
  predicate Boundary(items: seq<Item>, j: int) { 0 < j < |items| && items[j - 1].key != items[j].key }

  /** `index` is the place between two keys that is nearest to the middle on its side, the left side
      first, and leaves that side above the merge threshold; -1 if neither side has one. */
  ghost predicate IsSplitPoint(items: seq<Item>, index: int) {
    var middle := |items| / 2;
    && (index != -1 ==> Boundary(items, index))
    && (index != -1 && index <= middle ==> index > LEAF_NODE_SIZE_LOWER_THRESHOLD)
    && (index > middle ==> |items| - index > LEAF_NODE_SIZE_LOWER_THRESHOLD)
    && (index == -1 || index > middle ==>
          forall j :: LEAF_NODE_SIZE_LOWER_THRESHOLD < j <= middle ==> !Boundary(items, j))
    && (index == -1 ==>
          forall j :: middle < j && |items| - j > LEAF_NODE_SIZE_LOWER_THRESHOLD ==> !Boundary(items, j))
    && (index != -1 ==> forall j :: index < j <= middle || middle < j < index ==> !Boundary(items, j))
  }

  /** There is one split point at most. */
  lemma SplitPointUnique(items: seq<Item>, a: int, b: int)
    requires IsSplitPoint(items, a) && IsSplitPoint(items, b)
    ensures a == b
  {
  }

  /** The scan away from the middle of a base leaf. With one record per key it never leaves the middle. */
  method FindSplitPoint(items: seq<Item>) returns (index: int)
    requires |items| / 2 > 1
    ensures IsSplitPoint(items, index)
    ensures Sorted(items) ==> index == if |items| / 2 > LEAF_NODE_SIZE_LOWER_THRESHOLD then |items| / 2 else -1
  {
    var central := |items| / 2;
    var it := central - 1;
    while it != 0 && items[it].key == items[central].key
      invariant 0 <= it < central
      invariant forall j :: it < j <= central ==> items[j].key == items[central].key
      invariant Sorted(items) ==> it == central - 1
    {
      it := it - 1;
    }
    it := it + 1;
    if it > LEAF_NODE_SIZE_LOWER_THRESHOLD { return it; }
    it := central + 1;
    while it != |items| && items[it].key == items[central].key
      invariant central < it <= |items|
      invariant forall j :: central <= j < it ==> items[j].key == items[central].key
      invariant Sorted(items) ==> it == central + 1
    {
      it := it + 1;
    }
    if |items| - it > LEAF_NODE_SIZE_LOWER_THRESHOLD { return it; }
    return -1;
  }

  ghost predicate CanSplit(node: Leaf) { node.Base? && |node.items| >= LEAF_NODE_SIZE_UPPER_THRESHOLD }

  function Sibling(node: Leaf): Leaf
    requires node.Base? && |node.items| > 0
  {
    Base(Pair(node.items[SplitIndex(node)].key, 0xFFFF_FFFF_FFFF_FFFF), node.high, node.items[SplitIndex(node)..])
  }

  function SplitNode(node: Leaf, newId: NodeId): Leaf
    requires node.Base? && |node.items| > 0
  {
    Split(Pair(node.items[SplitIndex(node)].key, newId), |Sibling(node).items|, node)
  }

  /** The new right half, or nothing if the leaf cannot be split. */
  method GetSplitSibling(node: Leaf) returns (sibling: Option<Leaf>)
    requires node.Base? && |node.items| / 2 > 1
    ensures sibling.None? ==> IsSplitPoint(node.items, -1)
    ensures sibling.Some? ==> sibling.value.Base?
    ensures sibling.Some? ==>
      var index := |node.items| - |sibling.value.items|;
      && IsSplitPoint(node.items, index) && 0 < index < |node.items|
      && sibling.value.items == node.items[index..] && sibling.value.low.key == node.items[index].key
      && sibling.value.low.value != INVALID_NODE_ID && sibling.value.high == node.high
    ensures CanSplit(node) && Sorted(node.items) ==> sibling == Some(Sibling(node))
  {
    var index := FindSplitPoint(node.items);
    if index == -1 { return None; }
    return Some(Base(Pair(node.items[index].key, 0xFFFF_FFFF_FFFF_FFFF), node.high, node.items[index..]));
  }

  function MergeNode(removedId: NodeId, removed: Leaf, left: Leaf): Leaf
    requires removed.Remove?
  {
    Merged(Pair(High(left).key, removedId), removed.child, left)
  }

  /** What consolidation produces from a chain. */
  ghost predicate IsConsolidation(c: Leaf, leaf: Leaf) {
    leaf.Base? && WellFormed(leaf) && leaf.low == Low(c) && leaf.high == High(c) && Contents(leaf) == Contents(c)
  }

  ghost predicate Enabled(s: State, a: Action) {
    var pc := PcOf(s, a.t);
    match a
    case Load(_, id) => id in s.known && id in s.table
    case PostData(_, op, item, index) =>
      && pc.Holding? && !pc.node.Remove? && InRange(pc.node, item.key)
      && (op.InsertOp? <==> item.key !in Contents(pc.node))
      && IsHint(BaseFor(pc.node, item.key).items, item.key, index)
    case Consolidate(_, leaf) => pc.Holding? && !pc.node.Remove? && IsConsolidation(pc.node, leaf)
    case InstallSibling(_) => pc.Holding? && CanSplit(pc.node)
    case PostSplit(_) => pc.SplitReady? && pc.node.Base? && |pc.node.items| > 0
    case PostRemove(_) =>
      && pc.Holding? && pc.node.Base? && |pc.node.items| <= LEAF_NODE_SIZE_LOWER_THRESHOLD
      && pc.id != FIRST_LEAF_NODE_ID
    case LoadLeft(_, id) => pc.Holding? && pc.node.Remove? && id in s.known && id in s.table
    case PostMerge(_) => pc.Merging? && pc.removed.Remove? && !pc.left.Remove? && High(pc.left).value == pc.removedId
  }

  ghost function Next(s: State, a: Action): State
    requires Enabled(s, a)
  {
    var pc := PcOf(s, a.t);
    match a
    case Load(t, id) => s.(threads := s.threads[t := Holding(id, s.table[id])])
    case PostData(t, op, item, index) =>
      s.(table := Cas(s.table, pc.id, pc.node, Data(op, item, index, pc.node)), threads := s.threads[t := Idle])
    case Consolidate(t, leaf) =>
      s.(table := Cas(s.table, pc.id, pc.node, leaf),
         threads := s.threads[t := if pc.id in s.table && s.table[pc.id] == pc.node then Holding(pc.id, leaf) else pc])
    case InstallSibling(t) =>
      s.(table := s.table[s.nextId := Sibling(pc.node)], nextId := s.nextId + 1,
         threads := s.threads[t := SplitReady(pc.id, pc.node, s.nextId)])
    case PostSplit(t) =>
      s.(table := Cas(s.table, pc.id, pc.node, SplitNode(pc.node, pc.newId)),
         known := if pc.id in s.table && s.table[pc.id] == pc.node then s.known + {pc.newId} else s.known,
         threads := s.threads[t := Idle])
    case PostRemove(t) =>
      s.(table := Cas(s.table, pc.id, pc.node, Remove(pc.id, pc.node)), threads := s.threads[t := Idle])
    case LoadLeft(t, id) =>
      s.(threads := s.threads[t := Merging(pc.id, pc.node, id, s.table[id])])
    case PostMerge(t) =>
      s.(table := Cas(s.table, pc.leftId, pc.left, MergeNode(pc.removedId, pc.removed, pc.left)),
         threads := s.threads[t := Idle])
  }

  /** The tree right after construction: one empty leaf covering every key. */
  predicate Init(s: State) {
    && s.table == map[FIRST_LEAF_NODE_ID := Base(Pair(0, INVALID_NODE_ID), Pair(0, INVALID_NODE_ID), [])]
    && s.nextId == FIRST_LEAF_NODE_ID + 1 && s.known == {FIRST_LEAF_NODE_ID} && s.threads == map[]
  }

  /* The leaf chain from a node on, and what it tiles. */

  ghost predicate LowIs(c: Leaf, low: Option<Key>) {
    match low
    case None => Low(c).value == INVALID_NODE_ID
    case Some(k) => Low(c).value != INVALID_NODE_ID && Low(c).key == k
  }

  /** Following next ids from `first` visits exactly `ids`; each node starts where the one before
      ends, the first starts at `low` and the last one has no upper limit. */
  ghost predicate Tiles(table: Table, ids: seq<NodeId>, first: NodeId, low: Option<Key>)
    decreases |ids|
  {
    if first == INVALID_NODE_ID then ids == []
    else
      && ids != [] && ids[0] == first && first in table && LowIs(table[first], low)
      && Tiles(table, ids[1..], High(table[first]).value, Some(High(table[first]).key))
  }

  /** The map stored by a list of leaves. */
  ghost function Stored(table: Table, ids: seq<NodeId>): map<Key, Value> {
    if ids == [] then map[]
    else (if ids[0] in table then Contents(table[ids[0]]) else map[]) + Stored(table, ids[1..])
  }

  ghost predicate EntryOk(id: NodeId, c: Leaf) {
    if c.Remove? then c.removedId == id && WellFormed(c.child) else WellFormed(c)
  }

  ghost predicate Entries(table: Table) { forall id :: id in table ==> EntryOk(id, table[id]) }

  ghost predicate ThreadOk(s: State, pc: Pc) {
    match pc
    case Idle => true
    case Holding(id, node) => id in s.known && EntryOk(id, node) &&
        (node.Remove? ==> id in s.table && s.table[id] == node)
    case SplitReady(id, node, newId) =>
      && id in s.known && CanSplit(node) && WellFormed(node)
      && newId != INVALID_NODE_ID && newId !in s.known && newId in s.table && s.table[newId] == Sibling(node)
    case Merging(removedId, removed, leftId, left) =>
      && removedId in s.known && removed.Remove? && removedId in s.table && s.table[removedId] == removed
      && leftId in s.known
  }

  ghost predicate Inv(s: State, order: seq<NodeId>) {
    && Tiles(s.table, order, FIRST_LEAF_NODE_ID, None)
    && Entries(s.table) && (forall id :: id in s.table ==> INVALID_NODE_ID < id < s.nextId)
    && (forall id :: id in s.known ==> id in s.table && (id in order || s.table[id].Remove?))
    && (forall id :: id in order ==> id in s.known)
    && (forall t :: t in s.threads ==> ThreadOk(s, s.threads[t]))
    && (forall t, u ::
          && t in s.threads && u in s.threads && t != u
          && s.threads[t].SplitReady? && s.threads[u].SplitReady? ==>
          s.threads[t].newId != s.threads[u].newId)
  }

  /* Facts about one list of leaves. */

  lemma EntryRange(table: Table, id: NodeId)
    requires Entries(table) && id in table
    ensures Low(table[id]).value != INVALID_NODE_ID && High(table[id]).value != INVALID_NODE_ID ==>
      Low(table[id]).key < High(table[id]).key
    ensures forall k :: k in Contents(table[id]) ==> InRange(table[id], k)
  {
    var c := table[id];
    assert EntryOk(id, c);
    if c.Remove? {
      ProperRange(c.child);
      ContentsInRange(c.child);
    } else {
      ProperRange(c);
      ContentsInRange(c);
    }
  }

  /** Every leaf of a list starts at or after the list's own start. */
  lemma {:induction false} TilesAbove(table: Table, ids: seq<NodeId>, first: NodeId, low: Key, id: NodeId)
    requires Tiles(table, ids, first, Some(low)) && Entries(table) && id in ids
    ensures id in table && Low(table[id]).value != INVALID_NODE_ID && low <= Low(table[id]).key
  {
    if id != ids[0] {
      EntryRange(table, first);
      var high := High(table[first]);
      if high.value != INVALID_NODE_ID {
        TilesAbove(table, ids[1..], high.value, high.key, id);
      }
    }
  }

  lemma {:induction false} StoredAbove(table: Table, ids: seq<NodeId>, first: NodeId, low: Key)
    requires Tiles(table, ids, first, Some(low)) && Entries(table)
    ensures forall k :: k in Stored(table, ids) ==> low <= k
  {
    if ids != [] {
      EntryRange(table, first);
      var high := High(table[first]);
      if high.value != INVALID_NODE_ID {
        StoredAbove(table, ids[1..], high.value, high.key);
      }
    }
  }

  /** The first leaf of a list does not occur again. */
  lemma TilesHeadOnce(table: Table, ids: seq<NodeId>, first: NodeId, low: Option<Key>)
    requires Tiles(table, ids, first, low) && Entries(table) && ids != []
    ensures first !in ids[1..]
  {
    var high := High(table[first]);
    EntryRange(table, first);
    if first in ids[1..] && high.value != INVALID_NODE_ID {
      TilesAbove(table, ids[1..], high.value, high.key, first);
    }
  }

  /** Changes outside a list do not touch it. */
  lemma {:induction false} TilesFrame(table: Table, table': Table, ids: seq<NodeId>, first: NodeId, low: Option<Key>)
    requires Tiles(table, ids, first, low)
    requires forall id :: id in ids && id in table ==> id in table' && table'[id] == table[id]
    ensures Tiles(table', ids, first, low)
    ensures Stored(table', ids) == Stored(table, ids)
  {
    if ids != [] {
      TilesFrame(table, table', ids[1..], High(table[first]).value, Some(High(table[first]).key));
    }
  }

  /** Replacing a leaf by one with the same range keeps the tiling. */
  lemma {:induction false} TilesReplace(table: Table, ids: seq<NodeId>, first: NodeId, low: Option<Key>, id: NodeId,
      c: Leaf)
    requires Tiles(table, ids, first, low) && id in table && Low(c) == Low(table[id]) && High(c) == High(table[id])
    ensures Tiles(table[id := c], ids, first, low)
  {
    if ids != [] {
      TilesReplace(table, ids[1..], High(table[first]).value, Some(High(table[first]).key), id, c);
    }
  }

  lemma {:induction false} StoredReplace(table: Table, ids: seq<NodeId>, id: NodeId, c: Leaf)
    requires id in table && Contents(c) == Contents(table[id])
    ensures Stored(table[id := c], ids) == Stored(table, ids)
  {
    if ids != [] { StoredReplace(table, ids[1..], id, c); }
  }

  /** A leaf other than the one covering `k` stores nothing for `k`. */
  lemma CoveredOnce(table: Table, ids: seq<NodeId>, first: NodeId, low: Option<Key>, id: NodeId, k: Key)
    requires Tiles(table, ids, first, low) && Entries(table)
    requires id in ids && id in table && InRange(table[id], k)
    ensures id != first ==> !InRange(table[first], k) && k !in Contents(table[first])
    ensures id == first ==> k !in Stored(table, ids[1..])
  {
    var high := High(table[first]);
    EntryRange(table, first);
    if high.value == INVALID_NODE_ID {
      assert ids[1..] == [];
    } else if id == first {
      StoredAbove(table, ids[1..], high.value, high.key);
    } else {
      TilesAbove(table, ids[1..], high.value, high.key, id);
    }
  }

  function Applied(m: map<Key, Value>, op: DataOp, item: Item): map<Key, Value> {
    if op.DeleteOp? then m - {item.key} else m[item.key := item.value]
  }

  lemma AppliedUnion(a: map<Key, Value>, b: map<Key, Value>, op: DataOp, item: Item)
    ensures item.key !in b ==> Applied(a, op, item) + b == Applied(a + b, op, item)
    ensures item.key !in a ==> a + Applied(b, op, item) == Applied(a + b, op, item)
  {
  }

  /** A record posted on the leaf that covers its key changes the stored map at that key only. */
  lemma {:induction false} StoredData(table: Table, ids: seq<NodeId>, first: NodeId, low: Option<Key>,
                                      id: NodeId, op: DataOp, item: Item, index: IndexPair)
    requires Tiles(table, ids, first, low) && Entries(table)
    requires id in ids && id in table && InRange(table[id], item.key)
    ensures Stored(table[id := Data(op, item, index, table[id])], ids) == Applied(Stored(table, ids), op, item)
  {
    var table' := table[id := Data(op, item, index, table[id])];
    var high := High(table[first]);
    var rest := Stored(table, ids[1..]);
    CoveredOnce(table, ids, first, low, id, item.key);
    if id == first {
      TilesHeadOnce(table, ids, first, low);
      TilesFrame(table, table', ids[1..], high.value, Some(high.key));
      AppliedUnion(Contents(table[first]), rest, op, item);
    } else {
      StoredData(table, ids[1..], high.value, Some(high.key), id, op, item, index);
      AppliedUnion(Contents(table[first]), rest, op, item);
    }
  }

  /* Splits. */

  ghost function InsertAfter(ids: seq<NodeId>, id: NodeId, newId: NodeId): seq<NodeId> {
    if ids == [] then []
    else if ids[0] == id then [id, newId] + ids[1..]
    else [ids[0]] + InsertAfter(ids[1..], id, newId)
  }

  lemma SplitHead(table: Table, ids: seq<NodeId>, first: NodeId, low: Option<Key>,
                  newId: NodeId, left: Leaf, right: Leaf, table': Table)
    requires Tiles(table, ids, first, low) && Entries(table) && first in ids && first in table
    requires newId !in ids && newId != INVALID_NODE_ID && table' == table[first := left][newId := right]
    requires Low(left) == Low(table[first]) && High(left).value == newId
    requires LowIs(right, Some(High(left).key)) && High(right) == High(table[first])
    ensures Tiles(table', [first, newId] + ids[1..], first, low)
    ensures Stored(table', ids[1..]) == Stored(table, ids[1..])
  {
    hide Contents, WellFormed, Low, High, Entries;
    var high := High(table[first]);
    TilesHeadOnce(table, ids, first, low);
    TilesFrame(table, table', ids[1..], high.value, Some(high.key));
    var tail := [newId] + ids[1..];
    assert tail[1..] == ids[1..];
    assert ([first, newId] + ids[1..])[1..] == tail;
    assert Tiles(table', tail, newId, Some(High(left).key));
  }

  /** The stored map when the first leaf of a list is replaced by two. */
  lemma StoredTwo(table: Table, ids: seq<NodeId>, newId: NodeId, left: Leaf, right: Leaf, table': Table)
    requires ids != [] && ids[0] in table && ids[0] != newId && table' == table[ids[0] := left][newId := right]
    requires Contents(left) + Contents(right) == Contents(table[ids[0]])
    requires Stored(table', ids[1..]) == Stored(table, ids[1..])
    ensures Stored(table', [ids[0], newId] + ids[1..]) == Stored(table, ids)
  {
    hide Contents;
    var tail := [newId] + ids[1..];
    assert tail[1..] == ids[1..] && ([ids[0], newId] + ids[1..])[1..] == tail;
    assert Stored(table', tail) == Contents(right) + Stored(table, ids[1..]);
  }

  /** Splitting leaf `id` into `left` and `right` keeps the tiling and the stored map. */
  lemma {:induction false} SplitTiles(table: Table, ids: seq<NodeId>, first: NodeId, low: Option<Key>,
                                      id: NodeId, newId: NodeId, left: Leaf, right: Leaf, table': Table)
    requires Tiles(table, ids, first, low) && Entries(table) && id in ids && id in table
    requires newId !in ids && newId != INVALID_NODE_ID && table' == table[id := left][newId := right]
    requires Low(left) == Low(table[id]) && High(left).value == newId
    requires LowIs(right, Some(High(left).key)) && High(right) == High(table[id])
    requires Contents(left) + Contents(right) == Contents(table[id])
    ensures Tiles(table', InsertAfter(ids, id, newId), first, low)
    ensures Stored(table', InsertAfter(ids, id, newId)) == Stored(table, ids)
  {
    hide Contents, WellFormed, Low, High, LowIs;
    if id == first {
      SplitHead(table, ids, first, low, newId, left, right, table');
      StoredTwo(table, ids, newId, left, right, table');
    } else {
      var high := High(table[first]);
      var ids' := InsertAfter(ids, id, newId);
      SplitTiles(table, ids[1..], high.value, Some(high.key), id, newId, left, right, table');
      assert ids'[1..] == InsertAfter(ids[1..], id, newId);
    }
  }

  /* Merges. */

  ghost function Without(ids: seq<NodeId>, id: NodeId): seq<NodeId> {
    if ids == [] then [] else if ids[0] == id then ids[1..] else [ids[0]] + Without(ids[1..], id)
  }

  lemma MergeHead(table: Table, ids: seq<NodeId>, first: NodeId, low: Option<Key>, gone: NodeId, merged: Leaf)
    requires Tiles(table, ids, first, low) && Entries(table) && first in ids && first in table && gone in table
    requires High(table[first]).value == gone && gone != first && gone != INVALID_NODE_ID
    requires Low(merged) == Low(table[first]) && High(merged) == High(table[gone])
    ensures |ids| >= 2 && ids[1] == gone
    ensures Tiles(table[first := merged], [first] + ids[2..], first, low)
    ensures Stored(table[first := merged], ids[2..]) == Stored(table, ids[2..])
  {
    hide Contents, WellFormed, Low, High, Entries;
    var high := High(table[first]);
    TilesHeadOnce(table, ids, first, low);
    var rest := ids[1..][1..];
    assert rest == ids[2..] && ([first] + rest)[1..] == rest;
    TilesFrame(table, table[first := merged], rest, High(table[gone]).value, Some(High(table[gone]).key));
  }

  /** The stored map when the first two leaves of a list are replaced by one. */
  lemma StoredOne(table: Table, ids: seq<NodeId>, merged: Leaf)
    requires |ids| >= 2 && ids[0] in table && ids[1] in table
    requires Contents(merged) == Contents(table[ids[0]]) + Contents(table[ids[1]])
    requires Stored(table[ids[0] := merged], ids[2..]) == Stored(table, ids[2..])
    ensures Stored(table[ids[0] := merged], [ids[0]] + ids[2..]) == Stored(table, ids)
  {
    hide Contents;
    var rest := ids[1..][1..];
    assert rest == ids[2..] && ([ids[0]] + rest)[1..] == rest;
    assert Stored(table, ids[1..]) == Contents(table[ids[1]]) + Stored(table, rest);
  }

  /** Absorbing the leaf `gone` into its left neighbour keeps the tiling and the stored map. */
  lemma {:induction false} MergeTiles(table: Table, ids: seq<NodeId>, first: NodeId, low: Option<Key>,
                                      id: NodeId, gone: NodeId, merged: Leaf)
    requires Tiles(table, ids, first, low) && Entries(table) && id in ids && id in table && gone in table
    requires High(table[id]).value == gone && gone != id && gone != INVALID_NODE_ID
    requires Low(merged) == Low(table[id]) && High(merged) == High(table[gone])
    requires Contents(merged) == Contents(table[id]) + Contents(table[gone])
    ensures gone in ids && gone != first
    ensures Tiles(table[id := merged], Without(ids, gone), first, low)
    ensures Stored(table[id := merged], Without(ids, gone)) == Stored(table, ids)
  {
    hide Contents, WellFormed, Low, High, LowIs;
    if id == first {
      MergeHead(table, ids, first, low, gone, merged);
      StoredOne(table, ids, merged);
      assert Without(ids[1..], gone) == ids[2..];
      assert Without(ids, gone) == [first] + ids[2..];
    } else {
      var high := High(table[first]);
      MergeTiles(table, ids[1..], high.value, Some(high.key), id, gone, merged);
      TilesHeadOnce(table, ids, first, low);
      assert Without(ids, gone)[1..] == Without(ids[1..], gone);
    }
  }

  /* The nodes the protocol builds are well formed. */

  lemma SplitCount(node: Leaf, m: nat, item: KeyNodeId)
    requires node.Base? && Sorted(node.items) && m < |node.items|
    requires item.key == node.items[m].key && item.value != INVALID_NODE_ID
    ensures Contents(Base(node.low, node.high, node.items[m..])) == Beyond(Contents(node), item)
    ensures |Contents(node)| - |Under(Contents(node), item)| == |node.items| - m
    ensures Under(Contents(node), item) + Contents(Base(node.low, node.high, node.items[m..])) == Contents(node)
  {
    PrefixUnder(node.items, m, item);
    MapOfSize(node.items);
    MapOfSize(node.items[..m]);
  }

  lemma SplitOk(node: Leaf, newId: NodeId)
    requires CanSplit(node) && WellFormed(node) && newId != INVALID_NODE_ID
    ensures WellFormed(SplitNode(node, newId)) && WellFormed(Sibling(node))
    ensures High(SplitNode(node, newId)) == Pair(Sibling(node).low.key, newId)
    ensures Contents(SplitNode(node, newId)) + Contents(Sibling(node)) == Contents(node)
  {
    SplitCount(node, SplitIndex(node), SplitNode(node, newId).splitItem);
    var m := SplitIndex(node);
    assert node.items[0].key < node.items[m].key;
    assert AboveLow(node.items[0].key, node.low);
    assert Contents(Base(node.low, node.high, node.items[m..])) == Contents(Sibling(node));
  }

  /** A leaf's next id names the leaf that starts where it ends. */
  /** The split that is posted is the one the scan finds: there always is one, and both halves stay
      above the threshold at which a leaf is removed, the left one also once it is consolidated. */
  lemma SplitBalanced(node: Leaf, newId: NodeId)
    requires CanSplit(node) && WellFormed(node) && newId != INVALID_NODE_ID
    ensures IsSplitPoint(node.items, |node.items| - |Sibling(node).items|)
    ensures |Sibling(node).items| > LEAF_NODE_SIZE_LOWER_THRESHOLD
    ensures |node.items| - |Sibling(node).items| > LEAF_NODE_SIZE_LOWER_THRESHOLD
    ensures |Contents(SplitNode(node, newId))| == |node.items| - |Sibling(node).items|
    ensures forall leaf :: IsConsolidation(SplitNode(node, newId), leaf) ==>
              |leaf.items| > LEAF_NODE_SIZE_LOWER_THRESHOLD
  {
    var m := SplitIndex(node);
    SplitCount(node, m, SplitNode(node, newId).splitItem);
    MapOfSize(node.items);
    assert |Sibling(node).items| == |node.items| - m;
    forall leaf | IsConsolidation(SplitNode(node, newId), leaf)
      ensures |leaf.items| > LEAF_NODE_SIZE_LOWER_THRESHOLD
    {
      MapOfSize(leaf.items);
    }
  }

  /** Right after a split, neither half can be posted for removal. */
  lemma SplitNotRemoved(s: State, order: seq<NodeId>, t: Thread)
    requires Inv(s, order) && Enabled(s, PostSplit(t)) && Wins(s, PostSplit(t))
    ensures var pc, s' := PcOf(s, t), Next(s, PostSplit(t));
            && pc.newId in s'.table && pc.id in s'.table
            && (forall u :: PcOf(s', u) == Holding(pc.newId, s'.table[pc.newId]) ==> !Enabled(s', PostRemove(u)))
            && (forall u, leaf :: IsConsolidation(s'.table[pc.id], leaf) && PcOf(s', u) == Holding(pc.id, leaf) ==>
                  !Enabled(s', PostRemove(u)))
  {
    hide WellFormed, Contents, Tiles, Sibling, SplitNode;
    var pc := PcOf(s, t);
    assert ThreadOk(s, pc);
    SplitBalanced(pc.node, pc.newId);
  }

  lemma {:induction false} NextStarts(table: Table, ids: seq<NodeId>, first: NodeId, low: Option<Key>, id: NodeId)
    requires Tiles(table, ids, first, low) && id in ids && id in table && High(table[id]).value != INVALID_NODE_ID
    ensures High(table[id]).value in ids && High(table[id]).value in table
    ensures LowIs(table[High(table[id]).value], Some(High(table[id]).key))
  {
    if id != first {
      NextStarts(table, ids[1..], High(table[first]).value, Some(High(table[first]).key), id);
    }
  }

  lemma MergeOk(left: Leaf, removedId: NodeId, removed: Leaf)
    requires WellFormed(left) && removed.Remove? && WellFormed(removed.child)
    requires High(left).value == removedId != INVALID_NODE_ID && LowIs(removed, Some(High(left).key))
    ensures var m := MergeNode(removedId, removed, left);
            && WellFormed(m) && Low(m) == Low(left) && High(m) == High(removed)
            && Contents(m) == Contents(left) + Contents(removed)
  {
  }

  /* Every step keeps the invariant. */

  ghost predicate OwnNewId(s: State, t: Thread, pc: Pc) {
    pc.SplitReady? ==> forall u :: u in s.threads && u != t && s.threads[u].SplitReady? ==>
        s.threads[u].newId != pc.newId
  }

  lemma InvThread(s: State, order: seq<NodeId>, t: Thread, pc: Pc)
    requires Inv(s, order) && ThreadOk(s, pc) && OwnNewId(s, t, pc)
    ensures Inv(s.(threads := s.threads[t := pc]), order)
  {
    hide Tiles, Entries, WellFormed;
  }

  /** Replacing the node of a published, not removed leaf by one with the same range. */
  lemma InvReplace(s: State, order: seq<NodeId>, id: NodeId, c: Leaf)
    requires Inv(s, order) && id in s.known && !s.table[id].Remove? && EntryOk(id, c)
    requires Low(c) == Low(s.table[id]) && High(c) == High(s.table[id])
    ensures Inv(s.(table := s.table[id := c]), order)
  {
    hide WellFormed, Low, High, Sibling, CanSplit;
    TilesReplace(s.table, order, FIRST_LEAF_NODE_ID, None, id, c);
  }

  lemma ThreadKept(s: State, s': State, pc: Pc)
    requires ThreadOk(s, pc) && s'.known == s.known
    requires forall id :: id in s.table ==> id in s'.table && s'.table[id] == s.table[id]
    ensures ThreadOk(s', pc)
  {
  }

  /** Mapping a fresh, unpublished id. */
  lemma InvFresh(s: State, order: seq<NodeId>, c: Leaf)
    requires Inv(s, order) && WellFormed(c)
    ensures Inv(s.(table := s.table[s.nextId := c], nextId := s.nextId + 1), order)
    ensures Stored(s.table[s.nextId := c], order) == Stored(s.table, order)
  {
    var s' := s.(table := s.table[s.nextId := c], nextId := s.nextId + 1);
    assert EntryOk(s.nextId, c);
    assert s.nextId !in s.table;
    hide WellFormed, Low, High, Sibling, CanSplit, Contents, EntryOk, Tiles, Stored, ThreadOk;
    TilesFrame(s.table, s'.table, order, FIRST_LEAF_NODE_ID, None);
    forall t | t in s'.threads
      ensures ThreadOk(s', s'.threads[t])
    {
      ThreadKept(s, s', s.threads[t]);
    }
  }

  lemma InvInstall(s: State, order: seq<NodeId>, t: Thread)
    requires Inv(s, order) && Enabled(s, InstallSibling(t))
    ensures Inv(Next(s, InstallSibling(t)), order)
    ensures Stored(Next(s, InstallSibling(t)).table, order) == Stored(s.table, order)
  {
    var pc := PcOf(s, t);
    assert ThreadOk(s, pc);
    SplitOk(pc.node, s.nextId);
    hide WellFormed, Low, High, Contents, Tiles, Sibling, CanSplit;
    InvFresh(s, order, Sibling(pc.node));
    var s1 := s.(table := s.table[s.nextId := Sibling(pc.node)], nextId := s.nextId + 1);
    InvThread(s1, order, t, SplitReady(pc.id, pc.node, s.nextId));
  }

  lemma InvPublish(s: State, order: seq<NodeId>, order': seq<NodeId>, t: Thread, c: Leaf)
    requires Inv(s, order) && t in s.threads && s.threads[t].SplitReady? && EntryOk(s.threads[t].id, c)
    requires s.threads[t].id in s.table && !s.table[s.threads[t].id].Remove?
    requires Tiles(s.table[s.threads[t].id := c], order', FIRST_LEAF_NODE_ID, None)
    requires forall x :: x in order' <==> x in order || x == s.threads[t].newId
    ensures Inv(s.(table := s.table[s.threads[t].id := c], known := s.known + {s.threads[t].newId},
                   threads := s.threads[t := Idle]), order')
  {
    hide WellFormed, Low, High, Sibling, CanSplit, Contents, EntryOk, Tiles;
  }

  /** A split that wins its compare-and-swap publishes the sibling right after the node. */
  lemma InvSplit(s: State, order: seq<NodeId>, t: Thread)
    requires Inv(s, order) && Enabled(s, PostSplit(t)) && PcOf(s, t).id in s.table
    requires s.table[PcOf(s, t).id] == PcOf(s, t).node
    ensures var pc := PcOf(s, t); var order' := InsertAfter(order, pc.id, pc.newId);
            Inv(Next(s, PostSplit(t)), order') && Stored(Next(s, PostSplit(t)).table, order') == Stored(s.table, order)
  {
    var pc := PcOf(s, t);
    assert t in s.threads && ThreadOk(s, pc);
    SplitOk(pc.node, pc.newId);
    var left, right := SplitNode(pc.node, pc.newId), Sibling(pc.node);
    assert Low(left) == Low(pc.node) && High(right) == High(pc.node) && LowIs(right, Some(High(left).key));
    hide WellFormed, Low, High, Contents, Tiles, SplitNode, Sibling, LowIs, CanSplit;
    var table' := s.table[pc.id := left];
    assert table' == s.table[pc.id := left][pc.newId := right];
    SplitTiles(s.table, order, FIRST_LEAF_NODE_ID, None, pc.id, pc.newId, left, right, table');
    InsertAfterMembers(order, pc.id, pc.newId);
    InvPublish(s, order, InsertAfter(order, pc.id, pc.newId), t, left);
  }

  lemma {:induction false} InsertAfterMembers(ids: seq<NodeId>, id: NodeId, newId: NodeId)
    requires id in ids
    ensures forall x :: x in InsertAfter(ids, id, newId) <==> x in ids || x == newId
  {
    if ids[0] != id {
      InsertAfterMembers(ids[1..], id, newId);
    }
  }

  lemma {:induction false} WithoutMembers(ids: seq<NodeId>, id: NodeId)
    ensures forall x :: x in Without(ids, id) ==> x in ids
    ensures forall x :: x in ids && x != id ==> x in Without(ids, id)
  {
    if ids != [] && ids[0] != id {
      WithoutMembers(ids[1..], id);
    }
  }

  lemma InvUnpublish(s: State, order: seq<NodeId>, order': seq<NodeId>, t: Thread, id: NodeId, gone: NodeId, c: Leaf)
    requires Inv(s, order) && id in s.known && id in s.table && !s.table[id].Remove? && EntryOk(id, c)
    requires gone in s.table && s.table[gone].Remove?
    requires Tiles(s.table[id := c], order', FIRST_LEAF_NODE_ID, None)
    requires forall x :: x in order' ==> x in order
    requires forall x :: x in order && x != gone ==> x in order'
    ensures Inv(s.(table := s.table[id := c], threads := s.threads[t := Idle]), order')
  {
    hide WellFormed, Low, High, Sibling, CanSplit, Contents, EntryOk, Tiles;
  }

  /** A merge that wins its compare-and-swap takes the removed node out of the list. */
  lemma InvMerge(s: State, order: seq<NodeId>, t: Thread)
    requires Inv(s, order) && Enabled(s, PostMerge(t))
    requires PcOf(s, t).leftId in s.table && s.table[PcOf(s, t).leftId] == PcOf(s, t).left
    ensures var order' := Without(order, PcOf(s, t).removedId);
            Inv(Next(s, PostMerge(t)), order') && Stored(Next(s, PostMerge(t)).table, order') == Stored(s.table, order)
  {
    var pc := PcOf(s, t);
    assert t in s.threads && ThreadOk(s, pc);
    var id, gone := pc.leftId, pc.removedId;
    assert EntryOk(id, pc.left) && EntryOk(gone, pc.removed);
    NextStarts(s.table, order, FIRST_LEAF_NODE_ID, None, id);
    MergeOk(pc.left, gone, pc.removed);
    var merged := MergeNode(gone, pc.removed, pc.left);
    hide WellFormed, Low, High, Contents, Tiles, LowIs, CanSplit, MergeNode;
    MergeTiles(s.table, order, FIRST_LEAF_NODE_ID, None, id, gone, merged);
    WithoutMembers(order, gone);
    InvUnpublish(s, order, Without(order, gone), t, id, gone, merged);
  }

  /** The compare-and-swap of a step finds the node it expects. */
  ghost predicate Wins(s: State, a: Action) {
    var pc := PcOf(s, a.t);
    match a
    case PostMerge(_) => pc.Merging? && pc.leftId in s.table && s.table[pc.leftId] == pc.left
    case PostSplit(_) => pc.SplitReady? && pc.id in s.table && s.table[pc.id] == pc.node
    case _ => pc.Holding? && pc.id in s.table && s.table[pc.id] == pc.node
  }

  /** Steps that replace a node by one with the same range. */
  lemma InvReplaceStep(s: State, order: seq<NodeId>, a: Action)
    requires Inv(s, order) && Enabled(s, a) && Wins(s, a) && (a.PostData? || a.Consolidate? || a.PostRemove?)
    ensures Inv(Next(s, a), order)
    ensures Stored(Next(s, a).table, order) ==
      if a.PostData? then Applied(Stored(s.table, order), a.op, a.item) else Stored(s.table, order)
    ensures a.PostData? ==> (a.op.InsertOp? <==> a.item.key !in Stored(s.table, order))
  {
    var pc, s' := PcOf(s, a.t), Next(s, a);
    var c := s'.table[pc.id];
    assert a.t in s.threads && ThreadOk(s, pc) && EntryOk(pc.id, pc.node);
    assert EntryOk(pc.id, c) && Low(c) == Low(pc.node) && High(c) == High(pc.node);
    InvReplace(s, order, pc.id, c);
    InvThread(s.(table := s.table[pc.id := c]), order, a.t, PcOf(s', a.t));
    if a.PostData? {
      StoredData(s.table, order, FIRST_LEAF_NODE_ID, None, pc.id, a.op, a.item, a.index);
      LeafDecides(s.table, order, FIRST_LEAF_NODE_ID, None, pc.id, a.item.key);
    } else {
      StoredReplace(s.table, order, pc.id, c);
    }
  }

  /** The leaf that covers a key decides it for the whole tree. */
  lemma {:induction false} LeafDecides(table: Table, ids: seq<NodeId>, first: NodeId, low: Option<Key>, id: NodeId,
      k: Key)
    requires Tiles(table, ids, first, low) && Entries(table)
    requires id in ids && id in table && InRange(table[id], k)
    ensures Lookup(Stored(table, ids), k) == Lookup(Contents(table[id]), k)
  {
    CoveredOnce(table, ids, first, low, id, k);
    if id != first {
      LeafDecides(table, ids[1..], High(table[first]).value, Some(High(table[first]).key), id, k);
    }
  }

  /** Steps that change no mapping table entry: loads and lost compare-and-swaps. */
  lemma InvLocal(s: State, order: seq<NodeId>, a: Action)
    requires Inv(s, order) && Enabled(s, a)
    requires a.Load? || a.LoadLeft? || (!a.InstallSibling? && !Wins(s, a))
    ensures Inv(Next(s, a), order) && Next(s, a).table == s.table
  {
    var pc, s' := PcOf(s, a.t), Next(s, a);
    if a.t in s.threads { assert ThreadOk(s, pc); }
    if a.Load? || a.LoadLeft? { assert EntryOk(a.id, s.table[a.id]); }
    hide WellFormed, Low, High, Contents, Tiles, CanSplit, EntryOk;
    InvThread(s, order, a.t, PcOf(s', a.t));
    assert s' == s.(threads := s.threads[a.t := PcOf(s', a.t)]);
  }

  ghost function OrderAfter(s: State, a: Action, order: seq<NodeId>): seq<NodeId> {
    var pc := PcOf(s, a.t);
    if a.PostSplit? && Wins(s, a) then InsertAfter(order, pc.id, pc.newId)
    else if a.PostMerge? && Wins(s, a) then Without(order, pc.removedId)
    else order
  }

  /** Every step of every thread keeps the invariant, and the stored map changes only when a data
      record wins its compare-and-swap, then by exactly that record, which is an insert exactly
      when the key was absent. */
  lemma StepSafe(s: State, a: Action, order: seq<NodeId>)
    requires Inv(s, order) && Enabled(s, a)
    ensures Inv(Next(s, a), OrderAfter(s, a, order))
    ensures Stored(Next(s, a).table, OrderAfter(s, a, order)) ==
      if a.PostData? && Wins(s, a) then Applied(Stored(s.table, order), a.op, a.item) else Stored(s.table, order)
    ensures a.PostData? && Wins(s, a) ==> (a.op.InsertOp? <==> a.item.key !in Stored(s.table, order))
  {
    hide Inv, Next, Enabled, Stored;
    match a
    case Load(_, _) => InvLocal(s, order, a);
    case LoadLeft(_, _) => InvLocal(s, order, a);
    case InstallSibling(t) => InvInstall(s, order, t);
    case PostSplit(t) =>
      if Wins(s, a) { InvSplit(s, order, t); } else { InvLocal(s, order, a); }
    case PostMerge(t) =>
      if Wins(s, a) { InvMerge(s, order, t); } else { InvLocal(s, order, a); }
    case _ =>
      if Wins(s, a) { InvReplaceStep(s, order, a); } else { InvLocal(s, order, a); }
  }

  /** The low key an id is mapped to never changes while the id lives. */
  lemma LowKeyStable(s: State, a: Action, id: NodeId)
    requires Enabled(s, a) && id in s.table && (forall i :: i in s.table ==> i < s.nextId)
    ensures id in Next(s, a).table && Low(Next(s, a).table[id]) == Low(s.table[id])
  {
  }

  /* Whole runs. */

  ghost predicate Run(states: seq<State>, actions: seq<Action>) {
    && |states| == |actions| + 1 && Init(states[0])
    && forall i :: 0 <= i < |actions| ==> Enabled(states[i], actions[i]) && states[i + 1] == Next(states[i], actions[i])
  }

  /** The sequential map: the data records in the order their compare-and-swaps won. */
  ghost function Committed(states: seq<State>, actions: seq<Action>): map<Key, Value>
    requires |states| == |actions| + 1
  {
    if actions == [] then map[]
    else
      var n := |actions| - 1;
      var m := Committed(states[..n + 1], actions[..n]);
      if actions[n].PostData? && Wins(states[n], actions[n]) then Applied(m, actions[n].op, actions[n].item) else m
  }

  lemma {:induction false} RunInvariant(states: seq<State>, actions: seq<Action>) returns (order: seq<NodeId>)
    requires Run(states, actions)
    ensures Inv(states[|actions|], order)
    ensures Stored(states[|actions|].table, order) == Committed(states, actions)
  {
    hide Inv, Next, Enabled, Stored, Wins, Applied, Init;
    if actions == [] {
      order := [FIRST_LEAF_NODE_ID];
      InitInvariant(states[0]);
    } else {
      var n := |actions| - 1;
      var before := RunInvariant(states[..n + 1], actions[..n]);
      StepSafe(states[n], actions[n], before);
      order := OrderAfter(states[n], actions[n], before);
    }
  }

  /** In every run, the low key an id is mapped to stays what it was when the id was installed. */
  lemma {:induction false} RunLowKey(states: seq<State>, actions: seq<Action>, i: nat, j: nat, id: NodeId)
    requires Run(states, actions) && i <= j <= |actions| && id in states[i].table
    ensures id in states[j].table && Low(states[j].table[id]) == Low(states[i].table[id])
    decreases j
  {
    if i < j {
      RunLowKey(states, actions, i, j - 1, id);
      var order := RunInvariant(states[..j], actions[..j - 1]);
      LowKeyStable(states[j - 1], actions[j - 1], id);
    }
  }

  lemma InitInvariant(s: State)
    requires Init(s)
    ensures Inv(s, [FIRST_LEAF_NODE_ID]) && Stored(s.table, [FIRST_LEAF_NODE_ID]) == map[]
  {
    var leaf := s.table[FIRST_LEAF_NODE_ID];
    assert WellFormed(leaf) && Contents(leaf) == map[];
    assert [FIRST_LEAF_NODE_ID][1..] == [];
    assert Tiles(s.table, [], INVALID_NODE_ID, Some(0));
  }

  /** Next ids determine the list. */
  lemma {:induction false} TilesUnique(table: Table, a: seq<NodeId>, b: seq<NodeId>, first: NodeId, low: Option<Key>)
    requires Tiles(table, a, first, low) && Tiles(table, b, first, low)
    ensures a == b
  {
    if a != [] {
      TilesUnique(table, a[1..], b[1..], High(table[first]).value, Some(High(table[first]).key));
      assert a == [a[0]] + a[1..] && b == [b[0]] + b[1..];
    }
  }

  /** No gap: every key from the list's start on is covered by some leaf. */
  lemma {:induction false} NoGap(table: Table, ids: seq<NodeId>, first: NodeId, low: Option<Key>,
      k: Key) returns (id: NodeId)
    requires Tiles(table, ids, first, low) && first != INVALID_NODE_ID && (low.None? || low.value <= k)
    ensures id in ids && id in table && InRange(table[id], k)
  {
    if BelowHigh(k, High(table[first])) {
      id := first;
    } else {
      id := NoGap(table, ids[1..], High(table[first]).value, Some(High(table[first]).key), k);
    }
  }

  /** No overlap: two leaves that cover the same key are the same leaf. */
  lemma {:induction false} NoOverlap(table: Table, ids: seq<NodeId>, first: NodeId, low: Option<Key>, a: NodeId,
      b: NodeId, k: Key)
    requires Tiles(table, ids, first, low) && Entries(table)
    requires a in ids && a in table && InRange(table[a], k)
    requires b in ids && b in table && InRange(table[b], k)
    ensures a == b
  {
    CoveredOnce(table, ids, first, low, a, k);
    CoveredOnce(table, ids, first, low, b, k);
    if a != first && b != first {
      NoOverlap(table, ids[1..], High(table[first]).value, Some(High(table[first]).key), a, b, k);
    }
  }

  /** In every run of any number of threads: the leaves reached from the first leaf tile the key
      space, each key is covered by exactly one of them, and that leaf's content for the key is
      what the committed operations, taken one after the other, leave there. */
  lemma RunLinearizable(states: seq<State>, actions: seq<Action>, k: Key) returns (order: seq<NodeId>, id: NodeId)
    requires Run(states, actions)
    ensures var table := states[|actions|].table;
            && Tiles(table, order, FIRST_LEAF_NODE_ID, None)
            && id in order && id in table && InRange(table[id], k)
            && (forall other :: other in order && other in table && InRange(table[other], k) ==> other == id)
            && Lookup(Contents(table[id]), k) == Lookup(Committed(states, actions), k)
  {
    order := RunInvariant(states, actions);
    var table := states[|actions|].table;
    id := NoGap(table, order, FIRST_LEAF_NODE_ID, None, k);
    forall other | other in order && other in table && InRange(table[other], k)
      ensures other == id
    {
      NoOverlap(table, order, FIRST_LEAF_NODE_ID, None, other, id, k);
    }
    LeafDecides(table, order, FIRST_LEAF_NODE_ID, None, id, k);
  }

  /** A winning consolidation leaves a base leaf, with nothing on top, that answers as before. */
  lemma ConsolidationSettles(s: State, order: seq<NodeId>, t: Thread, leaf: Leaf)
    requires Inv(s, order) && Enabled(s, Consolidate(t, leaf)) && Wins(s, Consolidate(t, leaf))
    ensures var id, s' := PcOf(s, t).id, Next(s, Consolidate(t, leaf));
            && id in s.table && id in s'.table && Depth(s'.table[id]) == 0 && WellFormed(s'.table[id])
            && Contents(s'.table[id]) == Contents(s.table[id]) && |s'.table[id].items| == ItemCount(s.table[id])
  {
    var id := PcOf(s, t).id;
    assert EntryOk(id, s.table[id]);
    ItemCountExact(s.table[id]);
    MapOfSize(leaf.items);
  }

  /** No step changes the entry of a leaf that is being removed. */
  lemma RemovedStays(s: State, order: seq<NodeId>, a: Action, id: NodeId)
    requires Inv(s, order) && Enabled(s, a) && id in s.table && s.table[id].Remove?
    ensures id in Next(s, a).table && Next(s, a).table[id] == s.table[id]
  {
    hide Tiles, WellFormed, Contents;
    if a.t in s.threads { assert ThreadOk(s, s.threads[a.t]); }
  }

  /** In every run, once the removal of a leaf is posted its entry is frozen: it holds the leaf as it
      was, so that whoever completes the removal moves exactly those records. */
  lemma {:induction false} RunRemoved(states: seq<State>, actions: seq<Action>, i: nat, j: nat)
    requires Run(states, actions) && i < j <= |actions| && actions[i].PostRemove? && Wins(states[i], actions[i])
    ensures var pc := PcOf(states[i], actions[i].t);
            && pc.Holding? && pc.id in states[i].table && pc.id in states[j].table
            && states[j].table[pc.id] == Remove(pc.id, states[i].table[pc.id])
    decreases j
  {
    hide Init, Inv, Tiles, WellFormed, Contents;
    var pc := PcOf(states[i], actions[i].t);
    assert states[i + 1] == Next(states[i], actions[i]);
    if i + 1 < j {
      RunRemoved(states, actions, i, j - 1);
      var order := RunInvariant(states[..j], actions[..j - 1]);
      RemovedStays(states[j - 1], order, actions[j - 1], pc.id);
    }
  }

  /* What a thread learns from a snapshot. */

  /** An id once published stays published. */
  lemma {:induction false} RunKnown(states: seq<State>, actions: seq<Action>, i: nat, j: nat, id: NodeId)
    requires Run(states, actions) && i <= j <= |actions| && id in states[i].known
    ensures id in states[j].known
    decreases j
  {
    if i < j {
      RunKnown(states, actions, i, j - 1, id);
      assert states[j - 1].known <= Next(states[j - 1], actions[j - 1]).known;
    }
  }

  /** In any state of a run, a published leaf that is not removed answers for every key of its range
      what the operations committed up to that state leave there. */
  lemma CommittedAt(states: seq<State>, actions: seq<Action>, i: nat, id: NodeId, k: Key)
    requires Run(states, actions) && i <= |actions| && id in states[i].known && id in states[i].table
    requires var c := states[i].table[id]; !c.Remove? && InRange(c, k)
    ensures Lookup(Contents(states[i].table[id]), k) == Lookup(Committed(states[..i + 1], actions[..i]), k)
  {
    hide Next, Enabled, Init, Tiles, Stored, Contents, Committed;
    var order := RunInvariant(states[..i + 1], actions[..i]);
    LeafDecides(states[i].table, order, FIRST_LEAF_NODE_ID, None, id, k);
  }

  lemma {:induction false} HoldsOn(states: seq<State>, actions: seq<Action>, i: nat, j: nat, t: Thread)
    requires Run(states, actions) && i < j <= |actions| && actions[i].Load? && actions[i].t == t
    requires forall m :: i < m < j ==> actions[m].t != t
    ensures actions[i].id in states[i].known && actions[i].id in states[i].table
    ensures PcOf(states[j], t) == Holding(actions[i].id, states[i].table[actions[i].id])
    decreases j
  {
    hide Init;
    assert states[i + 1] == Next(states[i], actions[i]);
    if i + 1 < j {
      HoldsOn(states, actions, i, j - 1, t);
      OthersKeep(states[j - 1], actions[j - 1], t);
    }
  }

  lemma OthersKeep(s: State, a: Action, t: Thread)
    requires Enabled(s, a) && a.t != t
    ensures PcOf(Next(s, a), t) == PcOf(s, t)
  {
  }

  /** A lookup, an insertion refused because the key is there and a deletion refused because it is
      not are decided on a snapshot; the answer is the one of the sequential map at the moment the
      snapshot was taken, whatever other threads have done since. */
  lemma SnapshotLinearizes(states: seq<State>, actions: seq<Action>, i: nat, j: nat, k: Key)
    requires Run(states, actions) && i < j <= |actions| && actions[i].Load?
    requires forall m :: i < m < j ==> actions[m].t != actions[i].t
    ensures var pc := PcOf(states[j], actions[i].t);
            && pc.Holding?
            && (!pc.node.Remove? && InRange(pc.node, k) ==>
                  Lookup(Contents(pc.node), k) == Lookup(Committed(states[..i + 1], actions[..i]), k))
  {
    hide Init, Next, Enabled, Contents, Committed;
    HoldsOn(states, actions, i, j, actions[i].t);
    var id := actions[i].id;
    var node := states[i].table[id];
    if !node.Remove? && InRange(node, k) {
      CommittedAt(states, actions, i, id, k);
    }
  }

  /** The next leaf of a published leaf that is not removed is there in every later state, and still
      starts where that leaf ended. */
  lemma NextIsThere(states: seq<State>, actions: seq<Action>, i: nat, j: nat, id: NodeId)
    requires Run(states, actions) && i <= j <= |actions| && id in states[i].known && id in states[i].table
    requires !states[i].table[id].Remove? && High(states[i].table[id]).value != INVALID_NODE_ID
    ensures var high := High(states[i].table[id]);
            && high.value in states[j].known && high.value in states[j].table
            && LowIs(states[j].table[high.value], Some(high.key))
  {
    hide Next, Enabled, Init, Tiles, Stored, Contents, WellFormed;
    var order := RunInvariant(states[..i + 1], actions[..i]);
    NextStarts(states[i].table, order, FIRST_LEAF_NODE_ID, None, id);
    var next := High(states[i].table[id]).value;
    RunKnown(states, actions, i, j, next);
    RunLowKey(states, actions, i, j, next);
  }
}
