/** Consolidation of an inner delta chain into one base node, and the search for a left sibling. */
module InnerConsolidation {
  import opened Options
  import opened Ordered
  import opened SortedSmallSets
  import LeafChains
  import opened InnerChains
  import LC = LeafConsolidation

  type NodeId = LeafChains.NodeId
  type KeyNodeId = LeafChains.KeyNodeId
  const INVALID_NODE_ID: NodeId := LeafChains.INVALID_NODE_ID

  type Pending = Pair<Change<NodeId, ()>>
  type PendingMap = map<Key, Change<NodeId, ()>>

  function ChangeOf(c: Inner): Pending
    requires c.Insert? || c.Delete?
  {
    Pair(c.item.key, Change(if c.Insert? then Some(c.item.value) else None, ()))
  }

  function Ascending(a: Pending, b: Pending): bool { a.key < b.key }

  function SameKey(a: Pending, b: Pending): bool { a.key == b.key }

  /** What the records above still have to do to the part of `c` below `high`. */
  ghost function Outcome(c: Inner, first: bool, high: KeyNodeId, p: PendingMap): map<Key, NodeId> {
    Override(LeafChains.Under(Content(c, first), high), LeafChains.Under(p, high))
  }

  /** A record joins the pending ones unless one above it was for the same key. */
  ghost function Joined(p: PendingMap, d: Pending): PendingMap { if d.key in p then p else p[d.key := d.value] }

  lemma DeltaContent(c: Inner, first: bool)
    requires WellFormed(c) && (c.Insert? || c.Delete?) && (first || !Leftmost(c))
    ensures var m, m' := Content(c.child, first), Content(c, first);
            m' == if c.Insert? then m[c.item.key := c.item.value] else m - {c.item.key}
  {
    forall k
      ensures k == c.item.key ==>
        LeafChains.Lookup(Content(c, first), k) == if c.Insert? then Some(c.item.value) else None
      ensures k != c.item.key ==>
        LeafChains.Lookup(Content(c, first), k) == LeafChains.Lookup(Content(c.child, first), k)
    {
      ContentDelta(c, first, k);
    }
    hide Content;
    var m, m' := Content(c.child, first), Content(c, first);
    var r := if c.Insert? then m[c.item.key := c.item.value] else m - {c.item.key};
    forall k
      ensures k in r <==> k in m'
      ensures k in r ==> r[k] == m'[k]
    {
      assert LeafChains.Lookup(m', k) == if k == c.item.key then
        (if c.Insert? then Some(c.item.value) else None) else LeafChains.Lookup(m, k);
    }
  }

  lemma OverrideJoined(m: map<Key, NodeId>, m': map<Key, NodeId>, d: Pending, high: KeyNodeId, p: PendingMap)
    requires LeafChains.BelowHigh(d.key, high)
    requires m' == if d.value.value.Some? then m[d.key := d.value.value.value] else m - {d.key}
    ensures Override(LeafChains.Under(m', high), LeafChains.Under(p, high)) ==
            Override(LeafChains.Under(m, high), LeafChains.Under(Joined(p, d), high))
  {
    var u, v := Override(LeafChains.Under(m', high), LeafChains.Under(p, high)),
        Override(LeafChains.Under(m, high), LeafChains.Under(Joined(p, d), high));
    forall k
      ensures k in u <==> k in v
      ensures k in u ==> u[k] == v[k]
    {
    }
  }

  ghost function Size(c: Inner): nat {
    match c
    case Base(_, _, _, _, _) => 0
    case Merged(_, right, child) => 1 + Size(child) + Size(right)
    case _ => 1 + Size(c.child)
  }

  /** `lowId` tells the first branch of a merged node from the others. */
  ghost predicate Branch(c: Inner, first: bool, lowId: NodeId) {
    if first then Low(c).value == lowId else !Leftmost(c) && lowId !in LowIds(c)
  }

  /** Where the walk down a chain stands. */
  ghost predicate Progress(c: Inner, first: bool, lowId: NodeId, high: KeyNodeId, p0: PendingMap, node: Inner,
      p: PendingMap) {
    && WellFormed(node) && Branch(node, first, lowId) && Size(node) <= Size(c) && (node.Base? || High(node) == high)
    && (!Leftmost(node) && high.value != INVALID_NODE_ID ==> Low(node).key < high.key)
    && Outcome(node, first, high, p) == Outcome(c, first, high, p0)
    && LC.Beyond(p, high) == LC.Beyond(p0, high)
  }

  lemma ProgressInit(c: Inner, first: bool, lowId: NodeId, p: PendingMap)
    requires WellFormed(c) && Branch(c, first, lowId)
    ensures Progress(c, first, lowId, High(c), p, c, p)
  {
    ProperRange(c);
  }

  lemma ProgressDelta(c: Inner, first: bool, lowId: NodeId, high: KeyNodeId, p0: PendingMap, node: Inner, p: PendingMap)
    requires Progress(c, first, lowId, high, p0, node, p) && (node.Insert? || node.Delete?)
    ensures Progress(c, first, lowId, high, p0, node.child, Joined(p, ChangeOf(node)))
  {
    hide Content, Seps, IsNext, IsPrev, PlaceIn, LeafChains.Under, Override;
    var d := ChangeOf(node);
    DeltaBelow(node);
    DeltaContent(node, first);
    OverrideJoined(Content(node.child, first), Content(node, first), d, high, p);
    if d.key !in p { LC.BeyondKept(p, high, d); }
  }

  lemma DeltaBelow(c: Inner)
    requires WellFormed(c) && (c.Insert? || c.Delete?)
    ensures LeafChains.BelowHigh(c.item.key, High(c)) && WellFormed(c.child)
  {
    SepsInRange(c.child);
  }

  lemma ProgressSplit(c: Inner, first: bool, lowId: NodeId, high: KeyNodeId, p0: PendingMap, node: Inner, p: PendingMap)
    requires Progress(c, first, lowId, high, p0, node, p) && node.Split?
    ensures Progress(c, first, lowId, high, p0, node.child, p)
  {
    SplitContent(node, first, high);
  }

  lemma SplitContent(node: Inner, first: bool, high: KeyNodeId)
    requires WellFormed(node) && node.Split? && High(node) == high
    requires first || (!Leftmost(node) && (high.value != INVALID_NODE_ID ==> Low(node).key < high.key))
    ensures LeafChains.Under(Content(node, first), high) == LeafChains.Under(Content(node.child, first), high)
  {
    FullIs(node);
    FullIs(node.child);
    assert Seps(node) == LeafChains.Under(Seps(node.child), high);
  }

  lemma ProgressSides(c: Inner, first: bool, lowId: NodeId, high: KeyNodeId, p0: PendingMap, node: Inner, p: PendingMap)
    requires Progress(c, first, lowId, high, p0, node, p) && node.Merged?
    ensures WellFormed(node.child) && WellFormed(node.right) && High(node.right) == high
    ensures Branch(node.child, first, lowId) && Branch(node.right, false, lowId)
    ensures Size(node.child) < Size(node) && Size(node.right) < Size(node)
    ensures Depth(node) == Depth(node.child) + Depth(node.right)
  {
  }

  /** The two sides of a merge as contents of one node. */
  lemma MergedContent(c: Inner, first: bool)
    requires WellFormed(c) && c.Merged? && (first || !Leftmost(c))
    ensures Content(c, first) == Content(c.child, first) + Full(c.right)
    ensures forall k :: k in Content(c.child, first) ==> k < c.deleteItem.key
    ensures forall k :: k in Full(c.right) ==> c.deleteItem.key <= k
  {
    MergedSides(c);
    ProperRange(c.child);
    assert Seps(c) == Seps(c.child) + Full(c.right);
    if !first {
      LowBelowMerge(c);
      hide Seps, WellFormed;
      UpdateUnion(Seps(c.child), Full(c.right), Low(c).key, Low(c).value);
      assert Content(c, first) == Seps(c)[Low(c).key := Low(c).value];
      assert Content(c.child, first) == Seps(c.child)[Low(c).key := Low(c).value];
    }
  }

  lemma LowBelowMerge(c: Inner)
    requires WellFormed(c) && c.Merged? && !Leftmost(c)
    ensures Low(c).key < c.deleteItem.key
  {
    ProperRange(c.child);
  }

  lemma UpdateUnion<T>(a: map<Key, T>, b: map<Key, T>, k: Key, v: T)
    requires k !in b
    ensures (a + b)[k := v] == a[k := v] + b
  {
  }

  lemma OutcomeSides(c: Inner, first: bool, p: PendingMap)
    requires WellFormed(c) && c.Merged? && (first || !Leftmost(c))
    ensures var mid := High(c.child);
            && Outcome(c.child, first, mid, p) + Outcome(c.right, false, High(c), LC.Beyond(p, mid)) ==
                Outcome(c, first, High(c), p)
            && (forall k :: k in Outcome(c.child, first, mid, p) ==> k < mid.key)
            && (forall k :: k in Outcome(c.right, false, High(c), LC.Beyond(p, mid)) ==> mid.key <= k)
            && LC.Beyond(LC.Beyond(p, mid), High(c)) == LC.Beyond(p, High(c))
  {
    MergedContent(c, first);
    ProperRange(c.right);
    var mid, high := High(c.child), High(c);
    var l, r := Content(c.child, first), Full(c.right);
    assert Content(c.right, false) == r;
    hide Content, Full, WellFormed;
    LC.UnderParts(l, r, p, mid, high);
    LC.BeyondTwice(p, mid, high);
    LC.OverrideUnion(l, LeafChains.Under(r, high), LeafChains.Under(p, mid),
        LeafChains.Under(LC.Beyond(p, mid), high), mid.key);
  }

  lemma ProgressMerge(c: Inner, first: bool, lowId: NodeId, high: KeyNodeId, p0: PendingMap, node: Inner, p: PendingMap,
                      left: seq<KeyNodeId>, right: seq<KeyNodeId>)
    requires Progress(c, first, lowId, high, p0, node, p) && node.Merged?
    requires Sorted(left) && MapOf(left) == Outcome(node.child, first, High(node.child), p)
    requires Sorted(right) && MapOf(right) == Outcome(node.right, false, high, LC.Beyond(p, High(node.child)))
    ensures Sorted(left + right) && MapOf(left + right) == Outcome(c, first, high, p0)
    ensures LC.Beyond(LC.Beyond(p, High(node.child)), high) == LC.Beyond(p0, high)
  {
    OutcomeSides(node, first, p);
    hide Outcome, LC.Beyond, WellFormed, Content;
    forall i, j | 0 <= i < |left| && 0 <= j < |right|
      ensures left[i].key < right[j].key
    {
      MapOfAt(left, i);
      MapOfAt(right, j);
    }
    MapOfConcat(left, right);
  }

  /** Merges the array entries `[from, to)` with the records in slots `[start, e)`. */
  method MergeInto(items: seq<KeyNodeId>, from: nat, to: nat, sss: SortedSmallSet<Pending>, e: nat, out: seq<KeyNodeId>,
                   ghost s: seq<Pending>, ghost beyond: seq<Pending>)
    returns (r: seq<KeyNodeId>)
    requires from <= to <= |items| && sss.Valid() && sss.contents == s + beyond && e == sss.start + |s|
    modifies sss`start, sss`contents
    ensures sss.Valid() && sss.contents == beyond
    ensures r == out + MergeChanges(items[from..to], s)
  {
    hide MergeChanges, Written;
    var copyStart := from;
    ghost var t := s;
    r := out;
    while true
      invariant sss.Valid() && sss.contents == t + beyond && e == sss.start + |t| && from <= copyStart <= to
      invariant r + MergeChanges(items[copyStart..to], t) == out + MergeChanges(items[from..to], s)
      decreases |t| + to - copyStart
    {
      MergeStep(items[copyStart..to], t, r);
      if sss.start == e {
        r := r + items[copyStart..to];
        return;
      }
      var front := sss.GetFront();
      if copyStart < to && items[copyStart].key < front.key {
        assert items[copyStart..to][1..] == items[copyStart + 1..to];
        r := r + [items[copyStart]];
        copyStart := copyStart + 1;
      } else {
        if copyStart < to && front.key == items[copyStart].key {
          assert items[copyStart..to][1..] == items[copyStart + 1..to];
          copyStart := copyStart + 1;
        }
        r := r + Written(front);
        var _ := sss.PopFront();
        t := t[1..];
      }
    }
  }

  /** What comes next out of the merge of an array and the pending records. */
  lemma MergeStep(a: seq<KeyNodeId>, t: seq<Pending>, r: seq<KeyNodeId>)
    ensures r + MergeChanges(a, t) ==
      if t == [] then r + a
      else if a != [] && a[0].key < t[0].key then r + [a[0]] + MergeChanges(a[1..], t)
      else if a != [] && a[0].key == t[0].key then r + Written(t[0]) + MergeChanges(a[1..], t[1..])
      else r + Written(t[0]) + MergeChanges(a, t[1..])
  {
  }

  lemma BaseArray(c: Inner, first: bool)
    requires c.Base? && WellFormed(c) && (first || !c.leftmost)
    ensures var a := c.items[if first then 1 else 0..]; Sorted(a) && MapOf(a) == Content(c, first)
  {
    FullIs(c);
    assert c.items[0..] == c.items;
  }

  lemma BasePiece(c: Inner, first: bool, high: KeyNodeId, s: seq<Pending>, from: nat, to: nat, n: nat)
    requires c.Base? && WellFormed(c) && (first || !c.leftmost) && Sorted(s) && n <= |s|
    requires from == (if first then 1 else 0) && from <= to <= |c.items|
    requires forall i :: from <= i < |c.items| ==> (i < to <==> LeafChains.BelowHigh(c.items[i].key, high))
    requires forall i :: 0 <= i < |s| ==> (i < n <==> LeafChains.BelowHigh(s[i].key, high))
    ensures Sorted(MergeChanges(c.items[from..to], s[..n]))
    ensures MapOf(MergeChanges(c.items[from..to], s[..n])) == Outcome(c, first, high, MapOf(s))
    ensures Sorted(s[n..]) && MapOf(s[n..]) == LC.Beyond(MapOf(s), high)
  {
    hide Content, WellFormed, LeafChains.BelowHigh, Override, LeafChains.Under, LC.Beyond, Sorted;
    BaseArray(c, first);
    var a := c.items[from..];
    assert a[..to - from] == c.items[from..to];
    forall i | 0 <= i < |a|
      ensures i < to - from <==> LeafChains.BelowHigh(a[i].key, high)
    {
      assert a[i] == c.items[from + i];
    }
    PrefixMerge(a, s, to - from, n, high);
  }

  /** Merging the parts below a high key is overriding the parts of the maps below it. */
  lemma PrefixMerge(a: seq<KeyNodeId>, s: seq<Pending>, m: nat, n: nat, high: KeyNodeId)
    requires Sorted(a) && Sorted(s) && m <= |a| && n <= |s|
    requires forall i :: 0 <= i < |a| ==> (i < m <==> LeafChains.BelowHigh(a[i].key, high))
    requires forall i :: 0 <= i < |s| ==> (i < n <==> LeafChains.BelowHigh(s[i].key, high))
    ensures Sorted(MergeChanges(a[..m], s[..n]))
    ensures MapOf(MergeChanges(a[..m], s[..n])) ==
      Override(LeafChains.Under(MapOf(a), high), LeafChains.Under(MapOf(s), high))
    ensures Sorted(s[n..]) && MapOf(s[n..]) == LC.Beyond(MapOf(s), high)
  {
    hide LeafChains.BelowHigh, Override, LeafChains.Under, LC.Beyond;
    LC.PrefixUnder(a, m, high);
    LC.PrefixUnder(s, n, high);
    MergeCorrect(a[..m], s[..n]);
  }

  /** The base case: everything pending below `high` is replayed over this node. */
  method CollectBase(c: Inner, ghost first: bool, lowId: NodeId, high: KeyNodeId, sss: SortedSmallSet<Pending>,
      out: seq<KeyNodeId>)
    returns (r: seq<KeyNodeId>, ghost piece: seq<KeyNodeId>)
    requires c.Base? && WellFormed(c) && Branch(c, first, lowId) && sss.Valid() && Sorted(sss.contents)
    requires !c.leftmost && high.value != INVALID_NODE_ID ==> c.low.key < high.key
    modifies sss`start, sss`contents
    ensures sss.Valid()
    ensures Sorted(sss.contents) && MapOf(sss.contents) == LC.Beyond(MapOf(old(sss.contents)), high)
    ensures r == out + piece && Sorted(piece) && MapOf(piece) == Outcome(c, first, high, MapOf(old(sss.contents)))
  {
    hide MapOf, Outcome, LC.Beyond, MergeChanges;
    var copyEnd := if high.value == INVALID_NODE_ID then |c.items| else LowerBound(c.items, 1, |c.items|, high.key);
    var copyStart := if c.items[0].value == lowId then 1 else 0;
    var e := LC.EndBelow(high, sss);
    ghost var n := e - sss.start;
    ghost var s, beyond := sss.contents[..n], sss.contents[n..];
    BasePiece(c, first, high, sss.contents, copyStart, copyEnd, n);
    piece := MergeChanges(c.items[copyStart..copyEnd], s);
    assert sss.contents == s + beyond;
    r := MergeInto(c.items, copyStart, copyEnd, sss, e, out, s, beyond);
  }

  lemma JoinedSorted(less: (Pending, Pending) -> bool, eq: (Pending, Pending) -> bool, s: seq<Pending>, d: Pending)
    requires forall a: Pending, b: Pending :: less(a, b) == (a.key < b.key)
    requires forall a: Pending, b: Pending :: eq(a, b) == (a.key == b.key)
    requires Sorted(s)
    ensures Sorted(InsertFirst(less, eq, s, d)) && MapOf(InsertFirst(less, eq, s, d)) == Joined(MapOf(s), d)
  {
    InsertFirstSorted(less, eq, s, d);
  }

  ghost predicate KeySet(sss: SortedSmallSet<Pending>) {
    && (forall a: Pending, b: Pending :: sss.less(a, b) == (a.key < b.key))
    && (forall a: Pending, b: Pending :: sss.eq(a, b) == (a.key == b.key))
  }

  method CollectAllSepsOnInnerRecursive(c: Inner, ghost first: bool, lowId: NodeId, sss: SortedSmallSet<Pending>,
      out: seq<KeyNodeId>)
    returns (r: seq<KeyNodeId>, ghost piece: seq<KeyNodeId>)
    requires WellFormed(c) && Branch(c, first, lowId) && sss.Valid() && KeySet(sss) && Sorted(sss.contents)
    requires sss.end + Depth(c) <= sss.data.Length
    modifies sss, sss.data
    ensures sss.Valid() && sss.end <= old(sss.end) + Depth(c)
    ensures Sorted(sss.contents) && MapOf(sss.contents) == LC.Beyond(MapOf(old(sss.contents)), High(c))
    ensures r == out + piece && Sorted(piece) && MapOf(piece) == Outcome(c, first, High(c), MapOf(old(sss.contents)))
    decreases Size(c), 1
  {
    hide Progress, WellFormed, Branch, Outcome, LC.Beyond, MapOf, Sorted, High, Joined, LeafChains.BelowHigh;
    var high := High(c);
    var node := c;
    ghost var p0 := MapOf(sss.contents);
    ProgressInit(c, first, lowId, p0);
    while true
      invariant sss.Valid() && Sorted(sss.contents)
      invariant Progress(c, first, lowId, high, p0, node, MapOf(sss.contents))
      invariant sss.end + Depth(node) <= old(sss.end) + Depth(c)
      decreases Size(node)
    {
      match node
      case Base(_, _, _, _, _) =>
        ProgressBase(c, first, lowId, high, p0, node, MapOf(sss.contents));
        r, piece := CollectBase(node, first, lowId, high, sss, out);
        return;
      case Split(_, _, child) =>
        ProgressSplit(c, first, lowId, high, p0, node, MapOf(sss.contents));
        node := child;
      case Merged(_, _, _) =>
        r, piece := CollectMerged(c, first, lowId, high, p0, node, sss, out);
        return;
      case _ =>
        ProgressDelta(c, first, lowId, high, p0, node, MapOf(sss.contents));
        JoinedSorted(sss.less, sss.eq, sss.contents, ChangeOf(node));
        sss.Insert(ChangeOf(node));
        node := node.child;
    }
  }

  lemma ProgressBase(c: Inner, first: bool, lowId: NodeId, high: KeyNodeId, p0: PendingMap, node: Inner, p: PendingMap)
    requires Progress(c, first, lowId, high, p0, node, p) && node.Base?
    ensures WellFormed(node) && Branch(node, first, lowId)
    ensures !node.leftmost && high.value != INVALID_NODE_ID ==> node.low.key < high.key
    ensures Outcome(node, first, high, p) == Outcome(c, first, high, p0) && LC.Beyond(p, high) == LC.Beyond(p0, high)
  {
  }

  /** The two recursive calls on the sides of a merge node. */
  method CollectMerged(ghost c: Inner, ghost first: bool, lowId: NodeId, ghost high: KeyNodeId, ghost p0: PendingMap,
      node: Inner,
                       sss: SortedSmallSet<Pending>, out: seq<KeyNodeId>)
    returns (r: seq<KeyNodeId>, ghost piece: seq<KeyNodeId>)
    requires node.Merged? && sss.Valid() && KeySet(sss) && Sorted(sss.contents)
    requires Progress(c, first, lowId, high, p0, node, MapOf(sss.contents))
    requires sss.end + Depth(node) <= sss.data.Length
    modifies sss, sss.data
    ensures sss.Valid() && sss.end <= old(sss.end) + Depth(node)
    ensures Sorted(sss.contents) && MapOf(sss.contents) == LC.Beyond(p0, high)
    ensures r == out + piece && Sorted(piece) && MapOf(piece) == Outcome(c, first, high, p0)
    decreases Size(node), 0
  {
    hide Progress, WellFormed, Branch, Outcome, LC.Beyond, MapOf, Sorted, High, Depth, Size;
    ghost var p := MapOf(sss.contents);
    ProgressSides(c, first, lowId, high, p0, node, p);
    ghost var left, rest;
    r, left := CollectAllSepsOnInnerRecursive(node.child, first, lowId, sss, out);
    r, rest := CollectAllSepsOnInnerRecursive(node.right, false, lowId, sss, r);
    piece := left + rest;
    ProgressMerge(c, first, lowId, high, p0, node, p, left, rest);
  }

  /** Consolidation: one base node with the range of the chain, its low key pair first, then the
      live separators in key order, filling exactly as many entries as the item count says, found
      with a scratch array no longer than the chain's depth. */
  method CollectAllSepsOnInner(c: Inner, depth: nat) returns (inner: Inner)
    requires WellFormed(c)
    ensures inner.Base? && WellFormed(inner) && inner.depth == depth && inner.leftmost == Leftmost(c)
    ensures inner.low == Low(c) && inner.high == High(c) && inner.items[0] == Low(c)
    ensures Seps(inner) == Seps(c) && Sorted(inner.items[1..])
    ensures |inner.items| == ItemCount(c)
  {
    var data := new Pending[Depth(c)];
    var sss := new SortedSmallSet<Pending>(data, Ascending, SameKey);
    assert MapOf(sss.contents) == map[];
    var items, piece := CollectAllSepsOnInnerRecursive(c, true, Low(c).value, sss, [Low(c)]);
    inner := Base(Low(c), High(c), items, depth, Leftmost(c));
    ConsolidatedInner(c, piece, inner);
  }

  lemma ConsolidatedInner(c: Inner, piece: seq<KeyNodeId>, inner: Inner)
    requires WellFormed(c) && Sorted(piece) && MapOf(piece) == Outcome(c, true, High(c), map[])
    requires inner.Base? && inner.low == Low(c) && inner.high == High(c) && inner.leftmost == Leftmost(c)
    requires inner.items == [Low(c)] + piece
    ensures WellFormed(inner) && inner.items[1..] == piece && Seps(inner) == Seps(c) && |inner.items| == ItemCount(c)
  {
    assert inner.items[1..] == piece;
    SepsInRange(c);
    SameOutcome(c);
    LeafChains.MapOfSize(piece);
    ItemCountExact(c);
    hide Seps, Outcome;
    ConsolidatedRange(c, piece, inner);
  }

  lemma SameOutcome(c: Inner)
    requires AllInRange(c, Seps(c))
    ensures Outcome(c, true, High(c), map[]) == Seps(c)
  {
    hide Seps;
  }

  lemma ConsolidatedRange(c: Inner, piece: seq<KeyNodeId>, inner: Inner)
    requires WellFormed(c) && Sorted(piece) && AllInRange(c, MapOf(piece))
    requires inner.Base? && inner.low == Low(c) && inner.high == High(c) && inner.leftmost == Leftmost(c)
    requires inner.items == [Low(c)] + piece
    ensures WellFormed(inner)
  {
    ProperRange(c);
    MapOfAll(piece);
    hide MapOf;
    forall i | 1 <= i < |inner.items|
      ensures inner.items[i] == piece[i - 1] && OverLow(c, piece[i - 1].key)
      ensures LeafChains.BelowHigh(piece[i - 1].key, High(c))
    {
    }
  }

  /* The left sibling of a separator. */

  /** `id` is the child of the greatest separator strictly below `k`, or the low child. */
  ghost predicate IsLeft(m: map<Key, NodeId>, low: NodeId, k: Key, id: NodeId) {
    || (exists g :: g in m && g < k && m[g] == id && forall j :: j in m && j < k ==> j <= g)
    || (id == low && forall j :: j in m ==> k <= j)
  }

  ghost function Upto<T>(m: map<Key, T>, k: Key): map<Key, T> { map j | j in m && j <= k :: m[j] }

  ghost predicate Descends(s: seq<Pending>) { forall i, j :: 0 <= i < j < |s| ==> s[j].key < s[i].key }

  function Descending(a: Pending, b: Pending): bool { b.key < a.key }

  lemma {:induction false} MapOfMember<T>(s: seq<Pair<T>>, i: nat)
    requires i < |s|
    ensures s[i].key in MapOf(s)
  {
    if i > 0 { MapOfMember(s[1..], i - 1); }
  }

  lemma JoinedDescends(s: seq<Pending>, d: Pending)
    requires Descends(s)
    ensures var r := InsertFirst(Descending, SameKey, s, d); Descends(r) && MapOf(r) == Joined(MapOf(s), d)
  {
    hide MapOf;
    var p := FirstNotLess(Descending, s, d);
    if p < |s| && s[p].key == d.key {
      MapOfMember(s, p);
    } else {
      if d.key in MapOf(s) {
        var i := MapOfIndex(s, d.key);
        assert false;
      }
      MapOfInsert(s, p, d);
    }
  }

  /* One step of reading the live separators downwards: from the array, whose greatest entry is
     `g`, or from the pending records, whose greatest one is for `f`. */

  ghost predicate Below<T>(m: map<Key, T>, k: Key) { forall j :: j in m ==> j < k }

  ghost predicate Greatest(m: map<Key, NodeId>, k: Key, id: NodeId, rest: map<Key, NodeId>) {
    k in m && m[k] == id && rest == m - {k} && forall j :: j in m ==> j <= k
  }

  lemma TakeEntry(m: map<Key, NodeId>, g: Key, id: NodeId, p: PendingMap)
    requires Below(m, g) && Below(p, g)
    ensures Greatest(Override(m[g := id], p), g, id, Override(m, p))
  {
  }

  lemma TakeRecord(m: map<Key, NodeId>, f: Key, ch: Change<NodeId, ()>, p: PendingMap)
    requires Below(m, f) && Below(p, f)
    ensures ch.value.Some? ==> Greatest(Override(m, p[f := ch]), f, ch.value.value, Override(m, p))
    ensures ch.value.None? ==> Override(m, p[f := ch]) == Override(m, p)
  {
  }

  lemma TakeBoth(m: map<Key, NodeId>, f: Key, id: NodeId, ch: Change<NodeId, ()>, p: PendingMap)
    requires Below(m, f) && Below(p, f)
    ensures ch.value.Some? ==> Greatest(Override(m[f := id], p[f := ch]), f, ch.value.value, Override(m, p))
    ensures ch.value.None? ==> Override(m[f := id], p[f := ch]) == Override(m, p)
  {
  }

  lemma LastEntry(items: seq<KeyNodeId>, i: nat)
    requires 1 <= i < |items| && SortedIn(items, 1, |items|)
    ensures MapOf(items[1..i + 1]) == MapOf(items[1..i])[items[i].key := items[i].value]
    ensures Below(MapOf(items[1..i]), items[i].key)
  {
    var a := items[1..i];
    var one: seq<KeyNodeId> := [items[i]];
    assert items[1..i + 1] == a + one;
    MapOfAppend(a, one);
    assert one[1..] == [] && MapOf(one) == map[items[i].key := items[i].value];
    if a != [] { MapOfAtMost(a, items[i - 1].key); }
  }

  lemma FirstRecord(s: seq<Pending>)
    requires s != [] && Descends(s)
    ensures MapOf(s) == MapOf(s[1..])[s[0].key := s[0].value] && Below(MapOf(s[1..]), s[0].key)
  {
    if s[1..] != [] { MapOfAtMost(s[1..], s[1].key); }
  }

  /** What is left to read: the entries up to `i` with the records applied. */
  ghost function Rest(items: seq<KeyNodeId>, i: nat, s: seq<Pending>): map<Key, NodeId>
    requires i < |items|
  {
    Override(MapOf(items[1..i + 1]), MapOf(s))
  }

  /** After `counter` separators have been read off `all`, from `key` down. */
  ghost predicate Read(all: map<Key, NodeId>, key: Key, counter: nat, rest: map<Key, NodeId>) {
    && key in all && (forall j :: j in all ==> j <= key)
    && (counter == 0 ==> rest == all) && (counter == 1 ==> rest == all - {key})
  }

  lemma ReadNext(all: map<Key, NodeId>, low: NodeId, key: Key, counter: nat, m: map<Key, NodeId>, g: Key, id: NodeId,
      rest: map<Key, NodeId>)
    requires counter < 2 && Read(all, key, counter, m) && Greatest(m, g, id, rest)
    ensures Read(all, key, counter + 1, rest)
    ensures counter == 1 ==> IsLeft(all, low, key, id)
  {
    if counter == 0 {
      assert key in m && g in all;
    } else {
      assert g in all && g != key;
      forall j | j in all && j < key
        ensures j <= g
      {
        assert j in all - {key};
      }
    }
  }

  lemma ReadLow(all: map<Key, NodeId>, low: NodeId, key: Key, counter: nat)
    requires counter < 2 && Read(all, key, counter, map[])
    ensures counter == 1 && IsLeft(all, low, key, low)
  {
    assert counter == 1 ==> forall j :: j in all && j != key ==> j in all - {key};
  }

  /** Reads two live separators downwards from the base node and the records: the second one, or
      the low child, is on the left of `key`. */
  method ReadTwo(items: seq<KeyNodeId>, key: Key, sss: SortedSmallSet<Pending>, ghost all: map<Key, NodeId>)
    returns (left: NodeId)
    requires items != [] && SortedIn(items, 1, |items|) && sss.Valid() && Descends(sss.contents)
    requires Read(all, key, 0, Override(Upto(MapOf(items[1..]), key), MapOf(sss.contents)))
    modifies sss`start, sss`contents
    ensures IsLeft(all, items[0].value, key, left)
  {
    hide MapOf, Override, Read, IsLeft, Greatest, Below, Upto, Descends;
    var index: int := UpperBound(items, 1, |items|, key) - 1;
    UptoArray(items, key, index);
    var counter := 0;
    left := 0;
    while counter < 2
      invariant sss.Valid() && Descends(sss.contents) && 0 <= counter <= 2
      invariant counter < 2 ==> 0 <= index < |items| && Read(all, key, counter, Rest(items, index, sss.contents))
      invariant counter == 2 ==> IsLeft(all, items[0].value, key, left)
      decreases |sss.contents| + index
    {
      ghost var s, rest := sss.contents, Rest(items, index, sss.contents);
      if sss.start == sss.end {
        left := items[index].value;
        if index == 0 {
          EmptyRest(items, s);
          ReadLow(all, left, key, counter);
        } else {
          EntryStep(items, index, s);
          ReadNext(all, items[0].value, key, counter, rest, items[index].key, left, Rest(items, index - 1, s));
        }
        index := index - 1;
        counter := counter + 1;
        continue;
      }
      var front := sss.GetFront();
      if index == 0 || items[index].key < front.key {
        RecordStep(items, index, s);
        if front.value.value.Some? {
          left := front.value.value.value;
          ReadNext(all, items[0].value, key, counter, rest, front.key, left, Rest(items, index, s[1..]));
          counter := counter + 1;
        }
        var _ := sss.PopFront();
      } else if front.key == items[index].key {
        BothStep(items, index, s);
        if front.value.value.Some? {
          left := front.value.value.value;
          ReadNext(all, items[0].value, key, counter, rest, front.key, left, Rest(items, index - 1, s[1..]));
          counter := counter + 1;
        }
        index := index - 1;
        var _ := sss.PopFront();
      } else {
        left := items[index].value;
        EntryStep(items, index, s);
        ReadNext(all, items[0].value, key, counter, rest, items[index].key, left, Rest(items, index - 1, s));
        index := index - 1;
        counter := counter + 1;
      }
    }
  }

  lemma UptoArray(items: seq<KeyNodeId>, key: Key, index: nat)
    requires items != [] && SortedIn(items, 1, |items|) && index + 1 == UpperBound(items, 1, |items|, key)
    ensures MapOf(items[1..index + 1]) == Upto(MapOf(items[1..]), key)
  {
    var a, b := items[1..index + 1], items[index + 1..];
    assert items[1..] == a + b;
    UptoConcat(a, b, key);
  }

  lemma UptoConcat<T>(a: seq<Pair<T>>, b: seq<Pair<T>>, key: Key)
    requires Sorted(a) && Sorted(b)
    requires (forall i :: 0 <= i < |a| ==> a[i].key <= key) && (forall i :: 0 <= i < |b| ==> key < b[i].key)
    ensures MapOf(a) == Upto(MapOf(a + b), key)
  {
    MapOfConcat(a, b);
    MapOfAtMost(a, key);
    MapOfAbove(b, key);
    UptoUnion(MapOf(a), MapOf(b), key);
  }

  lemma UptoUnion<T>(a: map<Key, T>, b: map<Key, T>, key: Key)
    requires (forall k :: k in a ==> k <= key) && (forall k :: k in b ==> key < k)
    ensures Upto(a + b, key) == a
  {
  }

  lemma EmptyRest(items: seq<KeyNodeId>, s: seq<Pending>)
    requires items != [] && s == []
    ensures Rest(items, 0, s) == map[]
  {
    assert items[1..1] == [];
  }

  lemma EntryStep(items: seq<KeyNodeId>, i: nat, s: seq<Pending>)
    requires 1 <= i < |items| && SortedIn(items, 1, |items|) && Descends(s) && (s != [] ==> s[0].key < items[i].key)
    ensures Greatest(Rest(items, i, s), items[i].key, items[i].value, Rest(items, i - 1, s))
  {
    LastEntry(items, i);
    if s != [] { FirstRecord(s); }
    TakeEntry(MapOf(items[1..i]), items[i].key, items[i].value, MapOf(s));
  }

  lemma RecordStep(items: seq<KeyNodeId>, i: nat, s: seq<Pending>)
    requires i < |items| && SortedIn(items, 1, |items|) && Descends(s) && s != [] && (i == 0 || items[i].key < s[0].key)
    ensures s[0].value.value.Some? ==>
      Greatest(Rest(items, i, s), s[0].key, s[0].value.value.value, Rest(items, i, s[1..]))
    ensures s[0].value.value.None? ==> Rest(items, i, s) == Rest(items, i, s[1..])
    ensures Descends(s[1..])
  {
    FirstRecord(s);
    if i == 0 { assert items[1..1] == []; } else { LastEntry(items, i); }
    TakeRecord(MapOf(items[1..i + 1]), s[0].key, s[0].value, MapOf(s[1..]));
  }

  lemma BothStep(items: seq<KeyNodeId>, i: nat, s: seq<Pending>)
    requires 1 <= i < |items| && SortedIn(items, 1, |items|) && Descends(s) && s != [] && items[i].key == s[0].key
    ensures s[0].value.value.Some? ==>
      Greatest(Rest(items, i, s), s[0].key, s[0].value.value.value, Rest(items, i - 1, s[1..]))
    ensures s[0].value.value.None? ==> Rest(items, i, s) == Rest(items, i - 1, s[1..])
    ensures Descends(s[1..])
  {
    FirstRecord(s);
    LastEntry(items, i);
    TakeBoth(MapOf(items[1..i]), s[0].key, items[i].value, s[0].value, MapOf(s[1..]));
  }

  /** Where the walk down stands: the records collected make up for what is above `node`. */
  ghost predicate Walking(c: Inner, key: Key, node: Inner, p: PendingMap) {
    && WellFormed(node) && LeafChains.BelowHigh(key, High(node)) && Low(node).value == Low(c).value
    && Override(Upto(Seps(node), key), p) == Upto(Seps(c), key)
  }

  lemma UptoJoined(m: map<Key, NodeId>, m': map<Key, NodeId>, d: Pending, key: Key, p: PendingMap)
    requires m' == if d.value.value.Some? then m[d.key := d.value.value.value] else m - {d.key}
    ensures Override(Upto(m', key), p) == Override(Upto(m, key), if d.key <= key then Joined(p, d) else p)
  {
    var q := if d.key <= key then Joined(p, d) else p;
    var u, v := Override(Upto(m', key), p), Override(Upto(m, key), q);
    forall k
      ensures k in u <==> k in v
      ensures k in u ==> u[k] == v[k]
    {
    }
  }

  lemma WalkDelta(c: Inner, key: Key, node: Inner, p: PendingMap)
    requires Walking(c, key, node, p) && (node.Insert? || node.Delete?)
    ensures Walking(c, key, node.child, if node.item.key <= key then Joined(p, ChangeOf(node)) else p)
  {
    hide Override, Upto, Joined;
    UptoJoined(Seps(node.child), Seps(node), ChangeOf(node), key, p);
  }

  lemma SplitUpto(node: Inner, key: Key)
    requires WellFormed(node) && node.Split? && LeafChains.BelowHigh(key, High(node))
    ensures WellFormed(node.child) && LeafChains.BelowHigh(key, High(node.child)) && Low(node.child) == Low(node)
    ensures Upto(Seps(node), key) == Upto(Seps(node.child), key)
  {
  }

  lemma WalkSplit(c: Inner, key: Key, node: Inner, p: PendingMap)
    requires Walking(c, key, node, p) && node.Split?
    ensures Walking(c, key, node.child, p)
  {
    hide WellFormed, Seps, Override, Upto, High, Low;
    SplitUpto(node, key);
  }

  /** The left sibling of the child of a live separator. */
  method FindLeftSibling(c: Inner, key: Key) returns (left: NodeId)
    requires WellFormed(c) && LeafChains.BelowHigh(key, High(c)) && key in Seps(c)
    ensures IsLeft(Seps(c), Low(c).value, key, left)
  {
    hide WellFormed, Seps, Walking, IsLeft, Read, Upto, MapOf, Override, Joined;
    var data := new Pending[Depth(c)];
    var sss := new SortedSmallSet<Pending>(data, Descending, SameKey);
    var node := c;
    WalkInit(c, key, c, sss.contents);
    while true
      invariant sss.Valid() && sss.start == 0 && fresh(sss) && fresh(sss.data) && Descends(sss.contents)
      invariant sss.less == Descending && sss.eq == SameKey
      invariant Walking(c, key, node, MapOf(sss.contents))
      invariant node.Base? || sss.end + Depth(node) <= sss.data.Length
      decreases Size(node)
    {
      match node
      case Base(_, _, items, _, _) =>
        WalkBase(c, key, node, sss.contents);
        left := ReadTwo(items, key, sss, Upto(Seps(c), key));
        LeftOfAll(Seps(c), Low(c).value, key, left);
        return;
      case Split(_, _, child) =>
        WalkSplit(c, key, node, MapOf(sss.contents));
        node := child;
      case Merged(_, _, _) =>
        node := CollectAllSepsOnInner(c, Depth(c) + 1);
        sss.Invalidate();
        WalkInit(c, key, node, sss.contents);
      case _ =>
        WalkDelta(c, key, node, MapOf(sss.contents));
        if node.item.key <= key {
          JoinedDescends(sss.contents, ChangeOf(node));
          sss.Insert(ChangeOf(node));
        }
        node := node.child;
    }
  }

  lemma WalkInit(c: Inner, key: Key, node: Inner, s: seq<Pending>)
    requires WellFormed(node) && LeafChains.BelowHigh(key, High(node)) && Low(node).value == Low(c).value
    requires Seps(node) == Seps(c) && s == []
    ensures Walking(c, key, node, MapOf(s)) && Descends(s)
  {
    assert Override(Upto(Seps(c), key), MapOf(s)) == Upto(Seps(c), key);
  }

  lemma WalkBase(c: Inner, key: Key, node: Inner, s: seq<Pending>)
    requires Walking(c, key, node, MapOf(s)) && node.Base? && key in Seps(c)
    ensures node.items != [] && SortedIn(node.items, 1, |node.items|) && node.items[0].value == Low(c).value
    ensures Read(Upto(Seps(c), key), key, 0, Override(Upto(MapOf(node.items[1..]), key), MapOf(s)))
  {
  }

  lemma LeftOfAll(m: map<Key, NodeId>, low: NodeId, key: Key, id: NodeId)
    requires IsLeft(Upto(m, key), low, key, id)
    ensures IsLeft(m, low, key, id)
  {
    var u := Upto(m, key);
    assert forall j :: j in u <==> j in m && j <= key;
  }
}
