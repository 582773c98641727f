/** Consolidation of a leaf delta chain into one base leaf. */
module LeafConsolidation {
  import opened Options
  import opened Ordered
  import opened SortedSmallSets
  import opened BloomFilters
  import opened LeafChains

  type Pending = Pair<Change<Value, IndexPair>>

  /** Replay order of pending records: by key, then by position in the base leaf. */
  function PendingLess(a: Pending, b: Pending): bool {
    a.key < b.key || (a.key == b.key && a.value.hint.first < b.value.hint.first)
  }

  /** Every pending record knows its exact place in `a`. */
  ghost predicate Hinted(a: seq<Item>, s: seq<Pending>) {
    forall i :: 0 <= i < |s| ==> IsHint(a, s[i].key, s[i].value.hint)
  }

  /** No record is placed before position `at`. */
  ghost predicate NotBefore(s: seq<Pending>, at: nat) {
    forall i :: 0 <= i < |s| ==> at <= s[i].value.hint.first
  }

  /** Records are placed in key order, and strictly after a base item they overwrite. */
  lemma PlacesAscend(a: seq<Item>, s: seq<Pending>)
    requires s != [] && Sorted(a) && Sorted(s) && Hinted(a, s)
    ensures NotBefore(s, s[0].value.hint.first)
    ensures s[0].value.hint.second ==> NotBefore(s[1..], s[0].value.hint.first + 1)
  {
    assert IsHint(a, s[0].key, s[0].value.hint);
    forall i | 0 < i < |s|
      ensures s[0].value.hint.first <= s[i].value.hint.first
      ensures s[0].value.hint.second ==> s[0].value.hint.first < s[i].value.hint.first
    {
      var h := s[i].value.hint.first;
      assert IsHint(a, s[i].key, s[i].value.hint);
      if h < |a| { assert s[0].key < s[i].key <= a[h].key; }
    }
  }

  lemma MergeHead(a: seq<Item>, s: seq<Pending>, at: nat)
    requires s != [] && IsHint(a, s[0].key, s[0].value.hint) && at == s[0].value.hint.first
    ensures MergeChanges(a[at..], s) ==
      Written(s[0]) + MergeChanges(a[if s[0].value.hint.second then at + 1 else at..], s[1..])
  {
    if s[0].value.hint.second { assert a[at..][1..] == a[at + 1..]; }
  }

  /** Draining the first record when its place is `at`. */
  lemma DrainStep(a: seq<Item>, s: seq<Pending>, at: nat, r: seq<Item>)
    requires s != [] && Sorted(a) && Sorted(s) && Hinted(a, s) && at == s[0].value.hint.first
    ensures var next := if s[0].value.hint.second then at + 1 else at;
            && next <= |a| && NotBefore(s[1..], next)
            && r + MergeChanges(a[at..], s) == r + Written(s[0]) + MergeChanges(a[next..], s[1..])
  {
    hide MergeChanges, Written, Sorted;
    assert IsHint(a, s[0].key, s[0].value.hint);
    PlacesAscend(a, s);
    MergeHead(a, s, at);
  }

  /** The part of the set below `high` ends at slot `e`. */
  method EndBelow<T>(high: KeyNodeId, sss: SortedSmallSet<Pair<T>>) returns (e: nat)
    requires sss.Valid() && Sorted(sss.contents)
    ensures sss.start <= e <= sss.end
    ensures forall i :: 0 <= i < |sss.contents| ==> (i < e - sss.start <==> BelowHigh(sss.contents[i].key, high))
  {
    var it := sss.end - 1;
    if high.value != INVALID_NODE_ID {
      while it >= sss.start
        invariant sss.start - 1 <= it < sss.end
        invariant forall i :: it - sss.start < i < |sss.contents| ==> !BelowHigh(sss.contents[i].key, high)
      {
        var d := sss.At(it);
        if d.key < high.key { break; }
        it := it - 1;
      }
    }
    e := it + 1;
  }

  /** Drains the records placed at `at`; `next` is the first base position not yet used. */
  method DrainIndex(a: seq<Item>, sss: SortedSmallSet<Pending>, e: nat, at: nat, out: seq<Item>,
                    ghost s: seq<Pending>, ghost beyond: seq<Pending>)
    returns (r: seq<Item>, next: nat, ghost t: seq<Pending>)
    requires sss.Valid() && sss.contents == s + beyond && e == sss.start + |s|
    requires Sorted(a) && Sorted(s) && Hinted(a, s) && NotBefore(s, at) && s != [] && at == s[0].value.hint.first
    modifies sss`start, sss`contents
    ensures sss.Valid() && sss.contents == t + beyond && e == sss.start + |t|
    ensures next <= |a| && |t| < |s| && Sorted(t) && Hinted(a, t) && NotBefore(t, next)
    ensures r + MergeChanges(a[next..], t) == out + MergeChanges(a[at..], s)
  {
    hide MergeChanges;
    hide Written;
    t, r, next := s, out, at;
    while true
      invariant sss.Valid() && sss.contents == t + beyond && e == sss.start + |t|
      invariant next <= |a| && Sorted(t) && Hinted(a, t) && NotBefore(t, next)
      invariant next == at || t == [] || at < t[0].value.hint.first
      invariant |t| < |s| || (t == s && next == at)
      invariant r + MergeChanges(a[next..], t) == out + MergeChanges(a[at..], s)
      decreases |t|
    {
      if sss.start == e { break; }
      var front := sss.GetFront();
      if front.value.hint.first != at { break; }
      DrainStep(a, t, at, r);
      var d := sss.PopFront();
      if d.value.hint.second {
        next := at + 1;
      }
      r := r + Written(d);
      t := t[1..];
    }
  }

  /** Replays the records in slots `[start, e)` over `a`, position by position. */
  method DrainBase(a: seq<Item>, sss: SortedSmallSet<Pending>, e: nat, out: seq<Item>,
                   ghost s: seq<Pending>, ghost beyond: seq<Pending>)
    returns (r: seq<Item>)
    requires sss.Valid() && sss.contents == s + beyond && e == sss.start + |s|
    requires Sorted(a) && Sorted(s) && Hinted(a, s)
    modifies sss`start, sss`contents
    ensures sss.Valid() && sss.contents == beyond
    ensures r == out + MergeChanges(a, s)
  {
    ghost var t := s;
    r := out;
    var copyStart: nat := 0;
    assert a[copyStart..] == a;
    while sss.start != e
      invariant sss.Valid() && sss.contents == t + beyond && e == sss.start + |t|
      invariant copyStart <= |a| && Sorted(t) && Hinted(a, t) && NotBefore(t, copyStart)
      invariant r + MergeChanges(a[copyStart..], t) == out + MergeChanges(a, s)
      decreases |t|
    {
      var front := sss.GetFront();
      var current := front.value.hint.first;
      CopyStep(a, t, copyStart, r);
      r := r + a[copyStart..current];
      r, copyStart, t := DrainIndex(a, sss, e, current, r, t, beyond);
    }
    r := r + a[copyStart..];
  }

  /** Copying the base items placed before the first record. */
  lemma CopyStep(a: seq<Item>, s: seq<Pending>, from: nat, r: seq<Item>)
    requires s != [] && Sorted(a) && Sorted(s) && Hinted(a, s) && NotBefore(s, from)
    ensures var at := s[0].value.hint.first;
            && from <= at <= |a| && NotBefore(s, at)
            && r + MergeChanges(a[from..], s) == r + a[from..at] + MergeChanges(a[at..], s)
  {
    hide MergeChanges;
    var at := s[0].value.hint.first;
    assert IsHint(a, s[0].key, s[0].value.hint);
    PlacesAscend(a, s);
    MergeCopies(a[from..], s, at - from);
    assert a[from..][..at - from] == a[from..at];
    assert a[from..][at - from..] == a[at..];
  }

  /* How one record of the chain joins the pending ones. */

  ghost function Beyond<T>(m: map<Key, T>, high: KeyNodeId): map<Key, T> {
    map k | k in m && !BelowHigh(k, high) :: m[k]
  }

  function ChangeOf(op: DataOp, item: Item, index: IndexPair): Pending {
    Pair(item.key, Change(if op.DeleteOp? then None else Some(item.value), index))
  }

  type PendingMap = map<Key, Change<Value, IndexPair>>

  /** What the records above still have to do to the part of `c` below `high`. */
  ghost function Outcome(c: Leaf, high: KeyNodeId, p: PendingMap): map<Key, Value> {
    Override(Under(Contents(c), high), Under(p, high))
  }

  lemma DataShadowed(c: Leaf, high: KeyNodeId, p: PendingMap)
    requires c.Data? && c.item.key in p && BelowHigh(c.item.key, high)
    ensures Outcome(c, high, p) == Outcome(c.child, high, p)
  {
  }

  lemma DataPending(c: Leaf, high: KeyNodeId, p: PendingMap)
    requires c.Data? && c.item.key !in p && BelowHigh(c.item.key, high)
    ensures Outcome(c, high, p) == Outcome(c.child, high, p[c.item.key := ChangeOf(c.op, c.item, c.index).value])
  {
    var k, ch := c.item.key, ChangeOf(c.op, c.item, c.index).value;
    var m, u := Under(Contents(c.child), high), Under(p, high);
    assert Under(p[k := ch], high) == u[k := ch];
    OverrideChange(m, u, k, ch);
    if c.op.DeleteOp? {
      assert Under(Contents(c), high) == m - {k};
    } else {
      assert Under(Contents(c), high) == (m - {k})[k := c.item.value];
      OverrideEntry(m - {k}, u, k, c.item.value);
    }
  }

  lemma BeyondKept<T>(p: map<Key, T>, high: KeyNodeId, d: Pair<T>)
    requires BelowHigh(d.key, high)
    ensures Beyond(p[d.key := d.value], high) == Beyond(p, high)
  {
  }

  lemma {:induction false} MapOfUnder<T>(s: seq<Pair<T>>, high: KeyNodeId, below: bool)
    requires forall i :: 0 <= i < |s| ==> BelowHigh(s[i].key, high) == below
    ensures forall k :: k in MapOf(s) ==> BelowHigh(k, high) == below
  {
    if s != [] { MapOfUnder(s[1..], high, below); }
  }

  lemma UnionParts<T>(a: map<Key, T>, b: map<Key, T>, high: KeyNodeId)
    requires forall k :: k in a ==> BelowHigh(k, high)
    requires forall k :: k in b ==> !BelowHigh(k, high)
    ensures Under(a + b, high) == a && Beyond(a + b, high) == b
  {
  }

  lemma PrefixUnder<T>(s: seq<Pair<T>>, n: nat, high: KeyNodeId)
    requires Sorted(s) && n <= |s|
    requires forall i :: 0 <= i < |s| ==> (i < n <==> BelowHigh(s[i].key, high))
    ensures Sorted(s[..n]) && MapOf(s[..n]) == Under(MapOf(s), high)
    ensures Sorted(s[n..]) && MapOf(s[n..]) == Beyond(MapOf(s), high)
  {
    hide Under, Beyond, BelowHigh;
    assert s == s[..n] + s[n..];
    MapOfConcat(s[..n], s[n..]);
    MapOfUnder(s[..n], high, true);
    MapOfUnder(s[n..], high, false);
    UnionParts(MapOf(s[..n]), MapOf(s[n..]), high);
  }

  lemma HintPrefix(items: seq<Item>, ce: nat, k: Key, p: IndexPair)
    requires ce <= |items| && IsHint(items, k, p)
    requires forall i :: ce <= i < |items| ==> k < items[i].key
    ensures IsHint(items[..ce], k, p)
  {
    if ce < |items| { assert !(items[ce].key < k); }
  }

  /** Every pending record fits the chain, and a key not below the chain's low key
      has been seen exactly when a record for it is still pending. */
  ghost predicate Ready(c: Leaf, high: KeyNodeId, p: PendingMap, seen: set<Key>) {
    && (forall k :: k in p ==>
          AboveLow(k, Low(c)) && (BelowHigh(k, high) ==> IsHint(BaseFor(c, k).items, k, p[k].hint)))
    && (forall k :: AboveLow(k, Low(c)) ==> (k in seen <==> k in p))
  }

  lemma OutcomeRange(c: Leaf, p: PendingMap)
    requires WellFormed(c) && forall k :: k in p ==> AboveLow(k, Low(c))
    ensures forall k :: k in Outcome(c, High(c), p) ==> InRange(c, k)
  {
    ContentsInRange(c);
  }

  lemma OverrideUnion<T,
      H>(a: map<Key, T>, b: map<Key, T>, p: map<Key, Change<T, H>>, q: map<Key, Change<T, H>>, mid: Key)
    requires (forall k :: k in a ==> k < mid) && (forall k :: k in p ==> k < mid)
    requires (forall k :: k in b ==> mid <= k) && (forall k :: k in q ==> mid <= k)
    ensures Override(a, p) + Override(b, q) == Override(a + b, p + q)
  {
    var parts, whole := Override(a, p) + Override(b, q), Override(a + b, p + q);
    forall k
      ensures k in parts <==> k in whole
      ensures k in whole ==> parts[k] == whole[k]
    {
      if k < mid {
        assert k !in b && k !in q;
      } else {
        assert k !in a && k !in p;
      }
    }
  }

  lemma UnderParts<T, H>(a: map<Key, T>, b: map<Key, T>, p: map<Key, Change<T, H>>, mid: KeyNodeId, high: KeyNodeId)
    requires mid.value != INVALID_NODE_ID && (high.value != INVALID_NODE_ID ==> mid.key < high.key)
    requires forall k :: k in a ==> BelowHigh(k, mid)
    ensures Under(a, mid) == a
    ensures Under(a + b, high) == a + Under(b, high)
    ensures Under(p, high) == Under(p, mid) + Under(Beyond(p, mid), high)
  {
  }

  /** Replaying the left side and then the right side replays the merged node. */
  lemma MergeOutcome(c: Leaf, p: PendingMap)
    requires WellFormed(c) && c.Merged?
    ensures Outcome(c.child, High(c.child), p) + Outcome(c.right, High(c), Beyond(p, High(c.child))) ==
      Outcome(c, High(c), p)
  {
    ContentsInRange(c.child);
    ContentsInRange(c.right);
    ProperRange(c.right);
    forall k | k in Contents(c.right)
      ensures !BelowHigh(k, High(c.child))
    {
      assert InRange(c.right, k);
    }
    UnderParts(Contents(c.child), Contents(c.right), p, High(c.child), High(c));
    OverrideUnion(Contents(c.child), Under(Contents(c.right), High(c)), Under(p, High(c.child)),
                  Under(Beyond(p, High(c.child)), High(c)), High(c.child).key);
  }

  lemma BeyondTwice<T>(p: map<Key, T>, mid: KeyNodeId, high: KeyNodeId)
    requires mid.value != INVALID_NODE_ID && (high.value != INVALID_NODE_ID ==> mid.key < high.key)
    ensures Beyond(Beyond(p, mid), high) == Beyond(p, high)
  {
  }

  lemma LeftReady(c: Leaf, p: PendingMap, seen: set<Key>)
    requires WellFormed(c) && c.Merged? && Ready(c, High(c), p, seen)
    ensures Ready(c.child, High(c.child), p, seen)
  {
    ProperRange(c.right);
  }

  lemma RightReady(c: Leaf, p: PendingMap, seen: set<Key>, seen': set<Key>)
    requires WellFormed(c) && c.Merged? && Ready(c, High(c), p, seen)
    requires forall k :: !BelowHigh(k, High(c.child)) ==> (k in seen' <==> k in seen)
    ensures Ready(c.right, High(c), Beyond(p, High(c.child)), seen')
  {
    ProperRange(c.child);
    forall k | AboveLow(k, Low(c.right))
      ensures k in seen' <==> k in Beyond(p, High(c.child))
    {
      assert !BelowHigh(k, High(c.child)) && AboveLow(k, Low(c));
    }
  }

  ghost function Size(c: Leaf): nat {
    match c
    case Base(_, _, _) => 0
    case Merged(_, right, child) => 1 + Size(child) + Size(right)
    case _ => 1 + Size(c.child)
  }

  lemma BasePiece(c: Leaf, high: KeyNodeId, s: seq<Pending>, ce: nat, n: nat)
    requires c.Base? && WellFormed(c) && Sorted(s) && ce <= |c.items| && n <= |s|
    requires forall i :: 0 <= i < |c.items| ==> (i < ce <==> BelowHigh(c.items[i].key, high))
    requires forall i :: 0 <= i < |s| ==> (i < n <==> BelowHigh(s[i].key, high))
    requires forall k :: k in MapOf(s) && BelowHigh(k, high) ==> IsHint(c.items, k, MapOf(s)[k].hint)
    ensures Sorted(c.items[..ce]) && Sorted(s[..n]) && Hinted(c.items[..ce], s[..n])
    ensures Sorted(MergeChanges(c.items[..ce], s[..n]))
    ensures MapOf(MergeChanges(c.items[..ce], s[..n])) == Outcome(c, high, MapOf(s))
    ensures Sorted(s[n..]) && MapOf(s[n..]) == Beyond(MapOf(s), high)
  {
    forall i | 0 <= i < n
      ensures IsHint(c.items[..ce], s[i].key, s[i].value.hint)
    {
      MapOfAt(s, i);
      HintPrefix(c.items, ce, s[i].key, s[i].value.hint);
    }
    PrefixUnder(s, n, high);
    PrefixUnder(c.items, ce, high);
    MergeCorrect(c.items[..ce], s[..n]);
  }

  /** The base case: everything pending below `high` is replayed over this leaf. */
  method CollectBase(c: Leaf, high: KeyNodeId, sss: SortedSmallSet<Pending>, out: seq<Item>)
    returns (r: seq<Item>, ghost piece: seq<Item>)
    requires c.Base? && WellFormed(c) && sss.Valid() && Sorted(sss.contents)
    requires forall k :: k in MapOf(sss.contents) && BelowHigh(k, high) ==>
      IsHint(c.items, k, MapOf(sss.contents)[k].hint)
    modifies sss`start, sss`contents
    ensures sss.Valid()
    ensures Sorted(sss.contents) && MapOf(sss.contents) == Beyond(MapOf(old(sss.contents)), high)
    ensures r == out + piece && Sorted(piece) && MapOf(piece) == Outcome(c, high, MapOf(old(sss.contents)))
  {
    hide MapOf, Outcome, Beyond, MergeChanges, IsHint;
    var ce := if high.value == INVALID_NODE_ID then |c.items| else LowerBound(c.items, 0, |c.items|, high.key);
    var e := EndBelow(high, sss);
    ghost var n := e - sss.start;
    ghost var s, beyond := sss.contents[..n], sss.contents[n..];
    BasePiece(c, high, sss.contents, ce, n);
    piece := MergeChanges(c.items[..ce], s);
    assert sss.contents == s + beyond;
    r := DrainBase(c.items[..ce], sss, e, out, s, beyond);
  }

  /** Where the walk down a chain stands: `node` still to be read, `p` pending, `seen` the
      keys met so far, and the outcome for the whole chain unchanged. */
  ghost predicate Progress(c: Leaf, high: KeyNodeId, p0: PendingMap, seen0: set<Key>,
                           node: Leaf, p: PendingMap, seen: set<Key>) {
    && WellFormed(node) && Size(node) <= Size(c) && Low(node) == Low(c) && (node.Base? || High(node) == high)
    && Ready(node, high, p, seen)
    && Outcome(node, high, p) == Outcome(c, high, p0)
    && Beyond(p, high) == Beyond(p0, high)
    && forall k :: !BelowHigh(k, high) ==> (k in seen <==> k in seen0)
  }

  lemma ProgressInit(c: Leaf, p: PendingMap, seen: set<Key>)
    requires WellFormed(c) && Ready(c, High(c), p, seen)
    ensures Progress(c, High(c), p, seen, c, p, seen)
  {
  }

  lemma NoRemove(c: Leaf, high: KeyNodeId, p0: PendingMap, seen0: set<Key>,
                 node: Leaf, p: PendingMap, seen: set<Key>)
    requires Progress(c, high, p0, seen0, node, p, seen)
    ensures !node.Remove?
  {
  }

  lemma ReadyData(node: Leaf, high: KeyNodeId, p: PendingMap, seen: set<Key>)
    requires node.Data? && WellFormed(node) && Ready(node, high, p, seen)
    ensures node.item.key in seen <==> node.item.key in p
    ensures var d := ChangeOf(node.op, node.item, node.index);
            Ready(node.child, high, if d.key in p then p else p[d.key := d.value], seen + {d.key})
  {
    hide Contents;
  }

  lemma ProgressData(c: Leaf, high: KeyNodeId, p0: PendingMap, seen0: set<Key>,
                     node: Leaf, p: PendingMap, seen: set<Key>)
    requires Progress(c, high, p0, seen0, node, p, seen) && node.Data?
    ensures node.item.key in seen <==> node.item.key in p
    ensures var d := ChangeOf(node.op, node.item, node.index);
            Progress(c, high, p0, seen0, node.child, if d.key in p then p else p[d.key := d.value], seen + {d.key})
  {
    hide Ready, Outcome, Beyond, Contents, IsHint, BaseFor;
    var d := ChangeOf(node.op, node.item, node.index);
    ReadyData(node, high, p, seen);
    if d.key in p {
      DataShadowed(node, high, p);
    } else {
      DataPending(node, high, p);
      BeyondKept(p, high, d);
    }
  }

  lemma ProgressBase(c: Leaf, high: KeyNodeId, p0: PendingMap, seen0: set<Key>,
                     node: Leaf, p: PendingMap, seen: set<Key>)
    requires Progress(c, high, p0, seen0, node, p, seen) && node.Base?
    ensures WellFormed(node) && Outcome(node, high, p) == Outcome(c, high, p0) && Beyond(p, high) == Beyond(p0, high)
    ensures forall k :: k in p && BelowHigh(k, high) ==> IsHint(node.items, k, p[k].hint)
    ensures forall k :: !BelowHigh(k, high) ==> (k in seen <==> k in seen0)
  {
  }

  lemma ProgressSplit(c: Leaf, high: KeyNodeId, p0: PendingMap, seen0: set<Key>,
                      node: Leaf, p: PendingMap, seen: set<Key>)
    requires Progress(c, high, p0, seen0, node, p, seen) && node.Split?
    ensures Progress(c, high, p0, seen0, node.child, p, seen)
  {
    assert Under(Under(Contents(node.child), high), high) == Under(Contents(node.child), high);
  }

  /** What the two recursive calls leave behind is what the whole merged node asks for. */
  lemma ProgressMerge(c: Leaf, high: KeyNodeId, p0: PendingMap, seen0: set<Key>,
                      node: Leaf, p: PendingMap, seen: set<Key>, left: seq<Item>, right: seq<Item>)
    requires Progress(c, high, p0, seen0, node, p, seen) && node.Merged?
    requires Sorted(left) && MapOf(left) == Outcome(node.child, High(node.child), p)
    requires Sorted(right) && MapOf(right) == Outcome(node.right, high, Beyond(p, High(node.child)))
    ensures Sorted(left + right) && MapOf(left + right) == Outcome(c, high, p0)
    ensures Beyond(Beyond(p, High(node.child)), high) == Beyond(p0, high)
  {
    var mid := High(node.child);
    ProperRange(node.right);
    MergeOutcome(node, p);
    BeyondTwice(p, mid, high);
    LeftReady(node, p, seen);
    RightReady(node, p, seen, seen);
    OutcomeRange(node.child, p);
    OutcomeRange(node.right, Beyond(p, mid));
    forall i, j | 0 <= i < |left| && 0 <= j < |right|
      ensures left[i].key < right[j].key
    {
      MapOfAt(left, i);
      MapOfAt(right, j);
      assert InRange(node.child, left[i].key) && InRange(node.right, right[j].key);
    }
    MapOfConcat(left, right);
  }

  lemma ProgressLeft(c: Leaf, high: KeyNodeId, p0: PendingMap, seen0: set<Key>,
                     node: Leaf, p: PendingMap, seen: set<Key>)
    requires Progress(c, high, p0, seen0, node, p, seen) && node.Merged?
    ensures WellFormed(node.child) && WellFormed(node.right) && High(node.right) == high
    ensures Size(node.child) < Size(node) && Size(node.right) < Size(node)
    ensures Depth(node) == Depth(node.child) + Depth(node.right)
    ensures Ready(node.child, High(node.child), p, seen)
  {
    LeftReady(node, p, seen);
  }

  lemma ProgressRight(c: Leaf, high: KeyNodeId, p0: PendingMap, seen0: set<Key>,
                      node: Leaf, p: PendingMap, seen: set<Key>, seen1: set<Key>)
    requires Progress(c, high, p0, seen0, node, p, seen) && node.Merged?
    requires forall k :: !BelowHigh(k, High(node.child)) ==> (k in seen1 <==> k in seen)
    ensures Ready(node.right, high, Beyond(p, High(node.child)), seen1)
  {
    RightReady(node, p, seen, seen1);
  }

  /** Keys not below the merged node's high key are seen exactly as before both calls. */
  lemma SeenMerge(c: Leaf, high: KeyNodeId, p0: PendingMap, seen0: set<Key>,
                  node: Leaf, p: PendingMap, seen: set<Key>, seen1: set<Key>, seen2: set<Key>)
    requires Progress(c, high, p0, seen0, node, p, seen) && node.Merged?
    requires forall k :: !BelowHigh(k, High(node.child)) ==> (k in seen1 <==> k in seen)
    requires forall k :: !BelowHigh(k, high) ==> (k in seen2 <==> k in seen1)
    ensures forall k :: !BelowHigh(k, high) ==> (k in seen2 <==> k in seen0)
  {
    ProperRange(node.right);
  }

  /** Adds a record to the pending ones unless a record above it was for the same key. */
  method PushRecord(d: Pending, sss: SortedSmallSet<Pending>, deltaSet: BloomFilter<Key>)
    requires sss.Valid() && deltaSet.Valid() && KeyOrder(sss.less) && Sorted(sss.contents)
    requires d.key in deltaSet.elements <==> d.key in MapOf(sss.contents)
    requires sss.end < sss.data.Length && deltaSet.count < deltaSet.data.Length
    requires {sss.data as object} !! {deltaSet.data as object, deltaSet.bits as object}
    modifies sss`end, sss`contents, sss.data, deltaSet`count, deltaSet`elements, deltaSet.bits, deltaSet.data
    ensures sss.Valid() && deltaSet.Valid() && Sorted(sss.contents)
    ensures sss.end <= old(sss.end) + 1 && deltaSet.count <= old(deltaSet.count) + 1
    ensures deltaSet.elements == old(deltaSet.elements) + {d.key}
    ensures MapOf(sss.contents) == var p := MapOf(old(sss.contents)); if d.key in p then p else p[d.key := d.value]
  {
    var known := deltaSet.Exists(d.key);
    if !known {
      InsertKeepSorted(sss.less, sss.contents, d);
      deltaSet.Insert(d.key);
      sss.InsertNoDedup(d);
    }
  }

  method CollectAllValuesOnLeafRecursive(c: Leaf, sss: SortedSmallSet<Pending>, deltaSet: BloomFilter<Key>,
                                         out: seq<Item>)
    returns (r: seq<Item>, ghost piece: seq<Item>)
    requires WellFormed(c) && sss.Valid() && deltaSet.Valid() && KeyOrder(sss.less)
    requires Sorted(sss.contents) && Ready(c, High(c), MapOf(sss.contents), deltaSet.elements)
    requires sss.end + Depth(c) <= sss.data.Length && deltaSet.count + Depth(c) <= deltaSet.data.Length
    requires {sss.data as object} !! {deltaSet.data as object, deltaSet.bits as object}
    modifies sss, sss.data, deltaSet, deltaSet.bits, deltaSet.data
    ensures sss.Valid() && deltaSet.Valid()
    ensures sss.end <= old(sss.end) + Depth(c) && deltaSet.count <= old(deltaSet.count) + Depth(c)
    ensures Sorted(sss.contents) && MapOf(sss.contents) == Beyond(MapOf(old(sss.contents)), High(c))
    ensures forall k :: !BelowHigh(k, High(c)) ==> (k in deltaSet.elements <==> k in old(deltaSet.elements))
    ensures r == out + piece && Sorted(piece)
    ensures MapOf(piece) == Outcome(c, High(c), MapOf(old(sss.contents)))
    decreases Size(c), 1
  {
    hide Progress, WellFormed, Ready, Outcome, Beyond, MapOf, Sorted, BelowHigh, High;
    var high := High(c);
    var node := c;
    ghost var p0, seen0 := MapOf(sss.contents), deltaSet.elements;
    ProgressInit(c, p0, seen0);
    while true
      invariant sss.Valid() && deltaSet.Valid() && Sorted(sss.contents)
      invariant Progress(c, high, p0, seen0, node, MapOf(sss.contents), deltaSet.elements)
      invariant sss.end + Depth(node) <= old(sss.end) + Depth(c)
      invariant deltaSet.count + Depth(node) <= old(deltaSet.count) + Depth(c)
      decreases Size(node)
    {
      NoRemove(c, high, p0, seen0, node, MapOf(sss.contents), deltaSet.elements);
      match node
      case Base(_, _, _) =>
        ProgressBase(c, high, p0, seen0, node, MapOf(sss.contents), deltaSet.elements);
        r, piece := CollectBase(node, high, sss, out);
        return;
      case Data(op, item, index, child) =>
        ProgressData(c, high, p0, seen0, node, MapOf(sss.contents), deltaSet.elements);
        PushRecord(ChangeOf(op, item, index), sss, deltaSet);
        node := child;
      case Split(_, _, child) =>
        ProgressSplit(c, high, p0, seen0, node, MapOf(sss.contents), deltaSet.elements);
        node := child;
      case Merged(_, right, child) =>
        r, piece := CollectMerged(c, high, p0, seen0, node, sss, deltaSet, out);
        return;
    }
  }

  /** The two recursive calls on the sides of a merge node. */
  method CollectMerged(ghost c: Leaf, ghost high: KeyNodeId, ghost p0: PendingMap, ghost seen0: set<Key>, node: Leaf,
                       sss: SortedSmallSet<Pending>, deltaSet: BloomFilter<Key>, out: seq<Item>)
    returns (r: seq<Item>, ghost piece: seq<Item>)
    requires node.Merged? && sss.Valid() && deltaSet.Valid() && KeyOrder(sss.less) && Sorted(sss.contents)
    requires Progress(c, high, p0, seen0, node, MapOf(sss.contents), deltaSet.elements)
    requires sss.end + Depth(node) <= sss.data.Length && deltaSet.count + Depth(node) <= deltaSet.data.Length
    requires {sss.data as object} !! {deltaSet.data as object, deltaSet.bits as object}
    modifies sss, sss.data, deltaSet, deltaSet.bits, deltaSet.data
    ensures sss.Valid() && deltaSet.Valid()
    ensures sss.end <= old(sss.end) + Depth(node) && deltaSet.count <= old(deltaSet.count) + Depth(node)
    ensures Sorted(sss.contents) && MapOf(sss.contents) == Beyond(p0, high)
    ensures forall k :: !BelowHigh(k, high) ==> (k in deltaSet.elements <==> k in seen0)
    ensures r == out + piece && Sorted(piece) && MapOf(piece) == Outcome(c, high, p0)
    decreases Size(node), 0
  {
    hide Progress, WellFormed, Ready, Outcome, Beyond, MapOf, Sorted, BelowHigh, High, Depth, Size;
    ghost var p, seen := MapOf(sss.contents), deltaSet.elements;
    ProgressLeft(c, high, p0, seen0, node, p, seen);
    ghost var left, rest;
    r, left := CollectAllValuesOnLeafRecursive(node.child, sss, deltaSet, out);
    ghost var seen1 := deltaSet.elements;
    ProgressRight(c, high, p0, seen0, node, p, seen, seen1);
    r, rest := CollectAllValuesOnLeafRecursive(node.right, sss, deltaSet, r);
    piece := left + rest;
    ProgressMerge(c, high, p0, seen0, node, p, seen, left, rest);
    SeenMerge(c, high, p0, seen0, node, p, seen, seen1, deltaSet.elements);
  }

  /** Consolidation: one base leaf with the range of the chain, the live items of the chain
      in key order, exactly as many as the chain's item count says, found with scratch
      arrays no longer than the chain's depth. */
  method CollectAllValuesOnLeaf(c: Leaf, hash: Key -> bv64) returns (leaf: Leaf)
    requires WellFormed(c)
    ensures leaf.Base? && WellFormed(leaf)
    ensures leaf.low == Low(c) && leaf.high == High(c)
    ensures Contents(leaf) == Contents(c)
    ensures |leaf.items| == ItemCount(c)
  {
    var deltaSetData := new Key[2 * Depth(c)];
    var deltaSet := new BloomFilter<Key>(deltaSetData, hash);
    var sssData := new Pending[Depth(c)];
    var sss := new SortedSmallSet<Pending>(sssData, PendingLess, (a, b) => false);
    assert forall a: Pending, b: Pending :: sss.less(a, b) == PendingLess(a, b);
    assert MapOf(sss.contents) == map[];
    var items, piece := CollectAllValuesOnLeafRecursive(c, sss, deltaSet, []);
    leaf := Base(Low(c), High(c), items);
    assert items == piece;
    ConsolidatedLeaf(c, items);
  }

  lemma ConsolidatedLeaf(c: Leaf, items: seq<Item>)
    requires WellFormed(c) && Sorted(items) && MapOf(items) == Outcome(c, High(c), map[])
    ensures WellFormed(Base(Low(c), High(c), items))
    ensures MapOf(items) == Contents(c) && |items| == ItemCount(c)
  {
    ContentsInRange(c);
    ProperRange(c);
    assert Outcome(c, High(c), map[]) == Contents(c);
    MapOfAll(items);
    MapOfSize(items);
    ItemCountExact(c);
  }
}
