/** Inner delta chains: the separators a chain stands for, what makes one well formed, and the
    two searches over it. */
module InnerChains {
  import opened Options
  import opened Ordered
  import opened LeafChains

  /** Entry 0 of a base node is its low key pair; on the `leftmost` node of a level its key is a
      placeholder for -Inf that nothing may compare with. */
  datatype Inner =
    | Base(low: KeyNodeId, high: KeyNodeId, items: seq<KeyNodeId>, depth: nat, leftmost: bool)
    | Insert(item: KeyNodeId, next: KeyNodeId, location: nat, child: Inner)
    | Delete(item: KeyNodeId, prev: KeyNodeId, next: KeyNodeId, location: nat, child: Inner)
    | Split(splitItem: KeyNodeId, siblingCount: nat, child: Inner)
    | Merged(deleteItem: KeyNodeId, right: Inner, child: Inner)

  /* Node metadata, as each constructor derives it from its children. */

  function Low(c: Inner): KeyNodeId { if c.Base? then c.low else Low(c.child) }

  function Leftmost(c: Inner): bool { if c.Base? then c.leftmost else Leftmost(c.child) }

  function High(c: Inner): KeyNodeId {
    match c
    case Base(_, high, _, _, _) => high
    case Insert(_, _, _, child) => High(child)
    case Delete(_, _, _, _, child) => High(child)
    case Split(item, _, _) => item
    case Merged(_, right, _) => High(right)
  }

  function Depth(c: Inner): nat {
    match c
    case Base(_, _, _, depth, _) => depth
    case Insert(_, _, _, child) => Depth(child) + 1
    case Delete(_, _, _, _, child) => Depth(child) + 1
    case Split(_, _, child) => Depth(child)
    case Merged(_, right, child) => Depth(child) + Depth(right)
  }

  function ItemCount(c: Inner): int {
    match c
    case Base(_, _, items, _, _) => |items|
    case Insert(_, _, _, child) => ItemCount(child) + 1
    case Delete(_, _, _, _, child) => ItemCount(child) - 1
    case Split(_, siblingCount, child) => ItemCount(child) - siblingCount
    case Merged(_, right, child) => ItemCount(child) + ItemCount(right)
  }

  /** The low node ids recorded in the base nodes of a chain. */
  ghost function LowIds(c: Inner): set<NodeId> {
    match c
    case Base(low, _, _, _, _) => {low.value}
    case Merged(_, right, child) => LowIds(child) + LowIds(right)
    case _ => LowIds(c.child)
  }

  /** `k` lies strictly above the low key. */
  ghost predicate OverLow(c: Inner, k: Key) { Leftmost(c) || Low(c).key < k }

  ghost predicate InRange(c: Inner, k: Key) { (Leftmost(c) || Low(c).key <= k) && BelowHigh(k, High(c)) }

  /** The separators of a chain, its low key pair not among them. */
  ghost function Seps(c: Inner): map<Key, NodeId>
    decreases c, 0
  {
    match c
    case Base(_, _, items, _, _) => if items == [] then map[] else MapOf(items[1..])
    case Insert(item, _, _, child) => Seps(child)[item.key := item.value]
    case Delete(item, _, _, _, child) => Seps(child) - {item.key}
    case Split(item, _, child) => Under(Seps(child), item)
    case Merged(_, right, child) => Seps(child) + Full(right)
  }

  /** The separators of a chain that was merged into its left neighbour: now its low key pair
      is a separator like the others. */
  ghost function Full(c: Inner): map<Key, NodeId>
    decreases c, 1
  {
    Seps(c)[Low(c).key := Low(c).value]
  }

  /** The base node that decides key `k` once no delta record does, and whether it is the first. */
  ghost function BaseFor(c: Inner, k: Key): (b: Inner)
    ensures b.Base?
  {
    match c
    case Base(_, _, _, _, _) => c
    case Merged(item, right, child) => if k >= item.key then BaseFor(right, k) else BaseFor(child, k)
    case _ => BaseFor(c.child, k)
  }

  ghost predicate FirstBranch(c: Inner, k: Key) {
    match c
    case Base(_, _, _, _, _) => true
    case Merged(item, _, child) => k < item.key && FirstBranch(child, k)
    case _ => FirstBranch(c.child, k)
  }

  /** `p` is the lower bound of `k` in `items[start..]`. */
  ghost predicate IsPlace(items: seq<KeyNodeId>, start: nat, k: Key, p: nat) {
    && start <= p <= |items|
    && (forall i :: start <= i < p ==> items[i].key < k)
    && (forall i :: p <= i < |items| ==> k <= items[i].key)
  }

  ghost predicate PlaceIn(c: Inner, k: Key, p: nat) {
    IsPlace(BaseFor(c, k).items, if FirstBranch(c, k) then 1 else 0, k, p)
  }

  /** `next` is the separator right after `k`, or the high key pair when there is none. */
  ghost predicate IsNext(m: map<Key, NodeId>, k: Key, high: KeyNodeId, next: KeyNodeId) {
    if next.key in m && k < next.key && next.value == m[next.key] && next.value != INVALID_NODE_ID
    then forall j :: j in m && k < j ==> next.key <= j
    else next == high && forall j :: j in m ==> j <= k
  }

  /** `prev` is the separator right before `k`, or the low key pair when there is none, which its
      node id tells apart. */
  ghost predicate IsPrev(m: map<Key, NodeId>, k: Key, low: KeyNodeId, prev: KeyNodeId) {
    if prev.value != low.value
    then prev.key in m && prev.key < k && prev.value == m[prev.key] && forall j :: j in m && j < k ==> j <= prev.key
    else forall j :: j in m ==> k <= j
  }

  ghost predicate WellFormed(c: Inner) {
    match c
    case Base(low, high, items, _, leftmost) =>
      && |items| > 0 && items[0] == low && SortedIn(items, if leftmost then 1 else 0, |items|)
      && (forall i :: 1 <= i < |items| ==> BelowHigh(items[i].key, high))
      && (!leftmost && high.value != INVALID_NODE_ID ==> low.key < high.key)
    case Insert(item, next, location, child) =>
      && WellFormed(child) && OverLow(child, item.key) && BelowHigh(item.key, High(child))
      && item.key !in Seps(child) && IsNext(Seps(child), item.key, High(child), next)
      && PlaceIn(child, item.key, location)
    case Delete(item, prev, next, location, child) =>
      && WellFormed(child) && item.key in Seps(child)
      && IsNext(Seps(child), item.key, High(child), next) && IsPrev(Seps(child), item.key, Low(child), prev)
      && PlaceIn(child, item.key, location)
    case Split(item, siblingCount, child) =>
      && child.Base? && WellFormed(child) && OverLow(child, item.key) && BelowHigh(item.key, child.high)
      && item.value != INVALID_NODE_ID
      && siblingCount == |Seps(child)| - |Under(Seps(child), item)|
    case Merged(item, right, child) =>
      && WellFormed(child) && WellFormed(right) && Low(child).value !in LowIds(right)
      && High(child).value != INVALID_NODE_ID && High(child).key == item.key
      && !Leftmost(right) && Low(right).key == item.key
  }

  lemma {:induction false} ProperRange(c: Inner)
    requires WellFormed(c)
    ensures !Leftmost(c) && High(c).value != INVALID_NODE_ID ==> Low(c).key < High(c).key
  {
    match c
    case Base(_, _, _, _, _) =>
    case Merged(_, right, child) => ProperRange(child); ProperRange(right);
    case _ => ProperRange(c.child);
  }

  ghost predicate AllInRange(c: Inner, m: map<Key, NodeId>) {
    forall k :: k in m ==> OverLow(c, k) && BelowHigh(k, High(c))
  }

  lemma MergedInRange(c: Inner, left: map<Key, NodeId>, right: map<Key, NodeId>)
    requires c.Merged? && WellFormed(c) && AllInRange(c.child, left) && AllInRange(c.right, right)
    ensures AllInRange(c, left + right[Low(c.right).key := Low(c.right).value])
  {
    ProperRange(c.child);
    ProperRange(c.right);
  }

  /** Separators lie strictly above the low key and below the high key. */
  lemma {:induction false} SepsInRange(c: Inner)
    requires WellFormed(c)
    ensures AllInRange(c, Seps(c))
  {
    match c
    case Base(_, _, items, _, _) => MapOfAll(items[1..]);
    case Merged(_, right, child) =>
      SepsInRange(child);
      SepsInRange(right);
      hide AllInRange;
      MergedInRange(c, Seps(child), Seps(right));
    case _ => SepsInRange(c.child);
  }

  /** The recorded item count is the number of live separators and the low key pair. */
  lemma {:induction false} ItemCountExact(c: Inner)
    requires WellFormed(c)
    ensures ItemCount(c) == |Seps(c)| + 1
  {
    match c
    case Base(_, _, items, _, _) => MapOfSize(items[1..]);
    case Insert(_, _, _, child) => ItemCountExact(child);
    case Delete(item, _, _, _, child) =>
      ItemCountExact(child);
      assert Seps(child).Keys == Seps(c).Keys + {item.key};
    case Split(_, _, child) => ItemCountExact(child);
    case Merged(_, right, child) =>
      ItemCountExact(child);
      ItemCountExact(right);
      MergedCount(c);
  }

  lemma MergedCount(c: Inner)
    requires WellFormed(c) && c.Merged?
    requires ItemCount(c.child) == |Seps(c.child)| + 1 && ItemCount(c.right) == |Seps(c.right)| + 1
    ensures ItemCount(c) == |Seps(c)| + 1
  {
    MergedSides(c);
    SepsInRange(c.right);
    assert |Full(c.right)| == |Seps(c.right)| + 1;
    DisjointSize(Seps(c.child), Full(c.right));
  }

  /** The two sides of a merge meet at its key. */
  lemma MergedSides(c: Inner)
    requires WellFormed(c) && c.Merged?
    ensures forall k :: k in Seps(c.child) ==> k < c.deleteItem.key
    ensures forall k :: k in Full(c.right) ==> c.deleteItem.key <= k
    ensures Seps(c.child).Keys !! Full(c.right).Keys
  {
    SepsInRange(c.child);
    SepsInRange(c.right);
  }

  /* Which child a key leads to. */

  /** `id` is the child of the greatest separator not above `k`, or the low child when there is none. */
  ghost predicate IsTarget(m: map<Key, NodeId>, low: NodeId, k: Key, id: NodeId) {
    || (exists g :: g in m && g <= k && m[g] == id && forall j :: j in m && j <= k ==> j <= g)
    || (id == low && forall j :: j in m ==> k < j)
  }

  ghost predicate Leads(c: Inner, k: Key, id: NodeId) { IsTarget(Seps(c), Low(c).value, k, id) }

  lemma InsertLeads(c: Inner, k: Key)
    requires WellFormed(c) && c.Insert? && InRange(c, k)
    ensures k >= c.item.key && (c.next.value == INVALID_NODE_ID || k < c.next.key) ==> Leads(c, k, c.item.value)
    ensures !(k >= c.item.key && (c.next.value == INVALID_NODE_ID || k < c.next.key)) ==>
      forall id :: Leads(c.child, k, id) ==> Leads(c, k, id)
  {
    SepsInRange(c.child);
    var m, g := Seps(c.child), c.item.key;
    if k >= g && (c.next.value == INVALID_NODE_ID || k < c.next.key) {
      assert g in Seps(c) && forall j :: j in Seps(c) && j <= k ==> j <= g;
    } else {
      assert forall j :: j in m ==> j in Seps(c) && Seps(c)[j] == m[j];
      if k >= g { assert c.next.key in m; }
    }
  }

  lemma DeleteLeads(c: Inner, k: Key)
    requires WellFormed(c) && c.Delete? && InRange(c, k)
    ensures var leave := (Low(c).value == c.prev.value || k >= c.prev.key)
                         && (c.next.value == INVALID_NODE_ID || k < c.next.key);
            && (leave ==> Leads(c, k, c.prev.value))
            && (!leave ==> forall id :: Leads(c.child, k, id) ==> Leads(c, k, id))
  {
    SepsInRange(c.child);
    var m, m', g := Seps(c.child), Seps(c), c.item.key;
    assert forall j :: j in m' <==> j in m && j != g;
    if (Low(c).value == c.prev.value || k >= c.prev.key) && (c.next.value == INVALID_NODE_ID || k < c.next.key) {
      assert forall j :: j in m && j <= k ==> j <= g;
      if Low(c).value != c.prev.value {
        assert c.prev.key in m' && forall j :: j in m' && j <= k ==> j <= c.prev.key;
      }
    } else if k >= g {
      assert c.next.key in m && k >= c.next.key;
      LeadsKept(m, m', Low(c).value, k, c.next.key);
    } else {
      assert forall j :: j <= k ==> (j in m <==> j in m');
    }
  }

  /** Dropping a separator below a live one not above `k` changes nothing for `k`. */
  lemma LeadsKept(m: map<Key, NodeId>, m': map<Key, NodeId>, low: NodeId, k: Key, next: Key)
    requires next in m && next <= k
    requires forall j :: j in m && next <= j ==> j in m' && m'[j] == m[j]
    requires forall j :: j in m' ==> j in m
    ensures forall id :: IsTarget(m, low, k, id) ==> IsTarget(m', low, k, id)
  {
  }

  lemma SplitLeads(c: Inner, k: Key)
    requires WellFormed(c) && c.Split? && InRange(c, k)
    ensures InRange(c.child, k) && forall id :: Leads(c.child, k, id) ==> Leads(c, k, id)
  {
    assert forall j :: j <= k ==> (j in Seps(c) <==> j in Seps(c.child));
  }

  /** A key at or above the merge key is led by the right side alone. */
  lemma RightLeads(m: map<Key, NodeId>, left: map<Key, NodeId>, right: map<Key, NodeId>, low: KeyNodeId,
      rest: NodeId, k: Key, id: NodeId)
    requires m == left + right[low.key := low.value] && low.key <= k
    requires forall j :: j in left ==> j < low.key
    requires forall j :: j in right ==> low.key < j
    ensures IsTarget(right, low.value, k, id) ==> IsTarget(m, rest, k, id)
  {
    if (forall j :: j in right ==> k < j) && id == low.value {
      assert low.key in m && m[low.key] == id && forall j :: j in m && j <= k ==> j <= low.key;
    } else if IsTarget(right, low.value, k, id) {
      var g :| g in right && g <= k && right[g] == id && forall j :: j in right && j <= k ==> j <= g;
      assert g in m && m[g] == id && forall j :: j in m && j <= k ==> j <= g;
    }
  }

  lemma LeftLeads(m: map<Key, NodeId>, left: map<Key, NodeId>, right: map<Key, NodeId>, mid: Key, low: NodeId,
      k: Key, id: NodeId)
    requires m == left + right && k < mid
    requires forall j :: j in right ==> mid <= j
    ensures IsTarget(left, low, k, id) ==> IsTarget(m, low, k, id)
  {
    if IsTarget(left, low, k, id) && exists j :: j in left && j <= k {
      var g :| g in left && g <= k && left[g] == id && forall j :: j in left && j <= k ==> j <= g;
      assert g in m && m[g] == id && forall j :: j in m && j <= k ==> j <= g;
    }
  }

  lemma MergedLeads(c: Inner, k: Key)
    requires WellFormed(c) && c.Merged? && InRange(c, k)
    ensures k >= c.deleteItem.key ==> InRange(c.right, k) && forall id :: Leads(c.right, k, id) ==> Leads(c, k, id)
    ensures k < c.deleteItem.key ==> InRange(c.child, k) && forall id :: Leads(c.child, k, id) ==> Leads(c, k, id)
  {
    MergedSides(c);
    SepsInRange(c.right);
    assert Seps(c) == Seps(c.child) + Full(c.right);
    hide IsTarget, Seps;
    forall id
      ensures k >= c.deleteItem.key && Leads(c.right, k, id) ==> Leads(c, k, id)
      ensures k < c.deleteItem.key && Leads(c.child, k, id) ==> Leads(c, k, id)
    {
      if k >= c.deleteItem.key {
        RightLeads(Seps(c), Seps(c.child), Seps(c.right), Low(c.right), Low(c).value, k, id);
      } else {
        LeftLeads(Seps(c), Seps(c.child), Full(c.right), c.deleteItem.key, Low(c).value, k, id);
      }
    }
  }

  /* The narrowed binary search. */

  ghost predicate MergeFree(c: Inner) { !c.Merged? && (c.Base? || MergeFree(c.child)) }

  lemma {:induction false} OneBase(c: Inner, j: Key, k: Key)
    requires MergeFree(c)
    ensures BaseFor(c, j) == BaseFor(c, k) && FirstBranch(c, j) && BaseFor(c, j).low == Low(c)
  {
    if !c.Base? { OneBase(c.child, j, k); }
  }

  /** `[start, end)` still holds the upper bound of `k`. */
  ghost predicate Brackets(items: seq<KeyNodeId>, k: Key, start: nat, end: nat) {
    && 1 <= start <= |items| && 1 <= end <= |items|
    && (forall i :: 1 <= i < start ==> items[i].key <= k)
    && (forall i :: end <= i < |items| ==> k < items[i].key)
  }

  lemma BracketsOrdered(items: seq<KeyNodeId>, k: Key, start: nat, end: nat)
    requires Brackets(items, k, start, end)
    ensures start <= end
  {
    if end < |items| { assert k < items[end].key; }
  }

  lemma ArrayTarget(seps: seq<KeyNodeId>, low: NodeId, k: Key, u: nat)
    requires Sorted(seps) && u <= |seps|
    requires forall i :: 0 <= i < |seps| ==> (i < u <==> seps[i].key <= k)
    ensures IsTarget(MapOf(seps), low, k, if u == 0 then low else seps[u - 1].value)
  {
    MapOfAll(seps);
    hide MapOf;
    if u > 0 {
      assert seps[u - 1].key in MapOf(seps);
    }
  }

  lemma BaseLeads(c: Inner, k: Key, start: nat, end: nat)
    requires c.Base? && WellFormed(c) && Brackets(c.items, k, start, end) && start <= end
    ensures Leads(c, k, c.items[UpperBound(c.items, start, end, k) - 1].value)
  {
    hide IsTarget;
    var u := UpperBound(c.items, start, end, k);
    forall i | 0 <= i < |c.items[1..]|
      ensures i < u - 1 <==> c.items[1..][i].key <= k
    {
      assert c.items[1..][i] == c.items[i + 1];
    }
    ArrayTarget(c.items[1..], c.low.value, k, u - 1);
  }

  function Max(a: nat, b: nat): nat { if a < b then b else a }

  function Min(a: nat, b: nat): nat { if a < b then a else b }

  /** The size of the leftmost base node, which every low key pair leads to. */
  function LowBaseSize(c: Inner): nat { if c.Base? then |c.items| else LowBaseSize(c.child) }

  lemma {:induction false} FullBracket(c: Inner, k: Key)
    requires WellFormed(c) && MergeFree(c)
    ensures Brackets(BaseFor(c, k).items, k, 1, LowBaseSize(c))
  {
    if !c.Base? { FullBracket(c.child, k); }
  }

  lemma NarrowedBracket(c: Inner, k: Key, at: Key, location: nat, start: nat, end: nat)
    requires MergeFree(c) && PlaceIn(c, at, location) && Brackets(BaseFor(c, k).items, k, start, end)
    ensures k >= at ==> Brackets(BaseFor(c, k).items, k, Max(start, location), end)
    ensures k < at ==> Brackets(BaseFor(c, k).items, k, start, Min(end, location))
  {
    OneBase(c, at, k);
  }

  /** Descends an inner chain: the child of the greatest live separator not above the key. */
  method NavigateInnerNode(c: Inner, key: Key) returns (id: NodeId)
    requires WellFormed(c) && InRange(c, key)
    ensures Leads(c, key, id)
  {
    hide Searching, Leads, WellFormed, InRange;
    var node := c;
    var start: nat, end: nat := 1, LowBaseSize(node);
    SearchStart(c, key);
    while true
      invariant Searching(c, key, node, start, end)
      decreases node
    {
      match node
      case Base(_, _, items, _, _) =>
        SearchBase(c, key, node, start, end);
        return items[UpperBound(items, start, end, key) - 1].value;
      case Insert(item, next, location, child) =>
        SearchInsert(c, key, node, start, end);
        if key >= item.key {
          if next.value == INVALID_NODE_ID || key < next.key {
            return item.value;
          }
          start := Max(start, location);
        } else {
          end := Min(end, location);
        }
        node := child;
      case Delete(item, prev, next, location, child) =>
        SearchDelete(c, key, node, start, end);
        if Low(node).value == prev.value || key >= prev.key {
          if next.value == INVALID_NODE_ID || key < next.key {
            return prev.value;
          }
        }
        if key >= item.key {
          start := Max(location, start);
        } else {
          end := Min(location, end);
        }
        node := child;
      case Split(_, _, child) =>
        SearchSplit(c, key, node, start, end);
        node := child;
      case Merged(item, right, child) =>
        SearchMerged(c, key, node, start, end);
        node := if key >= item.key then right else child;
        start, end := 1, LowBaseSize(node);
    }
  }

  /** The search stands at `node`: what `node` leads to is the answer, and the window holds the place
      of the key in the base array as long as only one base array is left below. */
  ghost predicate Searching(c: Inner, key: Key, node: Inner, start: nat, end: nat) {
    && WellFormed(node) && InRange(node, key)
    && (forall x :: Leads(node, key, x) ==> Leads(c, key, x))
    && (MergeFree(node) ==> Brackets(BaseFor(node, key).items, key, start, end))
  }

  lemma SearchStart(c: Inner, key: Key)
    requires WellFormed(c) && InRange(c, key)
    ensures Searching(c, key, c, 1, LowBaseSize(c))
  {
    hide Leads, WellFormed, InRange, Brackets;
    if MergeFree(c) { FullBracket(c, key); }
  }

  lemma SearchBase(c: Inner, key: Key, node: Inner, start: nat, end: nat)
    requires Searching(c, key, node, start, end) && node.Base?
    ensures start <= end <= |node.items| && SortedIn(node.items, start, end)
    ensures 0 < UpperBound(node.items, start, end, key)
    ensures Leads(c, key, node.items[UpperBound(node.items, start, end, key) - 1].value)
  {
    hide Leads, Brackets;
    BracketsInside(node.items, key, start, end);
    BaseLeads(node, key, start, end);
  }

  lemma SearchInsert(c: Inner, key: Key, node: Inner, start: nat, end: nat)
    requires Searching(c, key, node, start, end) && node.Insert?
    ensures var leave := key >= node.item.key && (node.next.value == INVALID_NODE_ID || key < node.next.key);
            && (leave ==> Leads(c, key, node.item.value))
            && (!leave && key >= node.item.key ==> Searching(c, key, node.child, Max(start, node.location), end))
            && (!leave && key < node.item.key ==> Searching(c, key, node.child, start, Min(end, node.location)))
  {
    hide Leads, Brackets, IsNext, PlaceIn;
    InsertLeads(node, key);
    if MergeFree(node.child) { NarrowedBracket(node.child, key, node.item.key, node.location, start, end); }
  }

  lemma SearchDelete(c: Inner, key: Key, node: Inner, start: nat, end: nat)
    requires Searching(c, key, node, start, end) && node.Delete?
    ensures var leave := (Low(node).value == node.prev.value || key >= node.prev.key)
                         && (node.next.value == INVALID_NODE_ID || key < node.next.key);
            && (leave ==> Leads(c, key, node.prev.value))
            && (!leave && key >= node.item.key ==> Searching(c, key, node.child, Max(node.location, start), end))
            && (!leave && key < node.item.key ==> Searching(c, key, node.child, start, Min(node.location, end)))
  {
    hide Leads, Brackets, IsNext, IsPrev, PlaceIn;
    DeleteLeads(node, key);
    if MergeFree(node.child) { NarrowedBracket(node.child, key, node.item.key, node.location, start, end); }
  }

  lemma SearchSplit(c: Inner, key: Key, node: Inner, start: nat, end: nat)
    requires Searching(c, key, node, start, end) && node.Split?
    ensures Searching(c, key, node.child, start, end)
  {
    hide Leads, Brackets;
    SplitLeads(node, key);
  }

  lemma SearchMerged(c: Inner, key: Key, node: Inner, start: nat, end: nat)
    requires Searching(c, key, node, start, end) && node.Merged?
    ensures var side := if key >= node.deleteItem.key then node.right else node.child;
            Searching(c, key, side, 1, LowBaseSize(side))
  {
    hide Leads, Brackets;
    MergedLeads(node, key);
    var side := if key >= node.deleteItem.key then node.right else node.child;
    if MergeFree(side) { FullBracket(side, key); }
  }

  lemma BracketsInside(items: seq<KeyNodeId>, k: Key, start: nat, end: nat)
    requires Brackets(items, k, start, end)
    ensures 1 <= start <= end <= |items|
  {
    BracketsOrdered(items, k, start, end);
  }

  /* Looking one separator up. */

  /** The separators a base or delta below a merge contributes: on the first branch all but the
      low key pair. */
  ghost function Content(c: Inner, first: bool): map<Key, NodeId> { if first then Seps(c) else Full(c) }

  lemma ContentDelta(c: Inner, first: bool, k: Key)
    requires WellFormed(c) && (c.Insert? || c.Delete?) && (first || !Leftmost(c))
    ensures k == c.item.key ==> Lookup(Content(c, first), k) == if c.Insert? then Some(c.item.value) else None
    ensures k != c.item.key ==> Lookup(Content(c, first), k) == Lookup(Content(c.child, first), k)
    ensures OverLow(c, c.item.key)
  {
    SepsInRange(c.child);
    FullIs(c);
    FullIs(c.child);
    var m := Seps(c.child);
    assert Seps(c) == if c.Insert? then m[c.item.key := c.item.value] else m - {c.item.key};
  }

  lemma FullIs(c: Inner)
    ensures Full(c) == Seps(c)[Low(c).key := Low(c).value]
  {
  }

  lemma ContentSplit(c: Inner, first: bool, k: Key)
    requires WellFormed(c) && c.Split? && BelowHigh(k, High(c)) && (first || !Leftmost(c))
    ensures Lookup(Content(c, first), k) == Lookup(Content(c.child, first), k) && BelowHigh(k, High(c.child))
  {
    FullIs(c);
    FullIs(c.child);
    assert Seps(c) == Under(Seps(c.child), c.splitItem);
  }

  lemma ContentMerged(c: Inner, first: bool, k: Key)
    requires WellFormed(c) && c.Merged? && BelowHigh(k, High(c)) && (first || !Leftmost(c))
    ensures k >= c.deleteItem.key ==> Lookup(Content(c, first), k) == Lookup(Full(c.right), k)
    ensures k < c.deleteItem.key ==>
      Lookup(Content(c, first), k) == Lookup(Content(c.child, first), k) && BelowHigh(k, High(c.child))
  {
    MergedSides(c);
    ProperRange(c.child);
    assert Seps(c) == Seps(c.child) + Full(c.right);
    hide WellFormed, Seps;
  }

  /** What the base node says about `k`, searching from entry 1 or 0. */
  lemma ContentBase(c: Inner, first: bool, k: Key, p: nat)
    requires c.Base? && WellFormed(c) && (first || !c.leftmost)
    requires IsPlace(c.items, if first then 1 else 0, k, p)
    ensures Lookup(Content(c, first), k) == if p < |c.items| && c.items[p].key == k then
      Some(c.items[p].value) else None
  {
    var start := if first then 1 else 0;
    var a := c.items[start..];
    FullIs(c);
    assert c.items[0..] == c.items;
    assert Content(c, first) == MapOf(a);
    MapOfAll(a);
    if p < |c.items| { assert a[p - start] == c.items[p]; }
    forall i | 0 <= i < |a|
      ensures a[i].key == k ==> p < |c.items| && c.items[p].key == k
    {
      assert a[i] == c.items[i + start];
    }
  }

  /** A place found on a chain's own first branch is the place from entry 0 too. */
  lemma {:induction false} PlaceFromZero(c: Inner, k: Key, p: nat)
    requires WellFormed(c) && !Leftmost(c) && Low(c).key < k && PlaceIn(c, k, p)
    ensures IsPlace(BaseFor(c, k).items, 0, k, p)
  {
    if FirstBranch(c, k) { FirstBase(c, k); }
  }

  lemma {:induction false} FirstBase(c: Inner, k: Key)
    requires WellFormed(c) && FirstBranch(c, k)
    ensures WellFormed(BaseFor(c, k)) && BaseFor(c, k).low == Low(c)
  {
    if !c.Base? { FirstBase(c.child, k); }
  }

  /** Looks one separator up: its child if it is live, and the key's place in its base node. */
  method FindSeparator(c: Inner, key: Key) returns (found: Option<NodeId>, location: nat)
    requires WellFormed(c) && InRange(c, key)
    ensures found == Lookup(Seps(c), key)
    ensures PlaceIn(c, key, location)
  {
    hide Seps, Content, IsNext, IsPrev, IsPlace;
    var node := c;
    ghost var first := true;
    assert Content(c, true) == Seps(c) by { FirstContent(c); }
    while true
      invariant WellFormed(node) && BelowHigh(key, High(node)) && (first || !Leftmost(node))
      invariant Lookup(Content(node, first), key) == Lookup(Seps(c), key)
      invariant BaseFor(node, key) == BaseFor(c, key) && (FirstBranch(c, key) <==> first && FirstBranch(node, key))
      invariant first ==> Low(node) == Low(c)
      invariant !first ==> Low(c).value !in LowIds(node)
      decreases node
    {
      match node
      case Base(_, _, items, _, _) =>
        var start := if Low(c).value == items[0].value then 1 else 0;
        location := LowerBound(items, start, |items|, key);
        assert IsPlace(items, start, key, location) by { PlaceFound(items, start, key, location); }
        ContentBase(node, first, key, location);
        if location == |items| || items[location].key != key {
          return None, location;
        }
        return Some(items[location].value), location;
      case Insert(item, _, place, child) =>
        ContentDelta(node, first, key);
        if item.key == key {
          if !first { PlaceFromZero(child, key, place); }
          return Some(item.value), place;
        }
        node := child;
      case Delete(item, _, _, place, child) =>
        ContentDelta(node, first, key);
        if item.key == key {
          if !first { PlaceFromZero(child, key, place); }
          return None, place;
        }
        node := child;
      case Split(_, _, child) =>
        ContentSplit(node, first, key);
        node := child;
      case Merged(item, right, child) =>
        ContentMerged(node, first, key);
        if key >= item.key {
          assert Content(right, false) == Full(right) by { RightContent(right); }
          first := false;
          node := right;
        } else {
          node := child;
        }
    }
  }

  lemma FirstContent(c: Inner)
    ensures Content(c, true) == Seps(c)
  {
  }

  lemma RightContent(c: Inner)
    ensures Content(c, false) == Full(c)
  {
  }

  lemma PlaceFound(items: seq<KeyNodeId>, start: nat, k: Key, p: nat)
    requires start <= |items| && SortedIn(items, start, |items|) && p == LowerBound(items, start, |items|, k)
    ensures IsPlace(items, start, k, p)
  {
  }
}
