/** Searching a leaf through its permutation, and inserting into and removing from it. */
module KeySearch {
  import opened Options
  import opened PackedPermutations
  import opened PermutedNodes

  /** A leaf: `keys` by slot, and the order of the slots in use. */
  datatype Node = Node(keys: seq<int>, perm: Word)

  ghost predicate Shaped(n: Node, w: nat) { Valid(n.perm, w) && |n.keys| == w }

  lemma InRange(n: Node, w: nat, i: nat)
    requires Shaped(n, w) && i < w
    ensures At(n.perm, i) < w
  {
    hide At;
    var s := Slots(n.perm, w);
    assert s[i] in multiset(s);
    assert s[i] in Iota(w);
  }

  /** The key at position `i`. */
  function KeyAt(n: Node, i: nat): int
    requires i < 15 && At(n.perm, i) < |n.keys|
  {
    n.keys[At(n.perm, i)]
  }

  ghost predicate Readable(n: Node, w: nat) { Size(n.perm) <= w <= 15 && forall i :: 0 <= i < w ==>
      At(n.perm, i) < |n.keys| }

  /** The keys in the order of the permutation. */
  ghost function KeyList(n: Node, w: nat): (l: seq<int>)
    requires Readable(n, w)
    ensures |l| == Size(n.perm) && forall i :: 0 <= i < |l| ==> l[i] == KeyAt(n, i)
  {
    seq(Size(n.perm), i requires 0 <= i < Size(n.perm) => KeyAt(n, i))
  }

  ghost predicate Ascending(l: seq<int>) { forall i, j :: 0 <= i < j < |l| ==> l[i] < l[j] }

  ghost predicate Sorted(n: Node, w: nat) { Readable(n, w) && Ascending(KeyList(n, w)) }

  /** `r` keys are smaller, and none of the others is. */
  ghost predicate IsLower(l: seq<int>, key: int, r: nat) {
    r <= |l| && (forall i :: 0 <= i < r ==> l[i] < key) && (forall i :: r <= i < |l| ==> key <= l[i])
  }

  /** `r` keys are not greater, and all of the others are. */
  ghost predicate IsUpper(l: seq<int>, key: int, r: nat) {
    r <= |l| && (forall i :: 0 <= i < r ==> l[i] <= key) && (forall i :: r <= i < |l| ==> key < l[i])
  }

  /** The slot of the key itself, if position `r` holds it. */
  ghost predicate IsFound(n: Node, w: nat, key: int, r: nat, position: Option<nat>)
    requires Readable(n, w)
  {
    var l := KeyList(n, w);
    position == if r < |l| && l[r] == key then Some(At(n.perm, r)) else None
  }

  /* Binary searches. */

  method KeyUpperBound(key: int, n: Node, w: nat) returns (r: nat)
    requires Sorted(n, w)
    ensures IsUpper(KeyList(n, w), key, r)
  {
    hide At, Size, KeyAt;
    ghost var l := KeyList(n, w);
    var lo, hi := 0, Size(n.perm);
    while lo < hi
      invariant 0 <= lo <= hi <= |l|
      invariant forall i :: 0 <= i < lo ==> l[i] <= key
      invariant forall i :: hi <= i < |l| ==> key < l[i]
    {
      var m := (lo + hi) / 2;
      var k := KeyAt(n, m);
      assert k == l[m];
      if key < k {
        hi := m;
      } else if key == k {
        return m + 1;
      } else {
        lo := m + 1;
      }
    }
    r := lo;
  }

  method KeyLowerBound(key: int, n: Node, w: nat) returns (r: nat, position: Option<nat>)
    requires Sorted(n, w)
    ensures IsLower(KeyList(n, w), key, r) && IsFound(n, w, key, r, position)
  {
    hide At, Size, KeyAt;
    ghost var l := KeyList(n, w);
    var lo, hi := 0, Size(n.perm);
    while lo < hi
      invariant 0 <= lo <= hi <= |l|
      invariant forall i :: 0 <= i < lo ==> l[i] < key
      invariant forall i :: hi <= i < |l| ==> key < l[i]
    {
      var m := (lo + hi) / 2;
      var k := KeyAt(n, m);
      assert k == l[m];
      if key < k {
        hi := m;
      } else if key == k {
        return m, Some(At(n.perm, m));
      } else {
        lo := m + 1;
      }
    }
    r, position := lo, None;
  }

  /* Linear searches. */

  method KeyFindUpperBound(key: int, n: Node, w: nat) returns (r: nat)
    requires Sorted(n, w)
    ensures IsUpper(KeyList(n, w), key, r)
  {
    hide At, Size, KeyAt;
    ghost var l := KeyList(n, w);
    r := 0;
    while r < Size(n.perm)
      invariant r <= |l|
      invariant forall i :: 0 <= i < r ==> l[i] <= key
    {
      var k := KeyAt(n, r);
      assert k == l[r];
      if key < k { break; }
      r := r + 1;
    }
  }

  method KeyFindLowerBound(key: int, n: Node, w: nat) returns (r: nat, position: Option<nat>)
    requires Sorted(n, w)
    ensures IsLower(KeyList(n, w), key, r) && IsFound(n, w, key, r, position)
  {
    hide At, Size, KeyAt;
    ghost var l := KeyList(n, w);
    r := 0;
    while r < Size(n.perm)
      invariant r <= |l|
      invariant forall i :: 0 <= i < r ==> l[i] < key
    {
      var k := KeyAt(n, r);
      assert k == l[r];
      if key < k {
        break;
      } else if key == k {
        return r, Some(At(n.perm, r));
      }
      r := r + 1;
    }
    position := None;
  }

  /** A list has one lower and one upper bound, so binary and linear searches agree; the two bounds
      differ exactly if the key is there. */
  lemma BoundsUnique(l: seq<int>, key: int, a: nat, b: nat)
    requires Ascending(l)
    ensures IsLower(l, key, a) && IsLower(l, key, b) ==> a == b
    ensures IsUpper(l, key, a) && IsUpper(l, key, b) ==> a == b
    ensures IsLower(l, key, a) && IsUpper(l, key, b) ==> b == if key in l then a + 1 else a
  {
    if IsLower(l, key, a) && IsLower(l, key, b) {
      assert a < |l| ==> (a < b <==> l[a] < key);
      assert b < |l| ==> (b < a <==> l[b] < key);
    }
    if IsUpper(l, key, a) && IsUpper(l, key, b) {
      assert a < |l| ==> (a < b <==> l[a] <= key);
      assert b < |l| ==> (b < a <==> l[b] <= key);
    }
    if IsLower(l, key, a) && IsUpper(l, key, b) { LowerUpper(l, key, a, b); }
  }

  lemma LowerUpper(l: seq<int>, key: int, a: nat, b: nat)
    requires Ascending(l) && IsLower(l, key, a) && IsUpper(l, key, b)
    ensures b == if key in l then a + 1 else a
  {
    LowerMember(l, key, a);
    assert a < |l| ==> (a < b <==> l[a] <= key);
    assert b < |l| ==> (b < a <==> l[b] < key);
    assert a + 1 < |l| ==> l[a] < l[a + 1] && (a + 1 < b <==> l[a + 1] <= key);
  }

  lemma LowerMember(l: seq<int>, key: int, r: nat)
    requires Ascending(l) && IsLower(l, key, r)
    ensures key in l <==> r < |l| && l[r] == key
  {
    if key in l {
      var k :| 0 <= k < |l| && l[k] == key;
      assert l[r] <= l[k];
    }
  }

  /* Inserting and removing. */

  /** Writes the key into the free slot at the back and links it in at position `i`. */
  function InsertKey(n: Node, w: nat, key: int, i: nat): Node
    requires 1 <= w <= 15 && i < w && At(n.perm, w - 1) < |n.keys|
  {
    Node(n.keys[At(n.perm, w - 1) := key], InsertFromBack(n.perm, w, i))
  }

  function RemoveKey(n: Node, i: nat): Node
    requires i < Size(n.perm)
  {
    Node(n.keys, Remove(n.perm, i))
  }

  lemma ShapedReadable(n: Node, w: nat)
    requires Shaped(n, w)
    ensures Readable(n, w) && 1 <= w <= 15 && At(n.perm, w - 1) < |n.keys|
  {
    hide At, Size;
    forall i | 0 <= i < w
      ensures At(n.perm, i) < |n.keys|
    {
      InRange(n, w, i);
    }
  }

  lemma InsertShaped(n: Node, w: nat, key: int, i: nat)
    requires Shaped(n, w) && i <= Size(n.perm) < w
    ensures Readable(n, w) && At(n.perm, w - 1) < |n.keys| && Shaped(InsertKey(n, w, key, i), w)
    ensures Readable(InsertKey(n, w, key, i), w)
    ensures Size(InsertKey(n, w, key, i).perm) == Size(n.perm) + 1
  {
    hide At, Size, InsertFromBack, MoveTo;
    ShapedReadable(n, w);
    InsertFromBackSeq(n.perm, w, i);
    ApplyValid(n.perm, w, DoInsertFromBack(i));
    ShapedReadable(InsertKey(n, w, key, i), w);
  }

  /** Position by position, what an insertion makes of a leaf. */
  lemma InsertKeyAt(n: Node, w: nat, key: int, i: nat, k: nat)
    requires Shaped(n, w) && i <= Size(n.perm) < w && k < Size(n.perm) + 1
    requires Readable(n, w) && At(n.perm, w - 1) < |n.keys| && Readable(InsertKey(n, w, key, i), w)
    ensures KeyAt(InsertKey(n, w, key, i), k) == if k < i then KeyAt(n, k) else if k == i then key else KeyAt(n, k - 1)
  {
    hide At, Size, InsertFromBack, MoveTo;
    InsertFromBackSeq(n.perm, w, i);
    var s := Slots(n.perm, w);
    MoveToAt(s, w - 1, i, k);
    assert At(InsertFromBack(n.perm, w, i), k) == Slots(InsertFromBack(n.perm, w, i), w)[k];
    if k != i {
      Distinct(s, w, if k < i then k else k - 1, w - 1);
    }
  }

  lemma InsertList(n: Node, w: nat, key: int, i: nat)
    requires Shaped(n, w) && i <= Size(n.perm) < w
    requires Readable(n, w) && At(n.perm, w - 1) < |n.keys| && Readable(InsertKey(n, w, key, i), w)
    requires Size(InsertKey(n, w, key, i).perm) == Size(n.perm) + 1
    ensures KeyList(InsertKey(n, w, key, i), w) == KeyList(n, w)[..i] + [key] + KeyList(n, w)[i..]
  {
    hide At, Size, KeyAt, InsertKey, Shaped;
    var l, l' := KeyList(n, w), KeyList(InsertKey(n, w, key, i), w);
    forall k | 0 <= k < |l'|
      ensures l'[k] == (l[..i] + [key] + l[i..])[k]
    {
      InsertKeyAt(n, w, key, i, k);
    }
  }

  lemma AscendingInsert(l: seq<int>, key: int, i: nat)
    requires Ascending(l) && IsLower(l, key, i) && key !in l
    ensures Ascending(l[..i] + [key] + l[i..])
  {
    var l' := l[..i] + [key] + l[i..];
    assert forall k :: i <= k < |l| ==> l[k] != key;
    forall a, b | 0 <= a < b < |l'|
      ensures l'[a] < l'[b]
    {
      if a != i && b != i { assert l[if a < i then a else a - 1] < l[if b < i then b else b - 1]; }
    }
  }

  /** Inserting an absent key at its lower bound keeps the leaf sorted and adds just that key. */
  lemma InsertKeySorted(n: Node, w: nat, key: int, i: nat)
    requires Shaped(n, w) && Sorted(n, w) && Size(n.perm) < w && IsLower(KeyList(n, w), key, i) && key !in KeyList(n, w)
    ensures At(n.perm, w - 1) < |n.keys| && Shaped(InsertKey(n, w, key, i), w) && Sorted(InsertKey(n, w, key, i), w)
    ensures KeyList(InsertKey(n, w, key, i), w) == KeyList(n, w)[..i] + [key] + KeyList(n, w)[i..]
  {
    hide At, Size, InsertKey, Shaped, KeyAt;
    InsertShaped(n, w, key, i);
    InsertList(n, w, key, i);
    AscendingInsert(KeyList(n, w), key, i);
  }

  /** Removing a position keeps the leaf sorted and takes just its key away. */
  lemma RemoveKeySorted(n: Node, w: nat, i: nat)
    requires Shaped(n, w) && Sorted(n, w) && i < Size(n.perm)
    ensures Shaped(RemoveKey(n, i), w) && Sorted(RemoveKey(n, i), w)
    ensures KeyList(RemoveKey(n, i), w) == KeyList(n, w)[..i] + KeyList(n, w)[i + 1..]
  {
    hide At, Size, Remove;
    RemoveSeq(n.perm, w, i);
    ApplyValid(n.perm, w, DoRemove(i));
    var n' := RemoveKey(n, i);
    ShapedReadable(n', w);
    var l, l' := KeyList(n, w), KeyList(n', w);
    forall k | 0 <= k < |l'|
      ensures l'[k] == (l[..i] + l[i + 1..])[k]
    {
      RemoveAt(n.perm, i, k);
    }
    assert l' == l[..i] + l[i + 1..];
  }

  /* Any run of inserts and removes. */

  datatype Change = Insert(key: int) | Delete(key: int)

  ghost function KeySet(l: seq<int>): set<int> { set v | v in l }

  /** The set after one change; an insertion into a full leaf is turned away. */
  ghost function Changed(keys: set<int>, w: nat, c: Change): set<int> {
    match c
    case Insert(key) => if |keys| < w then keys + {key} else keys
    case Delete(key) => keys - {key}
  }

  /** Carries out changes one after the other, each at the position the search finds. */
  method RunChanges(start: Node, w: nat, changes: seq<Change>) returns (n: Node, ghost sets: seq<set<int>>)
    requires Shaped(start, w) && Sorted(start, w)
    ensures Shaped(n, w) && Sorted(n, w)
    ensures |sets| == |changes| + 1 && sets[0] == KeySet(KeyList(start, w)) && sets[|changes|] == KeySet(KeyList(n, w))
    ensures forall i :: 0 <= i < |changes| ==> sets[i + 1] == Changed(sets[i], w, changes[i])
  {
    hide At, Size, Shaped, InsertKey, RemoveKey, KeyAt, KeyList, KeySet, IsLower, Changed, Ascending;
    n := start;
    sets := [KeySet(KeyList(n, w))];
    for c := 0 to |changes|
      invariant Shaped(n, w) && Sorted(n, w)
      invariant |sets| == c + 1 && sets[0] == KeySet(KeyList(start, w)) && sets[c] == KeySet(KeyList(n, w))
      invariant forall i :: 0 <= i < c ==> sets[i + 1] == Changed(sets[i], w, changes[i])
    {
      n := Apply1(n, w, changes[c]);
      sets := sets + [KeySet(KeyList(n, w))];
    }
  }

  method Apply1(n: Node, w: nat, change: Change) returns (n': Node)
    requires Shaped(n, w) && Sorted(n, w)
    ensures Shaped(n', w) && Sorted(n', w)
    ensures KeySet(KeyList(n', w)) == Changed(KeySet(KeyList(n, w)), w, change)
  {
    hide At, Size, Shaped, InsertKey, RemoveKey, KeyAt, KeySet, IsLower, Changed;
    var i, position := KeyLowerBound(change.key, n, w);
    ghost var l := KeyList(n, w);
    LowerMember(l, change.key, i);
    ShapedReadable(n, w);
    ChangedSet(l, w, change, i);
    n' := n;
    if change.Insert? && Size(n.perm) < w && position.None? {
      LowerInside(l, change.key, i);
      InsertKeySorted(n, w, change.key, i);
      n' := InsertKey(n, w, change.key, i);
    } else if change.Delete? && position.Some? {
      RemoveKeySorted(n, w, i);
      n' := RemoveKey(n, i);
    }
  }

  lemma LowerInside(l: seq<int>, key: int, i: nat)
    requires IsLower(l, key, i)
    ensures i <= |l|
  {
  }

  lemma {:induction false} AscendingSize(l: seq<int>)
    requires Ascending(l)
    ensures |KeySet(l)| == |l|
  {
    if l != [] {
      var n := |l| - 1;
      AscendingSize(l[..n]);
      assert l == l[..n] + [l[n]];
      assert KeySet(l) == KeySet(l[..n]) + {l[n]} && l[n] !in l[..n];
    }
  }

  lemma ChangedSet(l: seq<int>, w: nat, c: Change, i: nat)
    requires Ascending(l) && IsLower(l, c.key, i) && (c.key in l <==> i < |l| && l[i] == c.key)
    ensures Changed(KeySet(l), w, c) ==
      if c.Insert? && |l| < w && c.key !in l then KeySet(l[..i] + [c.key] + l[i..])
      else if c.Delete? && c.key in l then KeySet(l[..i] + l[i + 1..])
      else KeySet(l)
  {
    AscendingSize(l);
    assert l == l[..i] + l[i..];
    if c.Insert? {
      InsertedSet(l, c.key, i);
    } else if c.key in l {
      RemovedSet(l, i);
    }
  }

  lemma InsertedSet(l: seq<int>, key: int, i: nat)
    requires i <= |l|
    ensures KeySet(l[..i] + [key] + l[i..]) == KeySet(l) + {key}
  {
    assert l == l[..i] + l[i..];
  }

  lemma RemovedSet(l: seq<int>, i: nat)
    requires Ascending(l) && i < |l|
    ensures KeySet(l[..i] + l[i + 1..]) == KeySet(l) - {l[i]}
  {
    assert l == l[..i] + [l[i]] + l[i + 1..];
    assert l[i] !in l[..i] && l[i] !in l[i + 1..];
  }
}
