/** The insertion-sorted scratch array used while a delta chain is replayed. */
module SortedSmallSets {
  import opened Options
  import opened Ordered

  /** First position whose element is not below `v`: where `Insert` stops. */
  function FirstNotLess<T>(less: (T, T) -> bool, s: seq<T>, v: T): (p: nat)
    ensures p <= |s|
    ensures forall i :: 0 <= i < p ==> less(s[i], v)
    ensures p < |s| ==> !less(s[p], v)
  {
    if s == [] || !less(s[0], v) then 0 else 1 + FirstNotLess(less, s[1..], v)
  }

  /** First position whose element is above `v`: the library's upper bound. */
  function FirstGreater<T>(less: (T, T) -> bool, s: seq<T>, v: T): (p: nat)
    ensures p <= |s|
    ensures forall i :: 0 <= i < p ==> !less(v, s[i])
    ensures p < |s| ==> less(v, s[p])
  {
    if s == [] || less(v, s[0]) then 0 else 1 + FirstGreater(less, s[1..], v)
  }

  function InsertAt<T>(s: seq<T>, p: nat, v: T): seq<T>
    requires p <= |s|
  {
    s[..p] + [v] + s[p..]
  }

  lemma IsInsertAt<T>(r: seq<T>, s: seq<T>, p: nat, v: T)
    requires p <= |s| && |r| == |s| + 1 && r[p] == v
    requires forall i :: 0 <= i < p ==> r[i] == s[i]
    requires forall i :: p < i < |r| ==> r[i] == s[i - 1]
    ensures r == InsertAt(s, p, v)
  {
  }

  /** Insertion where the first value for a key wins. */
  function InsertFirst<T>(less: (T, T) -> bool, eq: (T, T) -> bool, s: seq<T>, v: T): seq<T> {
    var p := FirstNotLess(less, s, v);
    if p < |s| && eq(s[p], v) then s else InsertAt(s, p, v)
  }

  /** Insertion that keeps duplicates. */
  function InsertKeep<T>(less: (T, T) -> bool, s: seq<T>, v: T): seq<T> {
    InsertAt(s, FirstGreater(less, s, v), v)
  }

  class SortedSmallSet<T> {
    const less: (T, T) -> bool
    const eq: (T, T) -> bool
    const data: array<T>
    var start: nat
    var end: nat
    ghost var contents: seq<T>

    ghost predicate Valid() reads this, data {
      start <= end <= data.Length && contents == data[start..end]
    }

    constructor (data: array<T>, less: (T, T) -> bool, eq: (T, T) -> bool)
      ensures Valid() && this.data == data && this.less == less && this.eq == eq
      ensures start == end == 0 && contents == []
    {
      this.data, this.less, this.eq := data, less, eq;
      start, end, contents := 0, 0, [];
    }

    /** Moves `[p, end)` one slot up. */
    method CopyBackward(p: nat)
      requires start <= p <= end < data.Length
      modifies data
      ensures forall j :: 0 <= j < p ==> data[j] == old(data[j])
      ensures forall j :: p < j <= end ==> data[j] == old(data[j - 1])
    {
      var i := end;
      while i > p
        invariant p <= i <= end
        invariant forall j :: 0 <= j < i ==> data[j] == old(data[j])
        invariant forall j :: i < j <= end ==> data[j] == old(data[j - 1])
        modifies data
      {
        data[i] := data[i - 1];
        i := i - 1;
      }
    }

    /** Makes room at `p` and stores `v` there. */
    method ShiftIn(p: nat, v: T)
      requires Valid() && start <= p <= end < data.Length
      modifies this`end, this`contents, data
      ensures Valid() && end == old(end) + 1
      ensures contents == InsertAt(old(contents), p - start, v)
    {
      CopyBackward(p);
      data[p] := v;
      end := end + 1;
      IsInsertAt(data[start..end], contents, p - start, v);
      contents := data[start..end];
    }

    method Insert(v: T)
      requires Valid() && end < data.Length
      modifies this`end, this`contents, data
      ensures Valid() && end <= old(end) + 1
      ensures contents == InsertFirst(less, eq, old(contents), v)
    {
      ghost var q := FirstNotLess(less, contents, v);
      var it := start;
      while it < end
        invariant start <= it <= start + q
      {
        assert data[it] == contents[it - start];
        if !less(data[it], v) {
          assert it - start == q;
          if !eq(data[it], v) {
            ShiftIn(it, v);
          }
          return;
        }
        it := it + 1;
      }
      assert q == |contents|;
      ShiftIn(end, v);
    }

    method InsertNoDedup(v: T)
      requires Valid() && end < data.Length
      modifies this`end, this`contents, data
      ensures Valid() && end == old(end) + 1
      ensures contents == InsertKeep(less, old(contents), v)
    {
      var it := FirstGreater(less, data[start..end], v);
      ShiftIn(start + it, v);
    }

    /** The element a pointer between begin and end refers to. */
    method At(it: nat) returns (v: T)
      requires Valid() && start <= it < end
      ensures v == contents[it - start]
    {
      v := data[it];
    }

    method GetFront() returns (v: T)
      requires Valid() && start < end
      ensures v == contents[0]
    {
      v := data[start];
    }

    method PopFront() returns (v: T)
      requires Valid() && start < end
      modifies this`start, this`contents
      ensures Valid() && start == old(start) + 1
      ensures v == old(contents)[0] && contents == old(contents)[1..]
    {
      v := data[start];
      start := start + 1;
      contents := contents[1..];
    }

    /** Empties the set without giving the used slots back. */
    method Invalidate()
      requires Valid()
      modifies this`end, this`contents
      ensures Valid() && end == start && contents == []
    {
      end := start;
      contents := [];
    }
  }

  /** A comparison that looks at the keys first. */
  ghost predicate KeyOrder<T(!new)>(less: (Pair<T>, Pair<T>) -> bool) {
    forall a: Pair<T>, b: Pair<T> :: (a.key < b.key ==> less(a, b)) && (b.key < a.key ==> !less(a, b))
  }

  lemma {:induction false} MapOfInsert<T>(s: seq<Pair<T>>, p: nat, v: Pair<T>)
    requires p <= |s| && v.key !in MapOf(s)
    ensures MapOf(InsertAt(s, p, v)) == MapOf(s)[v.key := v.value]
  {
    if p == 0 {
      assert InsertAt(s, p, v)[1..] == s;
    } else {
      MapOfInsert(s[1..], p - 1, v);
      assert InsertAt(s, p, v)[1..] == InsertAt(s[1..], p - 1, v);
    }
  }

  lemma SortedInsert<T>(s: seq<Pair<T>>, p: nat, v: Pair<T>)
    requires p <= |s| && Sorted(s)
    requires forall i :: 0 <= i < p ==> s[i].key < v.key
    requires forall i :: p <= i < |s| ==> v.key < s[i].key
    ensures Sorted(InsertAt(s, p, v))
  {
    var t := InsertAt(s, p, v);
    assert forall i :: 0 <= i < p ==> t[i] == s[i];
    assert forall i :: p < i < |t| ==> t[i] == s[i - 1];
  }

  /** Keeping duplicates is a plain sorted insertion when the key is new. */
  lemma InsertKeepSorted<T(!new)>(less: (Pair<T>, Pair<T>) -> bool, s: seq<Pair<T>>, v: Pair<T>)
    requires KeyOrder(less) && Sorted(s) && v.key !in MapOf(s)
    ensures Sorted(InsertKeep(less, s, v))
    ensures MapOf(InsertKeep(less, s, v)) == MapOf(s)[v.key := v.value]
  {
    hide MapOf;
    hide InsertAt;
    MapOfAll(s);
    SortedInsert(s, FirstGreater(less, s, v), v);
    MapOfInsert(s, FirstGreater(less, s, v), v);
  }

  /** With key equality, insertion keeps the set sorted and an earlier change wins. */
  lemma InsertFirstSorted<T(!new)>(less: (Pair<T>, Pair<T>) -> bool, eq: (Pair<T>, Pair<T>) -> bool,
                             s: seq<Pair<T>>, v: Pair<T>)
    requires forall a: Pair<T>, b: Pair<T> :: less(a, b) == (a.key < b.key)
    requires forall a: Pair<T>, b: Pair<T> :: eq(a, b) == (a.key == b.key)
    requires Sorted(s)
    ensures Sorted(InsertFirst(less, eq, s, v))
    ensures MapOf(InsertFirst(less, eq, s, v)) ==
            if v.key in MapOf(s) then MapOf(s) else MapOf(s)[v.key := v.value]
  {
    hide MapOf;
    hide InsertAt;
    MapOfAll(s);
    var p := FirstNotLess(less, s, v);
    if p == |s| || !eq(s[p], v) {
      assert v.key !in MapOf(s);
      SortedInsert(s, p, v);
      MapOfInsert(s, p, v);
    }
  }
}
