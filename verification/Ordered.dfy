/** Sorted key/value arrays, the two standard searches over them, and the
    merge of a sorted array with a sorted set of pending changes.  Base leaf
    nodes, base inner nodes and the replay of a delta chain all work on these. */
module Ordered {
  import opened Options

  type Key = int

  datatype Pair<+T> = Pair(key: Key, value: T)

  ghost predicate Sorted<T>(s: seq<Pair<T>>) {
    forall i, j :: 0 <= i < j < |s| ==> s[i].key < s[j].key
  }

  /** The map a sorted array stands for. */
  ghost function MapOf<T>(s: seq<Pair<T>>): (m: map<Key, T>) {
    if s == [] then map[] else MapOf(s[1..])[s[0].key := s[0].value]
  }

  /** Every array entry is in the map. */
  lemma {:induction false} MapOfAt<T>(s: seq<Pair<T>>, i: nat)
    requires Sorted(s) && i < |s|
    ensures s[i].key in MapOf(s) && MapOf(s)[s[i].key] == s[i].value
  {
    if i > 0 { MapOfAt(s[1..], i - 1); }
  }

  /** Every key of the map is an array entry. */
  lemma {:induction false} MapOfIndex<T>(s: seq<Pair<T>>, k: Key) returns (i: nat)
    requires k in MapOf(s)
    ensures i < |s| && s[i].key == k
  {
    if s[0].key == k {
      i := 0;
    } else {
      var j := MapOfIndex(s[1..], k);
      i := j + 1;
    }
  }

  lemma MapOfAll<T>(s: seq<Pair<T>>)
    requires Sorted(s)
    ensures forall i :: 0 <= i < |s| ==> s[i].key in MapOf(s) && MapOf(s)[s[i].key] == s[i].value
    ensures forall k :: k in MapOf(s) ==> exists i :: 0 <= i < |s| && s[i].key == k
  {
    forall i | 0 <= i < |s|
      ensures s[i].key in MapOf(s) && MapOf(s)[s[i].key] == s[i].value
    {
      MapOfAt(s, i);
    }
    forall k | k in MapOf(s)
      ensures exists i :: 0 <= i < |s| && s[i].key == k
    {
      var i := MapOfIndex(s, k);
    }
  }

  lemma {:induction false} MapOfAbove<T>(s: seq<Pair<T>>, low: Key)
    requires forall i :: 0 <= i < |s| ==> low < s[i].key
    ensures forall k :: k in MapOf(s) ==> low < k
  {
    if s != [] { MapOfAbove(s[1..], low); }
  }

  ghost predicate SortedIn<T>(s: seq<Pair<T>>, lo: nat, hi: nat)
    requires lo <= hi <= |s|
  {
    forall i, j :: lo <= i < j < hi ==> s[i].key < s[j].key
  }

  /** First position in `[lo, hi)` whose key is not below `key`. */
  function LowerBound<T>(s: seq<Pair<T>>, lo: nat, hi: nat, key: Key): (r: nat)
    requires lo <= hi <= |s| && SortedIn(s, lo, hi)
    ensures lo <= r <= hi
    ensures forall i :: lo <= i < r ==> s[i].key < key
    ensures forall i :: r <= i < hi ==> key <= s[i].key
    decreases hi - lo
  {
    if lo == hi then lo
    else
      var mid := (lo + hi) / 2;
      if s[mid].key < key then LowerBound(s, mid + 1, hi, key)
      else LowerBound(s, lo, mid, key)
  }

  /** First position in `[lo, hi)` whose key is above `key`. */
  function UpperBound<T>(s: seq<Pair<T>>, lo: nat, hi: nat, key: Key): (r: nat)
    requires lo <= hi <= |s| && SortedIn(s, lo, hi)
    ensures lo <= r <= hi
    ensures forall i :: lo <= i < r ==> s[i].key <= key
    ensures forall i :: r <= i < hi ==> key < s[i].key
    decreases hi - lo
  {
    if lo == hi then lo
    else
      var mid := (lo + hi) / 2;
      if s[mid].key <= key then UpperBound(s, mid + 1, hi, key)
      else UpperBound(s, lo, mid, key)
  }

  /** A change waiting to be applied to a key, with the position hint stored in
      the delta record that carries it: `Some(v)` writes, `None` removes. */
  datatype Change<+T, +H> = Change(value: Option<T>, hint: H)

  /** The map obtained by applying every pending change to `m`. */
  ghost function Override<T, H>(m: map<Key, T>, p: map<Key, Change<T, H>>): (r: map<Key, T>)
    ensures forall k :: k in r <==> if k in p then p[k].value.Some? else k in m
    ensures forall k :: k in r ==> r[k] == if k in p then p[k].value.value else m[k]
  {
    map k | k in m.Keys + p.Keys && (k in p ==> p[k].value.Some?) ::
      if k in p then p[k].value.value else m[k]
  }

  function Written<T, H>(d: Pair<Change<T, H>>): seq<Pair<T>> {
    if d.value.value.Some? then [Pair(d.key, d.value.value.value)] else []
  }

  /** Merge of a sorted array with sorted changes; a change wins over an equal key. */
  ghost function MergeChanges<T, H>(a: seq<Pair<T>>, s: seq<Pair<Change<T, H>>>): (r: seq<Pair<T>>)
    decreases |a| + |s|
  {
    if s == [] then a
    else if a == [] then Written(s[0]) + MergeChanges(a, s[1..])
    else if a[0].key < s[0].key then [a[0]] + MergeChanges(a[1..], s)
    else if s[0].key < a[0].key then Written(s[0]) + MergeChanges(a, s[1..])
    else Written(s[0]) + MergeChanges(a[1..], s[1..])
  }

  /** Every key of the merge comes from one of the two inputs. */
  lemma {:induction false} MergeAbove<T, H>(a: seq<Pair<T>>, s: seq<Pair<Change<T, H>>>, low: Key)
    requires forall i :: 0 <= i < |a| ==> low < a[i].key
    requires forall i :: 0 <= i < |s| ==> low < s[i].key
    ensures forall i :: 0 <= i < |MergeChanges(a, s)| ==> low < MergeChanges(a, s)[i].key
    decreases |a| + |s|
  {
    if s == [] {
    } else if a == [] {
      MergeAbove(a, s[1..], low);
    } else if a[0].key < s[0].key {
      MergeAbove(a[1..], s, low);
    } else if s[0].key < a[0].key {
      MergeAbove(a, s[1..], low);
    } else {
      MergeAbove(a[1..], s[1..], low);
    }
  }

  lemma MapOfWritten<T, H>(d: Pair<Change<T, H>>, s: seq<Pair<T>>)
    ensures MapOf(Written(d) + s) == if d.value.value.Some? then MapOf(s)[d.key := d.value.value.value] else MapOf(s)
  {
    assert (Written(d) + s)[|Written(d)|..] == s;
  }

  lemma {:induction false} MergeSorted<T, H>(a: seq<Pair<T>>, s: seq<Pair<Change<T, H>>>)
    requires Sorted(a) && Sorted(s)
    ensures Sorted(MergeChanges(a, s))
    decreases |a| + |s|
  {
    if s == [] {
    } else if a == [] || s[0].key < a[0].key {
      MergeSorted(a, s[1..]);
      MergeAbove(a, s[1..], s[0].key);
    } else if a[0].key < s[0].key {
      MergeSorted(a[1..], s);
      MergeAbove(a[1..], s, a[0].key);
    } else {
      MergeSorted(a[1..], s[1..]);
      MergeAbove(a[1..], s[1..], s[0].key);
    }
  }

  lemma OverrideChange<T, H>(m: map<Key, T>, p: map<Key, Change<T, H>>, k: Key, c: Change<T, H>)
    requires k !in p
    ensures Override(m, p[k := c]) ==
            if c.value.Some? then Override(m - {k}, p)[k := c.value.value] else Override(m - {k}, p)
  {
  }

  lemma OverrideEntry<T, H>(m: map<Key, T>, p: map<Key, Change<T, H>>, k: Key, v: T)
    requires k !in p
    ensures Override(m[k := v], p) == Override(m, p)[k := v]
  {
  }

  lemma MapOfHead<T>(p: Pair<T>, s: seq<Pair<T>>)
    ensures MapOf([p] + s) == MapOf(s)[p.key := p.value]
  {
    assert ([p] + s)[1..] == s;
  }

  /** Putting an entry that no change touches in front. */
  lemma EntryInFront<T, H>(p: Pair<T>, rest: seq<Pair<T>>, a: seq<Pair<T>>, s: seq<Pair<Change<T, H>>>)
    requires Sorted(s) && (s != [] ==> p.key < s[0].key) && MapOf(rest) == Override(MapOf(a), MapOf(s))
    ensures MapOf([p] + rest) == Override(MapOf([p] + a), MapOf(s))
  {
    hide Override;
    MapOfHead(p, rest);
    MapOfHead(p, a);
    MapOfAbove(s, p.key);
    OverrideEntry(MapOf(a), MapOf(s), p.key, p.value);
  }

  /** The array behind a change at its front. */
  ghost function Behind<T, H>(a: seq<Pair<T>>, d: Pair<Change<T, H>>): seq<Pair<T>> {
    if a != [] && a[0].key == d.key then a[1..] else a
  }

  lemma BehindKeys<T, H>(a: seq<Pair<T>>, d: Pair<Change<T, H>>)
    requires Sorted(a) && (a != [] ==> d.key <= a[0].key)
    ensures Sorted(Behind(a, d)) && MapOf(a) - {d.key} == MapOf(Behind(a, d))
  {
    MapOfAbove(Behind(a, d), d.key);
  }

  /** Putting the outcome of a change in front. */
  lemma ChangeInFront<T, H>(d: Pair<Change<T, H>>, rest: seq<Pair<T>>, a: seq<Pair<T>>, s: seq<Pair<Change<T, H>>>)
    requires Sorted(a) && (a != [] ==> d.key <= a[0].key) && Sorted([d] + s)
    requires MapOf(rest) == Override(MapOf(Behind(a, d)), MapOf(s))
    ensures MapOf(Written(d) + rest) == Override(MapOf(a), MapOf([d] + s))
  {
    hide Override, Written, Behind;
    BehindKeys(a, d);
    MapOfHead(d, s);
    assert forall i :: 0 <= i < |s| ==> s[i] == ([d] + s)[i + 1];
    MapOfAbove(s, d.key);
    OverrideChange(MapOf(a), MapOf(s), d.key, d.value);
    MapOfWritten(d, rest);
  }

  lemma MergeUnfold<T, H>(a: seq<Pair<T>>, s: seq<Pair<Change<T, H>>>)
    requires s != []
    ensures MergeChanges(a, s) ==
      if a != [] && a[0].key < s[0].key then [a[0]] + MergeChanges(a[1..], s)
      else Written(s[0]) + MergeChanges(Behind(a, s[0]), s[1..])
  {
  }

  /** The merge stands for the overridden map. */
  lemma {:induction false} MergeCorrect<T, H>(a: seq<Pair<T>>, s: seq<Pair<Change<T, H>>>)
    requires Sorted(a) && Sorted(s)
    ensures Sorted(MergeChanges(a, s)) && MapOf(MergeChanges(a, s)) == Override(MapOf(a), MapOf(s))
    decreases |a| + |s|
  {
    MergeSorted(a, s);
    if s == [] {
      assert MapOf(s) == map[];
    } else if a != [] && a[0].key < s[0].key {
      MergeUnfold(a, s);
      MergeCorrect(a[1..], s);
      assert [a[0]] + a[1..] == a;
      EntryInFront(a[0], MergeChanges(a[1..], s), a[1..], s);
    } else {
      MergeUnfold(a, s);
      BehindKeys(a, s[0]);
      MergeCorrect(Behind(a, s[0]), s[1..]);
      assert [s[0]] + s[1..] == s;
      ChangeInFront(s[0], MergeChanges(Behind(a, s[0]), s[1..]), a, s[1..]);
    }
  }

  /** A block of array entries below every pending change is copied unchanged. */
  lemma {:induction false} MergeCopies<T, H>(a: seq<Pair<T>>, s: seq<Pair<Change<T, H>>>, n: nat)
    requires n <= |a| && forall i :: 0 <= i < n ==> s != [] ==> a[i].key < s[0].key
    ensures MergeChanges(a, s) == a[..n] + MergeChanges(a[n..], s)
  {
    if n > 0 && s != [] {
      MergeCopies(a[1..], s, n - 1);
      assert a[1..][n - 1..] == a[n..];
      assert a[..n] == [a[0]] + a[1..][..n - 1];
    } else if n > 0 {
      assert MergeChanges(a, s) == a && MergeChanges(a[n..], s) == a[n..];
    } else {
      assert a[n..] == a;
    }
  }

  lemma {:induction false} MapOfAppend<T>(a: seq<Pair<T>>, b: seq<Pair<T>>)
    ensures MapOf(a + b) == MapOf(b) + MapOf(a)
  {
    if a == [] {
      assert a + b == b;
    } else {
      MapOfAppend(a[1..], b);
      assert (a + b)[1..] == a[1..] + b;
    }
  }

  lemma {:induction false} MapOfAtMost<T>(s: seq<Pair<T>>, high: Key)
    requires forall i :: 0 <= i < |s| ==> s[i].key <= high
    ensures forall k :: k in MapOf(s) ==> k <= high
  {
    if s != [] { MapOfAtMost(s[1..], high); }
  }

  lemma SortedConcat<T>(a: seq<Pair<T>>, b: seq<Pair<T>>)
    requires Sorted(a) && Sorted(b)
    requires forall i, j :: 0 <= i < |a| && 0 <= j < |b| ==> a[i].key < b[j].key
    ensures Sorted(a + b)
  {
  }

  lemma UnionCommutes<T>(a: map<Key, T>, b: map<Key, T>, mid: Key)
    requires forall k :: k in a ==> k <= mid
    requires forall k :: k in b ==> mid < k
    ensures b + a == a + b
  {
    forall k | k in a
      ensures k !in b
    {
    }
    assert a.Keys !! b.Keys;
  }

  /** Joining sorted arrays joins the maps they stand for. */
  lemma MapOfConcat<T>(a: seq<Pair<T>>, b: seq<Pair<T>>)
    requires Sorted(a) && Sorted(b)
    requires forall i, j :: 0 <= i < |a| && 0 <= j < |b| ==> a[i].key < b[j].key
    ensures Sorted(a + b) && MapOf(a + b) == MapOf(a) + MapOf(b)
  {
    SortedConcat(a, b);
    MapOfAppend(a, b);
    if a == [] {
      assert MapOf(a) == map[];
    } else {
      ApartMaps(a, b);
    }
  }

  lemma ApartMaps<T>(a: seq<Pair<T>>, b: seq<Pair<T>>)
    requires Sorted(a) && a != [] && forall i, j :: 0 <= i < |a| && 0 <= j < |b| ==> a[i].key < b[j].key
    ensures MapOf(b) + MapOf(a) == MapOf(a) + MapOf(b)
  {
    var mid := a[|a| - 1].key;
    MapOfAtMost(a, mid);
    MapOfAbove(b, mid);
    UnionCommutes(MapOf(a), MapOf(b), mid);
  }
}
