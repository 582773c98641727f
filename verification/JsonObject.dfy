/** The members of a JSON object: slots in insertion order, indexed by a chained hash table. */
module JsonObjects {
  import opened Options

  type Key = string

  /** A slot; `next` is the following slot of its hash chain, -1 at the end, -2 once erased. */
  datatype Slot<V> = Slot(key: Key, value: V, next: int)

  predicate Live<V>(s: Slot<V>) { s.next > -2 }

  datatype Pair<V> = Pair(key: Key, value: V)

  /** The association list the slots stand for: the live ones in slot order. */
  ghost function Items<V>(os: seq<Slot<V>>): seq<Pair<V>> {
    if os == [] then [] else (if Live(os[0]) then [Pair(os[0].key, os[0].value)] else []) + Items(os[1..])
  }

  /** Following `next` from `start` visits exactly the slots `c`. */
  ghost predicate ChainIs<V>(os: seq<Slot<V>>, start: int, c: seq<nat>)
    decreases |c|
  {
    if c == [] then start == -1
    else start == c[0] && c[0] < |os| && Live(os[c[0]]) && ChainIs(os, os[c[0]].next, c[1..])
  }

  ghost predicate Increasing(c: seq<nat>) { forall i, j :: 0 <= i < j < |c| ==> c[i] < c[j] }

  /* Chains under changes. */

  ghost predicate SameNext<V>(os: seq<Slot<V>>, os': seq<Slot<V>>, c: seq<nat>) {
    forall i :: 0 <= i < |c| && c[i] < |os| ==> c[i] < |os'| && os'[c[i]].next == os[c[i]].next
  }

  lemma {:induction false} ChainFrame<V>(os: seq<Slot<V>>, os': seq<Slot<V>>, start: int, c: seq<nat>)
    requires ChainIs(os, start, c) && SameNext(os, os', c)
    ensures ChainIs(os', start, c)
    decreases |c|
  {
    if c != [] {
      ChainFrame(os, os', os[c[0]].next, c[1..]);
    }
  }

  /** What follows slot `x` in a chain may be replaced by rewriting `x`'s pointer. */
  lemma {:induction false} ChainSplice<V>(os: seq<Slot<V>>, os': seq<Slot<V>>, start: int, a: seq<nat>, x: nat,
      t: seq<nat>, t': seq<nat>)
    requires ChainIs(os, start, a + [x] + t) && SameNext(os, os', a)
    requires x < |os'| && Live(os'[x]) && ChainIs(os', os'[x].next, t')
    ensures ChainIs(os', start, a + [x] + t')
    decreases |a|
  {
    var c, c' := a + [x] + t, a + [x] + t';
    assert c'[0] == c[0];
    if a == [] {
      assert c[1..] == t && c'[1..] == t';
    } else {
      assert c[1..] == a[1..] + [x] + t && c'[1..] == a[1..] + [x] + t';
      ChainSplice(os, os', os[a[0]].next, a[1..], x, t, t');
    }
  }

  lemma {:induction false} ChainTail<V>(os: seq<Slot<V>>, start: int, a: seq<nat>, t: seq<nat>)
    requires ChainIs(os, start, a + t)
    ensures a == [] ==> ChainIs(os, start, t)
    ensures a != [] ==> a[|a| - 1] < |os| && ChainIs(os, os[a[|a| - 1]].next, t)
    decreases |a|
  {
    if a == [] {
      assert a + t == t;
    } else {
      assert (a + t)[1..] == a[1..] + t;
      ChainTail(os, os[a[0]].next, a[1..], t);
    }
  }

  lemma {:induction false} ChainMembers<V>(os: seq<Slot<V>>, start: int, c: seq<nat>)
    requires ChainIs(os, start, c)
    ensures forall i :: 0 <= i < |c| ==> c[i] < |os| && Live(os[c[i]])
    decreases |c|
  {
    if c != [] {
      ChainMembers(os, os[c[0]].next, c[1..]);
      assert forall i :: 1 <= i < |c| ==> c[i] == c[1..][i - 1];
    }
  }

  /* The association list under changes. */

  ghost predicate SameContents<V>(os: seq<Slot<V>>, os': seq<Slot<V>>) {
    |os| == |os'| && forall i :: 0 <= i < |os| ==>
        os'[i].key == os[i].key && os'[i].value == os[i].value && (Live(os'[i]) <==> Live(os[i]))
  }

  lemma {:induction false} ItemsSame<V>(os: seq<Slot<V>>, os': seq<Slot<V>>)
    requires SameContents(os, os')
    ensures Items(os') == Items(os)
  {
    if os != [] { ItemsSame(os[1..], os'[1..]); }
  }

  lemma {:induction false} ItemsConcat<V>(a: seq<Slot<V>>, b: seq<Slot<V>>)
    ensures Items(a + b) == Items(a) + Items(b)
  {
    if a == [] {
      assert a + b == b;
    } else {
      assert (a + b)[1..] == a[1..] + b;
      ItemsConcat(a[1..], b);
    }
  }

  /* The association list by itself. */

  /** The value of a key. */
  function Lookup<V>(l: seq<Pair<V>>, key: Key): Option<V> {
    if l == [] then None else if l[0].key == key then Some(l[0].value) else Lookup(l[1..], key)
  }

  /** A new key goes to the end; a key that is there keeps its place and its value. */
  function Put<V>(l: seq<Pair<V>>, key: Key, value: V): seq<Pair<V>> {
    if Lookup(l, key).Some? then l else l + [Pair(key, value)]
  }

  function Drop<V>(l: seq<Pair<V>>, key: Key): seq<Pair<V>> {
    if l == [] then [] else if l[0].key == key then l[1..] else [l[0]] + Drop(l[1..], key)
  }

  lemma {:induction false} LookupConcat<V>(a: seq<Pair<V>>, b: seq<Pair<V>>, key: Key)
    ensures Lookup(a + b, key) == if Lookup(a, key).Some? then Lookup(a, key) else Lookup(b, key)
  {
    if a == [] {
      assert a + b == b;
    } else {
      assert (a + b)[1..] == a[1..] + b;
      LookupConcat(a[1..], b, key);
    }
  }

  lemma {:induction false} DropSplit<V>(a: seq<Pair<V>>, p: Pair<V>, c: seq<Pair<V>>)
    requires Lookup(a, p.key).None?
    ensures Drop(a + [p] + c, p.key) == a + c
  {
    var l := a + [p] + c;
    if a == [] {
      assert l[0] == p && l[1..] == c;
    } else {
      assert l[0] == a[0] && l[1..] == a[1..] + [p] + c;
      DropSplit(a[1..], p, c);
    }
  }

  lemma {:induction false} DropMissing<V>(l: seq<Pair<V>>, key: Key)
    requires Lookup(l, key).None?
    ensures Drop(l, key) == l
  {
    if l != [] { DropMissing(l[1..], key); }
  }

  /** The list has no entry for a key exactly if no live slot has the key. */
  lemma {:induction false} LookupAbsent<V>(os: seq<Slot<V>>, key: Key)
    ensures Lookup(Items(os), key).None? <==> Absent(os, key)
  {
    if os != [] {
      var head := if Live(os[0]) then [Pair(os[0].key, os[0].value)] else [];
      LookupConcat(head, Items(os[1..]), key);
      LookupAbsent(os[1..], key);
      assert Absent(os, key) <==> !(Live(os[0]) && os[0].key == key) && Absent(os[1..], key);
    }
  }

  /** A live slot is what the list says about its key. */
  lemma LookupLive<V>(os: seq<Slot<V>>, p: nat)
    requires Distinct(os) && p < |os| && Live(os[p])
    ensures Lookup(Items(os[..p]), os[p].key).None?
    ensures Lookup(Items(os), os[p].key) == Some(os[p].value)
  {
    var key := os[p].key;
    var a, b, c := Items(os[..p]), [Pair(key, os[p].value)], Items(os[p + 1..]);
    ItemsSplit(os, p);
    LookupAbsent(os[..p], key);
    LookupConcat(a + b, c, key);
    LookupConcat(a, b, key);
  }

  /* The table. */

  /** The slots, the heads of the hash chains, and the chains themselves. */
  datatype Table<V> = Table(os: seq<Slot<V>>, hash: seq<int>, chains: seq<seq<nat>>)

  const TWO_64 := 0x1_0000_0000_0000_0000

  /** Bitwise conjunction of two numbers. */
  function And(x: nat, y: nat): (r: nat)
    ensures r <= y
    decreases y
  {
    if y == 0 then 0 else 2 * And(x / 2, y / 2) + x % 2 * (y % 2)
  }

  predicate PowerOfTwo(n: nat) { n == 1 || (n > 1 && n % 2 == 0 && PowerOfTwo(n / 2)) }

  /** The index of a key's chain: the hash code under the mask `buckets - 1`, in 64-bit arithmetic. */
  function BucketOf(hashcode: Key -> nat, buckets: nat, key: Key): (b: nat)
    ensures buckets > 0 ==> b < buckets
  {
    And(hashcode(key), if buckets == 0 then TWO_64 - 1 else buckets - 1)
  }

  lemma RemainderHalves(x: nat, m: nat)
    requires m > 0
    ensures x % (2 * m) == 2 * (x / 2 % m) + x % 2
  {
    var q, r := x / 2 / m, 2 * (x / 2 % m) + x % 2;
    assert x / 2 == q * m + x / 2 % m;
    assert x == q * (2 * m) + r && 0 <= r < 2 * m by {
      assert 2 * (q * m) == q * (2 * m);
    }
    RemainderIs(x, 2 * m, q, r);
  }

  lemma RemainderIs(x: nat, n: nat, q: int, r: nat)
    requires n > 0 && x == q * n + r && r < n
    ensures x % n == r
  {
    var d := q - x / n;
    assert d * n == x % n - r by { assert d * n == q * n - x / n * n; }
    assert d >= 1 ==> d * n >= n;
    assert d <= -1 ==> d * n <= -1 * n;
  }

  /** For a power of two the mask is the remainder. */
  lemma {:induction false} MaskIsRemainder(x: nat, n: nat)
    requires PowerOfTwo(n)
    ensures And(x, n - 1) == x % n
  {
    if n > 1 {
      MaskIsRemainder(x / 2, n / 2);
      RemainderHalves(x, n / 2);
      assert (n - 1) / 2 == n / 2 - 1 && (n - 1) % 2 == 1;
    }
  }

  /** The index lies in the hash array if and only if there is one; then every chain is used, as the
      index is the remainder of the hash code. */
  lemma BucketInside(hashcode: Key -> nat, buckets: nat, key: Key)
    requires buckets == 0 || PowerOfTwo(buckets)
    ensures BucketOf(hashcode, buckets, key) < buckets <==> buckets != 0
    ensures buckets != 0 ==> BucketOf(hashcode, buckets, key) == hashcode(key) % buckets
  {
    if buckets != 0 { MaskIsRemainder(hashcode(key), buckets); }
  }

  /** Chain `b` starts in `hash[b]`, ascends, and holds only live slots of bucket `b`. */
  ghost predicate BucketOk<V>(hashcode: Key -> nat, t: Table<V>, b: nat)
    requires b < |t.hash| == |t.chains|
  {
    && ChainIs(t.os, t.hash[b], t.chains[b]) && Increasing(t.chains[b])
    && forall i :: 0 <= i < |t.chains[b]| ==>
         t.chains[b][i] < |t.os| && Live(t.os[t.chains[b][i]]) &&
             BucketOf(hashcode, |t.hash|, t.os[t.chains[b][i]].key) == b
  }

  ghost predicate SlotOk<V>(hashcode: Key -> nat, t: Table<V>, i: nat)
    requires i < |t.os| && |t.hash| == |t.chains|
  {
    && t.os[i].next >= -2
    && (Live(t.os[i]) ==> |t.hash| > 0 && i in t.chains[BucketOf(hashcode, |t.hash|, t.os[i].key)])
  }

  ghost predicate Distinct<V>(os: seq<Slot<V>>) {
    forall i, j :: 0 <= i < j < |os| && Live(os[i]) && Live(os[j]) ==> os[i].key != os[j].key
  }

  ghost predicate Indexed<V>(hashcode: Key -> nat, t: Table<V>) {
    && |t.hash| == |t.chains|
    && (forall b :: 0 <= b < |t.hash| ==> BucketOk(hashcode, t, b))
    && (forall i :: 0 <= i < |t.os| ==> SlotOk(hashcode, t, i))
    && Distinct(t.os)
  }

  /** Writing a chain pointer: the head of a chain, or the pointer of the slot before. */
  function PutLink<V>(t: Table<V>, b: nat, prev: int, target: int): Table<V>
    requires b < |t.hash| && prev < |t.os|
  {
    if prev < 0 then t.(hash := t.hash[b := target])
    else t.(os := t.os[prev := t.os[prev].(next := target)])
  }

  /** Appending a slot for a new key at the end of its chain. */
  ghost function Appended<V>(t: Table<V>, b: nat, prev: int, key: Key, value: V): Table<V>
    requires b < |t.hash| == |t.chains| && prev < |t.os|
  {
    var u := PutLink(t, b, prev, |t.os|);
    Table(u.os + [Slot(key, value, -1)], u.hash, t.chains[b := t.chains[b] + [|t.os|]])
  }

  /** `prev` is the last slot of chain `b`, or negative when the chain is empty. */
  ghost predicate AtEnd<V>(t: Table<V>, b: nat, prev: int)
    requires b < |t.chains|
  {
    if t.chains[b] == [] then prev < 0 else prev == t.chains[b][|t.chains[b]| - 1]
  }

  lemma AppendedChain<V>(hashcode: Key -> nat, t: Table<V>, b: nat, prev: int, key: Key, value: V)
    requires Indexed(hashcode, t) && b < |t.hash| && prev < |t.os| && AtEnd(t, b, prev)
    ensures var t' := Appended(t, b, prev, key, value); ChainIs(t'.os, t'.hash[b], t.chains[b] + [|t.os|])
  {
    var t', c := Appended(t, b, prev, key, value), t.chains[b];
    assert BucketOk(hashcode, t, b);
    ChainMembers(t.os, t.hash[b], c);
    var n := |t.os|;
    assert [n][1..] == [];
    assert ChainIs(t'.os, -1, []);
    assert ChainIs(t'.os, n, [n]);
    if c == [] {
      assert c + [n] == [n];
    } else {
      var a := c[..|c| - 1];
      assert c == a + [prev] + [] && c + [n] == a + [prev] + [n];
      forall i | 0 <= i < |a| && a[i] < |t.os|
        ensures a[i] < |t'.os| && t'.os[a[i]].next == t.os[a[i]].next
      {
        assert c[i] < c[|c| - 1];
      }
      ChainSplice(t.os, t'.os, t.hash[b], a, prev, [], [n]);
    }
  }

  ghost predicate Absent<V>(os: seq<Slot<V>>, key: Key) { forall i :: 0 <= i < |os| && Live(os[i]) ==>
      os[i].key != key }

  /** Slots on different chains are different slots. */
  lemma ChainsApart<V>(hashcode: Key -> nat, t: Table<V>, b: nat, d: nat, i: nat, j: nat)
    requires Indexed(hashcode, t) && b < |t.hash| && d < |t.hash| && b != d && i < |t.chains[b]| && j < |t.chains[d]|
    ensures t.chains[b][i] != t.chains[d][j]
  {
    assert BucketOk(hashcode, t, b) && BucketOk(hashcode, t, d);
  }

  lemma AppendedElsewhere<V>(hashcode: Key -> nat, t: Table<V>, b: nat, prev: int, key: Key, value: V, d: nat)
    requires Indexed(hashcode, t) && b < |t.hash| && prev < |t.os| && AtEnd(t, b, prev) && d < |t.hash| && d != b
    ensures var t' := Appended(t, b, prev, key, value); ChainIs(t'.os, t'.hash[d], t.chains[d])
  {
    hide BucketOf;
    var t', c := Appended(t, b, prev, key, value), t.chains[d];
    assert BucketOk(hashcode, t, b) && BucketOk(hashcode, t, d);
    forall i | 0 <= i < |c| && c[i] < |t.os|
      ensures c[i] < |t'.os| && t'.os[c[i]].next == t.os[c[i]].next
    {
      if t.chains[b] != [] { ChainsApart(hashcode, t, b, d, |t.chains[b]| - 1, i); }
    }
    ChainFrame(t.os, t'.os, t.hash[d], c);
  }

  lemma AppendedBucket<V>(hashcode: Key -> nat, t: Table<V>, b: nat, prev: int, key: Key, value: V, d: nat)
    requires Indexed(hashcode, t) && b < |t.hash| && prev < |t.os| && AtEnd(t, b, prev) && d < |t.hash|
    requires BucketOf(hashcode, |t.hash|, key) == b
    ensures BucketOk(hashcode, Appended(t, b, prev, key, value), d)
  {
    hide ChainIs, BucketOf;
    assert BucketOk(hashcode, t, b) && BucketOk(hashcode, t, d);
    if d == b {
      AppendedChain(hashcode, t, b, prev, key, value);
    } else {
      AppendedElsewhere(hashcode, t, b, prev, key, value, d);
    }
  }

  /** A key that is not there yet is appended to the list, and the index stays right. */
  lemma AppendedIndexed<V>(hashcode: Key -> nat, t: Table<V>, b: nat, prev: int, key: Key, value: V)
    requires Indexed(hashcode, t) && b < |t.hash| && prev < |t.os| && AtEnd(t, b, prev)
    requires BucketOf(hashcode, |t.hash|, key) == b && Absent(t.os, key)
    ensures Indexed(hashcode, Appended(t, b, prev, key, value))
    ensures Items(Appended(t, b, prev, key, value).os) == Items(t.os) + [Pair(key, value)]
  {
    var t' := Appended(t, b, prev, key, value);
    var n := |t.os|;
    forall d | 0 <= d < |t'.hash|
      ensures BucketOk(hashcode, t', d)
    {
      AppendedBucket(hashcode, t, b, prev, key, value, d);
    }
    AppendedSlots(hashcode, t, b, prev, key, value);
    var u := t'.os[..n];
    assert SameContents(t.os, u);
    ItemsSame(t.os, u);
    assert t'.os == u + [Slot(key, value, -1)];
    ItemsConcat(u, [Slot(key, value, -1)]);
    ItemsOne(Slot(key, value, -1));
  }

  lemma AppendedSlots<V>(hashcode: Key -> nat, t: Table<V>, b: nat, prev: int, key: Key, value: V)
    requires Indexed(hashcode, t) && b < |t.hash| && prev < |t.os| && AtEnd(t, b, prev)
    requires BucketOf(hashcode, |t.hash|, key) == b && Absent(t.os, key)
    ensures var t' := Appended(t, b, prev, key, value);
            && SameContents(t.os, t'.os[..|t.os|])
            && (forall i :: 0 <= i < |t'.os| ==> SlotOk(hashcode, t', i)) && Distinct(t'.os)
  {
    hide ChainIs, BucketOf;
    var t' := Appended(t, b, prev, key, value);
    var n := |t.os|;
    assert prev >= 0 ==> Live(t.os[prev]) by {
      if prev >= 0 { assert BucketOk(hashcode, t, b); }
    }
    forall i | 0 <= i < |t'.os|
      ensures SlotOk(hashcode, t', i)
    {
      if i < n {
        assert SlotOk(hashcode, t, i);
      } else {
        assert (t.chains[b] + [n])[|t.chains[b]|] == n;
      }
    }
  }

  /* Erasing. */

  ghost function Without(c: seq<nat>, k: nat): seq<nat>
    requires k < |c|
  {
    c[..k] + c[k + 1..]
  }

  /** Taking the slot at place `k` of chain `b` out of the chain and marking it erased. */
  ghost function Erased<V>(t: Table<V>, b: nat, k: nat): Table<V>
    requires b < |t.hash| == |t.chains| && k < |t.chains[b]| && t.chains[b][k] < |t.os|
    requires k > 0 ==> t.chains[b][k - 1] < |t.os|
  {
    var p := t.chains[b][k];
    var u := PutLink(t, b, if k == 0 then -1 else t.chains[b][k - 1], t.os[p].next);
    Table(u.os[p := u.os[p].(next := -2)], u.hash, t.chains[b := Without(t.chains[b], k)])
  }

  /** What follows the erased slot is still a chain. */
  lemma ErasedTail<V>(hashcode: Key -> nat, t: Table<V>, b: nat, k: nat)
    requires Indexed(hashcode, t) && b < |t.hash| && k < |t.chains[b]|
    requires forall i :: 0 <= i < |t.chains[b]| ==> t.chains[b][i] < |t.os|
    ensures ChainIs(Erased(t, b, k).os, t.os[t.chains[b][k]].next, t.chains[b][k + 1..])
  {
    assert BucketOk(hashcode, t, b);
    var t', c := Erased(t, b, k), t.chains[b];
    var d := c[k + 1..];
    assert c == c[..k + 1] + d && c[..k + 1][k] == c[k];
    ChainTail(t.os, t.hash[b], c[..k + 1], d);
    forall i | 0 <= i < |d| && d[i] < |t.os|
      ensures d[i] < |t'.os| && t'.os[d[i]].next == t.os[d[i]].next
    {
      assert d[i] == c[k + 1 + i] && c[k] < d[i] && (k > 0 ==> c[k - 1] < d[i]);
    }
    hide Erased;
    ChainFrame(t.os, t'.os, t.os[c[k]].next, d);
  }

  lemma ErasedChain<V>(hashcode: Key -> nat, t: Table<V>, b: nat, k: nat)
    requires Indexed(hashcode, t) && b < |t.hash| && k < |t.chains[b]|
    requires forall i :: 0 <= i < |t.chains[b]| ==> t.chains[b][i] < |t.os|
    ensures var t' := Erased(t, b, k); ChainIs(t'.os, t'.hash[b], Without(t.chains[b], k))
  {
    assert BucketOk(hashcode, t, b);
    var t', c := Erased(t, b, k), t.chains[b];
    var p, d := c[k], c[k + 1..];
    ErasedTail(hashcode, t, b, k);
    hide ChainIs;
    if k == 0 {
      assert Without(c, k) == d;
    } else {
      NextLive(t.os, t.hash[b], c, k);
      ErasedSplice(t.os, t'.os, t.hash[b], c, k);
    }
  }

  lemma ErasedSplice<V>(os: seq<Slot<V>>, os': seq<Slot<V>>, start: int, c: seq<nat>, k: nat)
    requires ChainIs(os, start, c) && 0 < k < |c| && Increasing(c) && |os'| == |os|
    requires forall i :: 0 <= i < |c| ==> c[i] < |os|
    requires os[c[k]].next >= -1 && os'[c[k - 1]].next == os[c[k]].next && ChainIs(os', os[c[k]].next, c[k + 1..])
    requires forall i :: 0 <= i < |os| && i != c[k - 1] && i != c[k] ==> os'[i] == os[i]
    ensures ChainIs(os', start, Without(c, k))
  {
    hide ChainIs;
    var a, prev, d := c[..k - 1], c[k - 1], c[k + 1..];
    assert c == a + [prev] + ([c[k]] + d) && Without(c, k) == a + [prev] + d;
    forall i | 0 <= i < |a| && a[i] < |os|
      ensures a[i] < |os'| && os'[a[i]].next == os[a[i]].next
    {
      assert c[i] < c[k - 1] < c[k];
    }
    ChainSplice(os, os', start, a, prev, [c[k]] + d, d);
  }

  lemma ErasedBucket<V>(hashcode: Key -> nat, t: Table<V>, b: nat, k: nat, d: nat)
    requires Indexed(hashcode, t) && b < |t.hash| && k < |t.chains[b]| && d < |t.hash|
    requires forall i :: 0 <= i < |t.chains[b]| ==> t.chains[b][i] < |t.os|
    ensures BucketOk(hashcode, Erased(t, b, k), d)
  {
    var t' := Erased(t, b, k);
    assert BucketOk(hashcode, t, b) && BucketOk(hashcode, t, d);
    if d == b {
      ErasedChain(hashcode, t, b, k);
      ErasedMembers(hashcode, t, b, k);
    } else {
      var c := t.chains[d];
      forall i | 0 <= i < |c| && c[i] < |t.os|
        ensures c[i] < |t'.os| && t'.os[c[i]] == t.os[c[i]]
      {
        ChainsApart(hashcode, t, b, d, k, i);
        if k > 0 { ChainsApart(hashcode, t, b, d, k - 1, i); }
      }
      ChainFrame(t.os, t'.os, t.hash[d], c);
    }
  }

  lemma ErasedMembers<V>(hashcode: Key -> nat, t: Table<V>, b: nat, k: nat)
    requires Indexed(hashcode, t) && b < |t.hash| && k < |t.chains[b]|
    requires forall i :: 0 <= i < |t.chains[b]| ==> t.chains[b][i] < |t.os|
    ensures var t', c := Erased(t, b, k), Without(t.chains[b], k);
            && Increasing(c)
            && forall i :: 0 <= i < |c| ==>
                c[i] < |t'.os| && Live(t'.os[c[i]]) && BucketOf(hashcode, |t'.hash|, t'.os[c[i]].key) == b
  {
    assert BucketOk(hashcode, t, b);
    var t', c, o := Erased(t, b, k), Without(t.chains[b], k), t.chains[b];
    forall i | 0 <= i < |c|
      ensures c[i] == o[if i < k then i else i + 1] && c[i] != o[k]
    {
      assert if i < k then o[i] < o[k] else o[k] < o[i + 1];
    }
    NextLive(t.os, t.hash[b], o, k);
  }

  /** The pointer of a live slot on a chain is never the mark of an erased one. */
  lemma {:induction false} NextLive<V>(os: seq<Slot<V>>, start: int, c: seq<nat>, k: nat)
    requires ChainIs(os, start, c) && k < |c|
    ensures c[k] < |os| && os[c[k]].next >= -1
    decreases |c|
  {
    if k > 0 {
      NextLive(os, os[c[0]].next, c[1..], k - 1);
    } else if c[1..] != [] {
      assert ChainIs(os, os[c[0]].next, c[1..]);
    }
  }

  lemma ErasedSlots<V>(hashcode: Key -> nat, t: Table<V>, b: nat, k: nat)
    requires Indexed(hashcode, t) && b < |t.hash| && k < |t.chains[b]|
    requires forall i :: 0 <= i < |t.chains[b]| ==> t.chains[b][i] < |t.os|
    ensures var t', p := Erased(t, b, k), t.chains[b][k];
            && |t'.os| == |t.os| && !Live(t'.os[p]) && Live(t.os[p])
            && (forall i :: 0 <= i < |t.os| && i != p ==>
                  t'.os[i].key == t.os[i].key && t'.os[i].value == t.os[i].value &&
                      (Live(t'.os[i]) <==> Live(t.os[i])) && t'.os[i].next >= -2)
  {
    assert BucketOk(hashcode, t, b);
    NextLive(t.os, t.hash[b], t.chains[b], k);
    hide ChainIs, BucketOf;
    forall i | 0 <= i < |t.os|
      ensures t.os[i].next >= -2
    {
      assert SlotOk(hashcode, t, i);
    }
  }

  lemma InWithout(c: seq<nat>, k: nat, s: nat)
    requires k < |c| && s in c && s != c[k]
    ensures s in Without(c, k)
  {
    var i :| 0 <= i < |c| && c[i] == s;
    assert Without(c, k)[if i < k then i else i - 1] == s;
  }

  lemma ErasedSlotsOk<V>(hashcode: Key -> nat, t: Table<V>, b: nat, k: nat)
    requires Indexed(hashcode, t) && b < |t.hash| && k < |t.chains[b]|
    requires forall i :: 0 <= i < |t.chains[b]| ==> t.chains[b][i] < |t.os|
    ensures var t' := Erased(t, b, k); (forall i :: 0 <= i < |t'.os| ==> SlotOk(hashcode, t', i)) && Distinct(t'.os)
  {
    ErasedSlots(hashcode, t, b, k);
    hide ChainIs, BucketOk, Without;
    var t', p := Erased(t, b, k), t.chains[b][k];
    assert t'.os[p].next == -2;
    forall i | 0 <= i < |t'.os|
      ensures SlotOk(hashcode, t', i)
    {
      assert SlotOk(hashcode, t, i);
      if i != p && Live(t.os[i]) && BucketOf(hashcode, |t.hash|, t.os[i].key) == b { InWithout(t.chains[b], k, i); }
    }
  }

  lemma ItemsOne<V>(s: Slot<V>)
    ensures Items([s]) == if Live(s) then [Pair(s.key, s.value)] else []
  {
    var one := [s];
    assert one[1..] == [];
  }

  lemma ItemsThree<V>(a: seq<Slot<V>>, b: seq<Slot<V>>, c: seq<Slot<V>>)
    ensures Items(a + b + c) == Items(a) + Items(b) + Items(c)
  {
    hide Items;
    ItemsConcat(a + b, c);
    ItemsConcat(a, b);
  }

  lemma Around<V>(os: seq<Slot<V>>, p: nat)
    requires p < |os|
    ensures os == os[..p] + [os[p]] + os[p + 1..]
  {
  }

  lemma ItemsSplit<V>(os: seq<Slot<V>>, p: nat)
    requires p < |os|
    ensures Items(os) == Items(os[..p]) + (if Live(os[p]) then [Pair(os[p].key, os[p].value)] else []) +
      Items(os[p + 1..])
  {
    var a, b, c := os[..p], [os[p]], os[p + 1..];
    Around(os, p);
    ItemsThree(a, b, c);
    ItemsOne(os[p]);
  }

  lemma ItemsErased<V>(os: seq<Slot<V>>, os': seq<Slot<V>>, p: nat)
    requires p < |os| == |os'| && !Live(os'[p])
    requires forall i :: 0 <= i < |os| && i != p ==>
      os'[i].key == os[i].key && os'[i].value == os[i].value && (Live(os'[i]) <==> Live(os[i]))
    ensures Items(os') == Items(os[..p]) + Items(os[p + 1..])
  {
    hide Items;
    ItemsSame(os[..p], os'[..p]);
    ItemsSame(os[p + 1..], os'[p + 1..]);
    ItemsSplit(os', p);
  }

  /** Erasing a slot takes just its entry out of the list, and the index stays right. */
  lemma ErasedIndexed<V>(hashcode: Key -> nat, t: Table<V>, b: nat, k: nat)
    requires Indexed(hashcode, t) && b < |t.hash| && k < |t.chains[b]|
    requires forall i :: 0 <= i < |t.chains[b]| ==> t.chains[b][i] < |t.os|
    ensures Indexed(hashcode, Erased(t, b, k))
    ensures var p := t.chains[b][k];
            && Items(Erased(t, b, k).os) == Items(t.os[..p]) + Items(t.os[p + 1..])
            && Items(t.os) == Items(t.os[..p]) + [Pair(t.os[p].key, t.os[p].value)] + Items(t.os[p + 1..])
  {
    var t', p := Erased(t, b, k), t.chains[b][k];
    forall d | 0 <= d < |t'.hash|
      ensures BucketOk(hashcode, t', d)
    {
      ErasedBucket(hashcode, t, b, k, d);
    }
    ErasedSlotsOk(hashcode, t, b, k);
    ErasedSlots(hashcode, t, b, k);
    hide Erased, Indexed, BucketOk, SlotOk;
    ItemsErased(t.os, t'.os, p);
    ItemsSplit(t.os, p);
  }

  /* Rehashing. */

  /** All live slots from `i` on are on the new chains, and nothing else is. */
  ghost predicate Rehashed<V>(hashcode: Key -> nat, t: Table<V>, i: nat) {
    && |t.hash| == |t.chains| && |t.hash| > 0 && i <= |t.os|
    && (forall b :: 0 <= b < |t.hash| ==> BucketOk(hashcode, t, b) && forall k :: 0 <= k < |t.chains[b]| ==>
        i <= t.chains[b][k])
    && (forall s :: i <= s < |t.os| ==> SlotOk(hashcode, t, s))
  }

  /** The slot before is put in front of its chain. */
  ghost function Fronted<V>(hashcode: Key -> nat, t: Table<V>, i: nat): Table<V>
    requires i < |t.os| && |t.hash| == |t.chains| && |t.hash| > 0
  {
    var b := BucketOf(hashcode, |t.hash|, t.os[i].key);
    Table(t.os[i := t.os[i].(next := t.hash[b])], t.hash[b := i], t.chains[b := [i] + t.chains[b]])
  }

  lemma FrontedBucket<V>(hashcode: Key -> nat, t: Table<V>, i: nat, d: nat)
    requires i < |t.os| && Rehashed(hashcode, t, i + 1) && Live(t.os[i]) && d < |t.hash|
    ensures var t' := Fronted(hashcode, t, i); BucketOk(hashcode, t', d) && forall k :: 0 <= k < |t'.chains[d]| ==>
      i <= t'.chains[d][k]
  {
    var t', b, c := Fronted(hashcode, t, i), BucketOf(hashcode, |t.hash|, t.os[i].key), t.chains[d];
    assert BucketOk(hashcode, t, d);
    assert BucketOk(hashcode, t, b);
    HeadLive(t.os, t.hash[b], t.chains[b]);
    forall k | 0 <= k < |c| && c[k] < |t.os|
      ensures c[k] < |t'.os| && t'.os[c[k]] == t.os[c[k]]
    {
    }
    ChainFrame(t.os, t'.os, t.hash[d], c);
    if d == b {
      assert t'.chains[d][1..] == c;
    }
  }

  lemma HeadLive<V>(os: seq<Slot<V>>, start: int, c: seq<nat>)
    requires ChainIs(os, start, c)
    ensures start >= -1
  {
  }

  lemma FrontedOk<V>(hashcode: Key -> nat, t: Table<V>, i: nat)
    requires i < |t.os| && Rehashed(hashcode, t, i + 1) && Live(t.os[i])
    ensures Rehashed(hashcode, Fronted(hashcode, t, i), i) && SameContents(t.os, Fronted(hashcode, t, i).os)
  {
    var t', b := Fronted(hashcode, t, i), BucketOf(hashcode, |t.hash|, t.os[i].key);
    forall d | 0 <= d < |t'.hash|
      ensures BucketOk(hashcode, t', d) && forall k :: 0 <= k < |t'.chains[d]| ==> i <= t'.chains[d][k]
    {
      FrontedBucket(hashcode, t, i, d);
    }
    assert BucketOk(hashcode, t, b);
    HeadLive(t.os, t.hash[b], t.chains[b]);
    hide ChainIs, BucketOk;
    forall s | i <= s < |t'.os|
      ensures SlotOk(hashcode, t', s)
    {
      if s > i { assert SlotOk(hashcode, t, s); } else { assert ([i] + t.chains[b])[0] == i; }
    }
  }

  /** A key that is on no slot of its own chain is on no live slot at all. */
  lemma AbsentFromChain<V>(hashcode: Key -> nat, t: Table<V>, key: Key)
    requires Indexed(hashcode, t) && |t.hash| > 0
    requires var c := t.chains[BucketOf(hashcode, |t.hash|, key)]; forall k :: 0 <= k < |c| && c[k] < |t.os| ==>
      t.os[c[k]].key != key
    ensures Absent(t.os, key)
  {
    forall i | 0 <= i < |t.os| && Live(t.os[i])
      ensures t.os[i].key != key
    {
      assert SlotOk(hashcode, t, i);
    }
  }

  /** Without a hash array there are no live slots. */
  lemma NothingWithoutHash<V>(hashcode: Key -> nat, t: Table<V>, key: Key)
    requires Indexed(hashcode, t) && t.hash == []
    ensures Absent(t.os, key)
  {
    forall i | 0 <= i < |t.os|
      ensures !Live(t.os[i])
    {
      assert SlotOk(hashcode, t, i);
    }
  }

  lemma StepDown<V>(hashcode: Key -> nat, t: Table<V>, b: nat, k: nat)
    requires Indexed(hashcode, t) && b < |t.hash| && k <= |t.chains[b]|
    ensures k < |t.chains[b]| ==>
      t.chains[b][k] < |t.os| && t.os[t.chains[b][k]].next == if k + 1 < |t.chains[b]| then t.chains[b][k + 1] else -1
    ensures t.hash[b] == if t.chains[b] == [] then -1 else t.chains[b][0]
    ensures forall i :: 0 <= i < |t.chains[b]| ==> t.chains[b][i] < |t.os|
  {
    assert BucketOk(hashcode, t, b);
    if k < |t.chains[b]| { ChainNext(t.os, t.hash[b], t.chains[b], k); }
  }

  lemma {:induction false} ChainNext<V>(os: seq<Slot<V>>, start: int, c: seq<nat>, k: nat)
    requires ChainIs(os, start, c) && k < |c|
    ensures c[k] < |os| && os[c[k]].next == if k + 1 < |c| then c[k + 1] else -1
    decreases |c|
  {
    if k > 0 {
      ChainNext(os, os[c[0]].next, c[1..], k - 1);
    } else {
      assert ChainIs(os, os[c[0]].next, c[1..]);
    }
  }

  /** A fresh hash array over slots none of which is live. */
  lemma FreshHash<V>(hashcode: Key -> nat, t: Table<V>, n: nat)
    requires Indexed(hashcode, t) && t.hash == []
    ensures Indexed(hashcode, Table(t.os, seq(n, _ => -1), seq(n, _ => [])))
  {
    var t' := Table(t.os, seq(n, _ => -1), seq(n, _ => []));
    forall i | 0 <= i < |t.os|
      ensures SlotOk(hashcode, t', i)
    {
      assert SlotOk(hashcode, t, i);
    }
  }

  lemma RehashedIndexed<V>(hashcode: Key -> nat, t: Table<V>)
    requires Rehashed(hashcode, t, 0) && Distinct(t.os)
    ensures Indexed(hashcode, t)
  {
  }

  lemma DistinctSame<V>(os: seq<Slot<V>>, os': seq<Slot<V>>)
    requires SameContents(os, os') && Distinct(os)
    ensures Distinct(os')
  {
  }

  lemma SameContentsTrans<V>(a: seq<Slot<V>>, b: seq<Slot<V>>, c: seq<Slot<V>>)
    requires SameContents(a, b) && SameContents(b, c)
    ensures SameContents(a, c)
  {
  }

  /** What erasing a key comes to. */
  datatype Erasure = OutOfBounds | Count(n: nat)

  class ObjectJson<V> {
    const hashcode: Key -> nat
    var os: seq<Slot<V>>
    var capacity: nat
    var hash: seq<int>
    var size: nat
    ghost var chains: seq<seq<nat>>

    ghost function Index(): Table<V> reads this { Table(os, hash, chains) }

    ghost predicate Valid() reads this {
      && Indexed(hashcode, Index()) && size == |Items(os)| && |os| <= capacity
      && (hash == [] || PowerOfTwo(|hash|))
    }

    constructor (hashcode: Key -> nat)
      ensures Valid() && Items(os) == [] && hash == [] && this.hashcode == hashcode
    {
      this.hashcode := hashcode;
      os, capacity, hash, size, chains := [], 0, [], 0, [];
    }

    /** The slot of a key, or -1. */
    method Find(key: Key) returns (p: int)
      requires Valid()
      ensures -1 <= p < |os| && (p >= 0 ==> Live(os[p]) && os[p].key == key)
      ensures Lookup(Items(os), key) == if p < 0 then None else Some(os[p].value)
    {
      LookupAbsent(os, key);
      if hash == [] {
        NothingWithoutHash(hashcode, Index(), key);
        return -1;
      }
      var b := BucketOf(hashcode, |hash|, key);
      ghost var k: nat := 0;
      StepDown(hashcode, Index(), b, 0);
      p := hash[b];
      while p >= 0
        invariant k <= |chains[b]| && p == if k < |chains[b]| then chains[b][k] else -1
        invariant forall i :: 0 <= i < k ==> chains[b][i] < |os| && os[chains[b][i]].key != key
        decreases |chains[b]| - k
      {
        StepDown(hashcode, Index(), b, k);
        if os[p].key == key {
          assert BucketOk(hashcode, Index(), b);
          LookupLive(os, p);
          return;
        }
        p := os[p].next;
        k := k + 1;
      }
      AbsentFromChain(hashcode, Index(), key);
    }

    /** Walks a key's chain to the slot of the key, or to the chain's end; `prev` is the slot before. */
    method Walk(key: Key, b: nat) returns (prev: int, p: int, chain: nat, ghost k: nat)
      requires Indexed(hashcode, Index()) && |hash| > 0 && b == BucketOf(hashcode, |hash|, key)
      ensures k <= |chains[b]| && prev == (if k == 0 then -1 else chains[b][k - 1]) && prev < |os|
      ensures p >= 0 ==> k < |chains[b]| && p == chains[b][k] && p < |os| && os[p].key == key && Live(os[p])
      ensures p < 0 ==> k == |chains[b]| && AtEnd(Index(), b, prev) && Absent(os, key)
      ensures forall i :: 0 <= i < |chains[b]| ==> chains[b][i] < |os|
    {
      StepDown(hashcode, Index(), b, 0);
      prev, p, chain, k := -1, hash[b], 0, 0;
      while p >= 0 && os[p].key != key
        invariant k <= |chains[b]| && p == if k < |chains[b]| then chains[b][k] else -1
        invariant prev == if k == 0 then -1 else chains[b][k - 1]
        invariant forall i :: 0 <= i < k ==> chains[b][i] < |os| && os[chains[b][i]].key != key
        decreases |chains[b]| - k
      {
        StepDown(hashcode, Index(), b, k);
        prev := p;
        p := os[p].next;
        chain := chain + 1;
        k := k + 1;
      }
      if p < 0 {
        AbsentFromChain(hashcode, Index(), key);
      } else {
        assert BucketOk(hashcode, Index(), b);
      }
    }

    method Grow()
      requires |os| <= capacity
      modifies this`capacity
      ensures |os| < capacity
    {
      capacity := if capacity != 0 then capacity * 2 else 8;
    }

    /** Doubles the hash array and relinks every live slot, the last one first. */
    method Rehash()
      requires Indexed(hashcode, Index()) && |hash| > 0
      modifies this`os, this`hash, this`chains
      ensures Indexed(hashcode, Index()) && SameContents(old(os), os) && |hash| == 2 * old(|hash|)
    {
      var n := 2 * |hash|;
      hash := seq(n, _ => -1);
      chains := seq(n, _ => []);
      var i: nat := |os|;
      while i > 0
        invariant Rehashed(hashcode, Index(), i) && |os| == |old(os)| && |hash| == n
        invariant SameContents(old(os), os)
        invariant forall j :: 0 <= j < i ==> os[j] == old(os)[j]
      {
        i := i - 1;
        ghost var t := Index();
        if os[i].next > -2 {
          FrontedOk(hashcode, t, i);
          SameContentsTrans(old(os), os, Fronted(hashcode, t, i).os);
          var b := BucketOf(hashcode, |hash|, os[i].key);
          os := os[i := os[i].(next := hash[b])];
          hash := hash[b := i];
          chains := chains[b := [i] + chains[b]];
          assert Index() == Fronted(hashcode, t, i);
        } else {
          DeadSlot(hashcode, t, i, old(os), old(Index()));
        }
      }
      DistinctSame(old(os), os);
      RehashedIndexed(hashcode, Index());
    }

    /** Hangs a slot for a new key on the end of its chain. */
    method Append(key: Key, value: V, b: nat, prev: int)
      requires Valid() && b < |hash| && prev < |os| && AtEnd(Index(), b, prev)
      requires BucketOf(hashcode, |hash|, key) == b && Absent(os, key)
      modifies this
      ensures Valid() && |hash| == old(|hash|) && |os| == old(|os|) + 1 && os[|os| - 1] == Slot(key, value, -1)
      ensures Items(os) == old(Items(os)) + [Pair(key, value)]
    {
      ghost var t := Index();
      AppendedIndexed(hashcode, t, b, prev, key, value);
      if prev < 0 {
        hash := hash[b := |os|];
      } else {
        os := os[prev := os[prev].(next := |os|)];
      }
      if |os| == capacity {
        Grow();
      }
      chains := chains[b := chains[b] + [|os|]];
      os := os + [Slot(key, value, -1)];
      size := size + 1;
      assert Index() == Appended(t, b, prev, key, value);
    }

    /** Makes a hash array if there is none. */
    method EnsureHash()
      requires Valid()
      modifies this`hash, this`chains
      ensures Valid() && hash != []
    {
      if hash == [] {
        FreshHash(hashcode, Index(), 8);
        hash := seq(8, _ => -1);
        chains := seq(8, _ => []);
        assert PowerOfTwo(2) && PowerOfTwo(4);
      }
    }

    /** The slot of a key, appended with the given value if it was not there. */
    method FindInsert(key: Key, value: V) returns (p: nat)
      requires Valid()
      modifies this
      ensures Valid() && hash != [] && p < |os| && Live(os[p]) && os[p].key == key
      ensures Items(os) == Put(old(Items(os)), key, value)
      ensures Lookup(Items(os), key) == Some(os[p].value)
    {
      hide Indexed, Items, PowerOfTwo, Distinct, AtEnd;
      EnsureHash();
      LookupAbsent(os, key);
      var b := BucketOf(hashcode, |hash|, key);
      var prev, found, chain, k := Walk(key, b);
      if found >= 0 {
        IndexedDistinct(hashcode, Index());
        LookupLive(os, found);
        return found;
      }
      Append(key, value, b, prev);
      p := |os| - 1;
      if chain > 4 {
        ghost var before := os;
        DoubledPower(|hash|);
        Rehash();
        ItemsSame(before, os);
      }
      IndexedDistinct(hashcode, Index());
      LookupLive(os, p);
    }

    /** Unlinks the slot found by `Walk`. */
    method Unlink(b: nat, prev: int, p: nat, ghost k: nat)
      requires Valid() && b < |hash| && k < |chains[b]| && p == chains[b][k]
      requires prev == (if k == 0 then -1 else chains[b][k - 1])
      requires forall i :: 0 <= i < |chains[b]| ==> chains[b][i] < |os|
      modifies this
      ensures Valid() && |hash| == old(|hash|) && |os| == |old(os)| && !Live(os[p])
      ensures Items(os) == Drop(old(Items(os)), old(os[p].key))
    {
      ghost var t := Index();
      ErasedIndexed(hashcode, t, b, k);
      assert BucketOk(hashcode, t, b);
      LookupLive(os, p);
      DropSplit(Items(os[..p]), Pair(os[p].key, os[p].value), Items(os[p + 1..]));
      var next := os[p].next;
      if prev < 0 {
        hash := hash[b := next];
      } else {
        os := os[prev := os[prev].(next := next)];
      }
      os := os[p := os[p].(next := -2)];
      size := size - 1;
      chains := chains[b := Without(chains[b], k)];
      assert Index() == Erased(t, b, k);
    }

    /** Erases a key and tells how many slots that took. The hash array is indexed without a look at
        its size: on an object that has none the access is out of bounds, and nothing else happens. */
    method EraseKey(key: Key) returns (r: Erasure)
      requires Valid()
      modifies this
      ensures Valid() && |hash| == old(|hash|)
      ensures r == if old(hash) == [] then OutOfBounds else Count(if Lookup(old(Items(os)), key).Some? then 1 else 0)
      ensures Items(os) == Drop(old(Items(os)), key)
      ensures r == OutOfBounds ==> unchanged(this)
    {
      var b := BucketOf(hashcode, |hash|, key);
      BucketInside(hashcode, |hash|, key);
      LookupAbsent(os, key);
      if b >= |hash| {
        NothingWithoutHash(hashcode, Index(), key);
        DropMissing(Items(os), key);
        return OutOfBounds;
      }
      var prev, p, _, k := Walk(key, b);
      if p >= 0 {
        Unlink(b, prev, p, k);
        return Count(1);
      }
      DropMissing(Items(os), key);
      return Count(0);
    }

    /** Erases a live slot. */
    method Erase(p: nat)
      requires Valid() && p < |os| && Live(os[p])
      modifies this
      ensures Valid() && hash != [] && |hash| == old(|hash|) && |os| == |old(os)| && !Live(os[p])
      ensures Items(os) == Drop(old(Items(os)), old(os[p].key))
    {
      LiveHashed(hashcode, Index(), p);
      var b := BucketOf(hashcode, |hash|, os[p].key);
      StepDown(hashcode, Index(), b, 0);
      var prev, q := -1, hash[b];
      ghost var k: nat := 0;
      while q >= 0 && q != p
        invariant k <= |chains[b]| && q == if k < |chains[b]| then chains[b][k] else -1
        invariant prev == if k == 0 then -1 else chains[b][k - 1]
        invariant forall i :: 0 <= i < k ==> chains[b][i] != p
        decreases |chains[b]| - k
        modifies {}
      {
        StepDown(hashcode, Index(), b, k);
        prev := q;
        q := os[q].next;
        k := k + 1;
      }
      Unlink(b, prev, p, k);
    }
  }

  lemma IndexedDistinct<V>(hashcode: Key -> nat, t: Table<V>)
    requires Indexed(hashcode, t)
    ensures Distinct(t.os)
  {
  }

  lemma DoubledPower(n: nat)
    requires PowerOfTwo(n)
    ensures PowerOfTwo(2 * n)
  {
  }

  lemma LiveHashed<V>(hashcode: Key -> nat, t: Table<V>, p: nat)
    requires Indexed(hashcode, t) && p < |t.os| && Live(t.os[p])
    ensures |t.hash| > 0 && p in t.chains[BucketOf(hashcode, |t.hash|, t.os[p].key)]
  {
    assert SlotOk(hashcode, t, p);
  }

  lemma DeadSlot<V>(hashcode: Key -> nat, t: Table<V>, i: nat, os: seq<Slot<V>>, before: Table<V>)
    requires i < |t.os| && Rehashed(hashcode, t, i + 1) && t.os[i].next <= -2
    requires Indexed(hashcode, before) && before.os == os && |os| == |t.os| && t.os[i] == os[i]
    ensures Rehashed(hashcode, t, i)
  {
    assert SlotOk(hashcode, before, i);
    forall b | 0 <= b < |t.hash|
      ensures BucketOk(hashcode, t, b) && forall k :: 0 <= k < |t.chains[b]| ==> i <= t.chains[b][k]
    {
    }
  }

  /* Any sequence of operations. */

  datatype Operation<V> =
    | Insert(key: Key, value: V)     // find_insert
    | Delete(key: Key)               // erase by key
    | EraseFound(key: Key)           // find, then erase by slot
    | Find(key: Key)
    | Grow
    | Rehash

  /** What an operation answers: a value, a number of erased slots, or nothing. */
  datatype Answer<V> = Value(value: Option<V>) | Removed(n: nat) | Done

  function Applied<V>(l: seq<Pair<V>>, op: Operation<V>): seq<Pair<V>> {
    match op
    case Insert(key, value) => Put(l, key, value)
    case Delete(key) => Drop(l, key)
    case EraseFound(key) => Drop(l, key)
    case _ => l
  }

  function Reply<V>(l: seq<Pair<V>>, op: Operation<V>): Answer<V> {
    match op
    case Insert(key, value) => Value(Lookup(Put(l, key, value), key))
    case Delete(key) => Removed(if Lookup(l, key).Some? then 1 else 0)
    case EraseFound(key) => Removed(if Lookup(l, key).Some? then 1 else 0)
    case Find(key) => Value(Lookup(l, key))
    case _ => Done
  }

  /** The association list after the operations, and the answers on the way. */
  function Replay<V>(ops: seq<Operation<V>>): seq<Pair<V>> {
    if ops == [] then [] else Applied(Replay(ops[..|ops| - 1]), ops[|ops| - 1])
  }

  function Replies<V>(ops: seq<Operation<V>>): seq<Answer<V>> {
    if ops == [] then []
    else Replies(ops[..|ops| - 1]) + [Reply(Replay(ops[..|ops| - 1]), ops[|ops| - 1])]
  }

  predicate Inserts<V>(ops: seq<Operation<V>>) { exists i :: 0 <= i < |ops| && ops[i].Insert? }

  /** No key is erased by `Delete` before the first insertion. */
  predicate Safe<V>(ops: seq<Operation<V>>) { forall i :: 0 <= i < |ops| && ops[i].Delete? ==> Inserts(ops[..i]) }

  /** One operation on the table answers and does what it does on the association list; it goes out
      of bounds exactly if it erases by key where no hash array exists yet. */
  method Apply<V>(o: ObjectJson<V>, op: Operation<V>) returns (answer: Answer<V>, inside: bool)
    requires o.Valid()
    modifies o
    ensures o.Valid() && Items(o.os) == Applied(old(Items(o.os)), op)
    ensures inside <==> !(op.Delete? && old(o.hash) == [])
    ensures inside ==> answer == Reply(old(Items(o.os)), op)
    ensures o.hash != [] <==> old(o.hash) != [] || op.Insert?
  {
    inside, answer := true, Done;
    match op {
      case Insert(key, value) =>
        var p := o.FindInsert(key, value);
        answer := Value(Some(o.os[p].value));
      case Delete(key) =>
        var r := o.EraseKey(key);
        inside := r != OutOfBounds;
        answer := if r.Count? then Removed(r.n) else Done;
      case EraseFound(key) =>
        var p := o.Find(key);
        DropMissingIf(Items(o.os), key);
        answer := Removed(if p >= 0 then 1 else 0);
        if p >= 0 { o.Erase(p); }
      case Find(key) =>
        var p := o.Find(key);
        answer := Value(if p >= 0 then Some(o.os[p].value) else None);
      case Grow =>
        o.Grow();
      case Rehash =>
        if o.hash != [] {
          ghost var before := o.os;
          o.Rehash();
          ItemsSame(before, o.os);
        }
    }
  }

  lemma DropMissingIf<V>(l: seq<Pair<V>>, key: Key)
    ensures Lookup(l, key).None? ==> Drop(l, key) == l
  {
    if Lookup(l, key).None? { DropMissing(l, key); }
  }

  /** Every sequence of operations on a new object runs through, with the answers and the contents
      of the association list, if and only if it is `Safe`. */
  method RunOperations<V>(hashcode: Key -> nat, ops: seq<Operation<V>>)
    returns (o: ObjectJson<V>, answers: seq<Answer<V>>, inside: bool)
    ensures fresh(o) && o.Valid() && (inside <==> Safe(ops))
    ensures inside ==> answers == Replies(ops) && Items(o.os) == Replay(ops) && o.size == |Replay(ops)|
  {
    hide Indexed, Items, Applied, Reply, Inserts, PowerOfTwo;
    o := new ObjectJson(hashcode);
    answers, inside := [], true;
    assert !Inserts(ops[..0]) by { NoInserts(ops); }
    for i := 0 to |ops|
      invariant o.Valid() && Items(o.os) == Replay(ops[..i]) && answers == Replies(ops[..i])
      invariant fresh(o) && (o.hash != [] <==> Inserts(ops[..i]))
      invariant forall j :: 0 <= j < i && ops[j].Delete? ==> Inserts(ops[..j])
    {
      ReplayMore(ops, i);
      InsertsMore(ops, i);
      var answer, ok := Apply(o, ops[i]);
      if !ok {
        return o, answers, false;
      }
      answers := answers + [answer];
    }
    assert ops[..|ops|] == ops;
  }

  lemma NoInserts<V>(ops: seq<Operation<V>>)
    ensures !Inserts(ops[..0])
  {
  }

  lemma ReplayMore<V>(ops: seq<Operation<V>>, i: nat)
    requires i < |ops|
    ensures Replay(ops[..i + 1]) == Applied(Replay(ops[..i]), ops[i])
    ensures Replies(ops[..i + 1]) == Replies(ops[..i]) + [Reply(Replay(ops[..i]), ops[i])]
  {
    hide Applied, Reply;
    assert ops[..i + 1][..i] == ops[..i] && ops[..i + 1][i] == ops[i];
  }

  lemma InsertsMore<V>(ops: seq<Operation<V>>, i: nat)
    requires i < |ops|
    ensures Inserts(ops[..i + 1]) <==> Inserts(ops[..i]) || ops[i].Insert?
  {
    if Inserts(ops[..i]) {
      var j :| 0 <= j < i && ops[..i][j].Insert?;
      assert ops[..i + 1][j].Insert?;
    } else if ops[i].Insert? {
      assert ops[..i + 1][i].Insert?;
    }
  }

  /** An object as it is made by its constructor, on which erasing any key is out of bounds. */
  method EraseFromNew<V>(hashcode: Key -> nat, key: Key) returns (o: ObjectJson<V>, r: Erasure)
    ensures fresh(o) && o.Valid() && r == OutOfBounds
  {
    o := new ObjectJson(hashcode);
    r := o.EraseKey(key);
  }
}
