/** The exact set with a 256-bit filter in front, used to skip delta records
    whose key has been seen higher up in the chain. */
module BloomFilters {

  const FILTER_SIZE := 32
  const BIT_OFFSET_MASK: bv64 := 0x07
  const BYTE_OFFSET_MASK: bv64 := 0xF8

  function ByteOf(hash: bv64): (i: nat)
    ensures i < FILTER_SIZE
  {
    assert (hash & BYTE_OFFSET_MASK) >> 3 < 32;
    ((hash & BYTE_OFFSET_MASK) >> 3) as nat
  }

  function BitOf(hash: bv64): bv8 {
    (1 as bv8) << ((hash & BIT_OFFSET_MASK) as bv4)
  }

  function Mark(byte: bv8, bit: bv8): bv8 { byte | bit }

  predicate Has(byte: bv8, bit: bv8) { byte & bit != 0 }

  class BloomFilter<V(==)> {
    const hash: V -> bv64
    const bits: array<bv8>
    const data: array<V>
    var count: nat
    ghost var elements: set<V>

    ghost predicate Valid() reads this, bits, data {
      && bits.Length == FILTER_SIZE && bits as object != data
      && count <= data.Length && elements == (set v | v in data[..count])
      && forall i :: 0 <= i < count ==> Marked(hash(data[i]))
    }

    ghost predicate Marked(h: bv64)
      requires bits.Length == FILTER_SIZE
      reads this, bits
    {
      Has(bits[ByteOf(h)], BitOf(h))
    }

    constructor (data: array<V>, hash: V -> bv64)
      ensures Valid() && this.data == data && this.hash == hash && fresh(bits)
      ensures count == 0 && elements == {}
    {
      this.data, this.hash, this.count, this.elements := data, hash, 0, {};
      bits := new bv8[FILTER_SIZE](_ => 0);
    }

    method Insert(value: V)
      requires Valid() && count < data.Length
      modifies this`count, this`elements, bits, data
      ensures Valid() && count == old(count) + 1
      ensures elements == old(elements) + {value}
    {
      hide ByteOf, BitOf, Mark, Has;
      var h := hash(value);
      data[count] := value;
      count := count + 1;
      elements := elements + {value};
      ghost var before := bits[ByteOf(h)];
      bits[ByteOf(h)] := Mark(bits[ByteOf(h)], BitOf(h));
      MarkSet(before, h);
      forall i | 0 <= i < old(count)
        ensures Marked(hash(data[i]))
      {
        assert old(Marked(hash(data[i])));
        if ByteOf(hash(data[i])) == ByteOf(h) {
          MarkKept(before, BitOf(h), BitOf(hash(data[i])));
        }
      }
      assert data[..count] == old(data[..count]) + [value];
    }

    /** Never a false negative, and the scan removes the filter's false positives. */
    method Exists(value: V) returns (found: bool)
      requires Valid()
      ensures found <==> value in elements
    {
      var h := hash(value);
      if !Has(bits[ByteOf(h)], BitOf(h)) {
        return false;
      }
      var i := 0;
      while i < count
        invariant i <= count
        invariant value !in data[..i]
      {
        if value == data[i] {
          return true;
        }
        i := i + 1;
      }
      return false;
    }
  }

  lemma MarkSet(b: bv8, h: bv64)
    ensures Has(Mark(b, BitOf(h)), BitOf(h))
  {
  }

  /** Setting a bit leaves the marks of other values in place. */
  lemma MarkKept(b: bv8, m: bv8, other: bv8)
    requires Has(b, other)
    ensures Has(Mark(b, m), other)
  {
  }
}
