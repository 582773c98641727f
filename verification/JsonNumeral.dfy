/** The numbers of JSON text, as the parser takes them. */
module JsonNumerals {
  import opened Options
  import opened JsonText

  /** The parts a number is written in; the fraction begins with its point, the exponent with its letter. */
  datatype Numeral = Numeral(negative: bool, whole: string, fraction: string, exponent: string)

  predicate AllDigits(d: string) { forall i :: 0 <= i < |d| ==> IsDigit(d[i]) }

  predicate IsWhole(d: string) { AllDigits(d) && (d != [] && d[0] == '0' ==> |d| == 1) }

  predicate IsFraction(f: string) { f == [] || (|f| > 1 && f[0] == '.' && AllDigits(f[1..])) }

  predicate IsPower(p: string) {
    var digits := if p != [] && (p[0] == '+' || p[0] == '-') then p[1..] else p;
    digits != [] && AllDigits(digits)
  }

  predicate IsExponent(e: string) { e == [] || ((e[0] == 'e' || e[0] == 'E') && IsPower(e[1..])) }

  /** The whole part has no leading zero; it may be missing between a sign and a fraction or an exponent. */
  predicate IsNumeral(x: Numeral) {
    && IsWhole(x.whole) && IsFraction(x.fraction) && IsExponent(x.exponent)
    && (x.whole == [] ==> x.negative && x.fraction + x.exponent != [])
  }

  function NumeralText(x: Numeral): string {
    (if x.negative then "-" else "") + x.whole + (x.fraction + x.exponent)
  }

  function DecimalValue(d: string): nat
    requires AllDigits(d)
  {
    if d == [] then 0
    else DecimalValue(d[..|d| - 1]) * 10 + (d[|d| - 1] as nat - '0' as nat)
  }

  /** The signed 64-bit number that differs from `v` by a multiple of 2^64. */
  function Wrapped(v: int): (w: int)
    ensures -TWO_63 <= w < TWO_63 && (w - v) % TWO_64 == 0
  {
    var u := v % TWO_64;
    if u < TWO_63 then u else u - TWO_64
  }

  /** A number without fraction and exponent is an integer modulo 2^64, signed if there is a sign. */
  function Meaning(x: Numeral): Json
    requires IsNumeral(x)
  {
    if x.fraction + x.exponent != [] then Double(NumeralText(x))
    else if x.negative then var v: int := DecimalValue(x.whole); Number(Wrapped(-v))
    else Number(DecimalValue(x.whole) % TWO_64)
  }

  /* The word the digits are accumulated in. */

  lemma NextDigit(v: nat, digit: nat)
    ensures (v % TWO_64 * 10 + digit) % TWO_64 == (v * 10 + digit) % TWO_64
  {
  }

  lemma {:induction false} AccumulateValue(d: string)
    requires AllDigits(d)
    ensures Accumulate(0, d) == DecimalValue(d) % TWO_64
    decreases |d|
  {
    if d != [] {
      var n := |d| - 1;
      AccumulateValue(d[..n]);
      AccumulateAppend(0, d[..n], d[n]);
      assert d[..n] + [d[n]] == d;
      NextDigit(DecimalValue(d[..n]), d[n] as nat - '0' as nat);
    }
  }

  lemma NegatedWraps(v: int)
    requires v >= 0
    ensures Negated(v % TWO_64) == Wrapped(-v)
  {
  }

  /* Reading what the grammar allows. */

  predicate NoDigit(s: string) { s == [] || !IsDigit(s[0]) }

  lemma {:induction false} RunOfDigits(d: string, rest: string)
    requires AllDigits(d) && NoDigit(rest)
    ensures DigitRun(d + rest) == |d|
  {
    if d == [] {
      assert d + rest == rest;
    } else {
      assert (d + rest)[1..] == d[1..] + rest;
      RunOfDigits(d[1..], rest);
    }
  }

  lemma PowerRead(p: string, rest: string)
    requires IsPower(p) && NoDigit(rest)
    ensures Exponent(p + rest) == (|p|, true)
  {
    hide DigitRun;
    if p[0] == '+' || p[0] == '-' {
      assert (p + rest)[1..] == p[1..] + rest;
      RunOfDigits(p[1..], rest);
    } else {
      assert (p + rest)[0..] == p + rest;
      RunOfDigits(p, rest);
    }
  }

  lemma FractionRead(d: string, e: string, rest: string)
    requires d != [] && AllDigits(d) && IsExponent(e) && Ends(rest)
    ensures Fraction(d + e + rest) == (|d| + |e|, true)
  {
    hide DigitRun, Exponent, IsPower;
    var s := d + e + rest;
    assert s == d + (e + rest);
    RunOfDigits(d, e + rest);
    if e == [] {
      assert e + rest == rest;
      assert |d| < |s| ==> s[|d|] == rest[0];
    } else {
      assert s[|d|] == e[0] && s[|d| + 1..] == e[1..] + rest;
      PowerRead(e[1..], rest);
    }
  }

  /** The scanner on a text with a fraction, or with an exponent and no fraction. */
  lemma ReadDouble(s: string, start: nat, end: nat)
    requires start <= end < |s| && start == (if s[0] == '-' then 1 else 0)
    requires end - start == if start < |s| && s[start] == '0' then 1 else DigitRun(s[start..])
    requires s[end] == '.' || s[end] == 'e' || s[end] == 'E'
    ensures var r := if s[end] == '.' then Fraction(s[end + 1..]) else Exponent(s[end + 1..]);
            ReadNumber(s) == if r.1 then Some((Double(s[..end + 1 + r.0]), s[end + 1 + r.0..])) else None
  {
    hide DigitRun, Accumulate, Fraction, Exponent, Negated;
  }

  /** Where the digits of the whole part end. */
  lemma WholeEnds(s: string, x: Numeral, tail: string)
    requires IsWhole(x.whole) && (x.whole == [] ==> x.negative) && NoDigit(tail)
    requires s == (if x.negative then "-" else "") + x.whole + tail && s != []
    ensures var start := if x.negative then 1 else 0;
            && start == (if s[0] == '-' then 1 else 0)
            && |x.whole| == (if start < |s| && s[start] == '0' then 1 else DigitRun(s[start..]))
            && s[start..start + |x.whole|] == x.whole && s[start + |x.whole|..] == tail
  {
    hide DigitRun;
    var start := if x.negative then 1 else 0;
    assert s[start..] == x.whole + tail;
    RunOfDigits(x.whole, tail);
    assert x.whole == [] && start < |s| ==> s[start] == tail[0];
    assert x.whole != [] ==> s[start] == x.whole[0];
  }

  lemma NumeralRead(x: Numeral, rest: string)
    requires IsNumeral(x) && Ends(rest)
    ensures ReadNumber(NumeralText(x) + rest) == Some((Meaning(x), rest))
  {
    hide ReadNumber, DigitRun, Accumulate, Fraction, Exponent, Negated, DecimalValue, Wrapped, IsPower;
    var s, tail := NumeralText(x) + rest, x.fraction + x.exponent + rest;
    assert s == (if x.negative then "-" else "") + x.whole + tail;
    WholeEnds(s, x, tail);
    var start := if x.negative then 1 else 0;
    var end := start + |x.whole|;
    if x.fraction + x.exponent == [] {
      assert tail == rest;
      IntegerRead(s, x, start, end);
    } else {
      DoubleRead(s, x, start, end, rest);
    }
  }

  lemma IntegerRead(s: string, x: Numeral, start: nat, end: nat)
    requires IsNumeral(x) && x.fraction + x.exponent == [] && start == (if x.negative then 1 else 0)
    requires start < end <= |s| && start == (if s[0] == '-' then 1 else 0)
    requires end - start == if s[start] == '0' then 1 else DigitRun(s[start..])
    requires s[start..end] == x.whole && Ends(s[end..])
    ensures ReadNumber(s) == Some((Meaning(x), s[end..]))
  {
    hide ReadNumber, DigitRun, Accumulate, Negated, DecimalValue, Wrapped;
    AccumulateValue(x.whole);
    NegatedWraps(DecimalValue(x.whole));
    assert end < |s| ==> s[end] == s[end..][0];
    ReadPlain(s, start, end);
  }

  /** What stands at position `|before|`, and behind it. */
  lemma Behind(before: string, part: string, after: string)
    requires part != []
    ensures var s := before + (part + after); s[|before|] == part[0] && s[|before| + 1..] == part[1..] + after
  {
  }

  lemma DoubleRead(s: string, x: Numeral, start: nat, end: nat, rest: string)
    requires IsNumeral(x) && x.fraction + x.exponent != [] && Ends(rest)
    requires s == NumeralText(x) + rest && start == (if x.negative then 1 else 0) && end == start + |x.whole|
    requires start <= end < |s| && start == (if s[0] == '-' then 1 else 0)
    requires end - start == if start < |s| && s[start] == '0' then 1 else DigitRun(s[start..])
    ensures ReadNumber(s) == Some((Double(NumeralText(x)), rest))
  {
    hide ReadNumber, DigitRun, Fraction, Exponent, IsPower, IsWhole, AllDigits;
    var front := (if x.negative then "-" else "") + x.whole;
    var r := if x.fraction != [] then |x.fraction[1..]| + |x.exponent| else |x.exponent[1..]|;
    DoubleTail(s, front, x.fraction, x.exponent, rest);
    ReadDouble(s, start, end);
    var n := |NumeralText(x)|;
    assert n == end + 1 + r && s[..n] == NumeralText(x) && s[n..] == rest;
  }

  lemma DoubleTail(s: string, front: string, fraction: string, exponent: string, rest: string)
    requires s == front + (fraction + exponent) + rest && fraction + exponent != [] && Ends(rest)
    requires IsFraction(fraction) && IsExponent(exponent)
    ensures var end := |front|;
            && end < |s| && (s[end] == '.' <==> fraction != []) && (fraction == [] ==> s[end] == 'e' || s[end] == 'E')
            && (if s[end] == '.' then Fraction(s[end + 1..]) == (|fraction[1..]| + |exponent|, true)
                else Exponent(s[end + 1..]) == (|exponent[1..]|, true))
  {
    hide Fraction, Exponent, IsPower, AllDigits;
    if fraction != [] {
      assert s == front + (fraction + (exponent + rest));
      Behind(front, fraction, exponent + rest);
      FractionRead(fraction[1..], exponent, rest);
      assert fraction[1..] + exponent + rest == fraction[1..] + (exponent + rest);
    } else {
      assert s == front + (exponent + rest);
      Behind(front, exponent, rest);
      PowerRead(exponent[1..], rest);
    }
  }

  /* Whatever is read is what the grammar allows. */

  lemma PowerFound(s: string)
    requires Exponent(s).1
    ensures IsPower(s[..Exponent(s).0])
  {
    hide DigitRun;
    var n := Exponent(s).0;
    if s[0] == '+' || s[0] == '-' {
      assert forall i :: 0 <= i < n - 1 ==> s[..n][1..][i] == s[1..][i];
    } else {
      assert s[0..] == s;
    }
  }

  lemma FractionFound(s: string) returns (d: string, e: string)
    requires Fraction(s).1
    ensures d != [] && AllDigits(d) && IsExponent(e) && s[..Fraction(s).0] == d + e
  {
    hide DigitRun, Exponent, IsPower;
    var n, m := DigitRun(s), Fraction(s).0;
    d, e := s[..n], s[n..m];
    if n < m {
      PowerFound(s[n + 1..]);
      assert e[1..] == s[n + 1..][..Exponent(s[n + 1..]).0];
    }
  }

  /** The fraction and the exponent behind the whole part. */
  lemma TailFound(s: string) returns (f: string, e: string)
    requires s != [] && (s[0] == '.' || s[0] == 'e' || s[0] == 'E')
    requires if s[0] == '.' then Fraction(s[1..]).1 else Exponent(s[1..]).1
    ensures IsFraction(f) && IsExponent(e) && f + e != []
    ensures f + e == s[..1 + (if s[0] == '.' then Fraction(s[1..]).0 else Exponent(s[1..]).0)]
  {
    hide Fraction, Exponent, IsPower;
    if s[0] == '.' {
      var d;
      d, e := FractionFound(s[1..]);
      f := ['.'] + d;
      assert f[1..] == d;
    } else {
      var n := Exponent(s[1..]).0;
      f, e := [], s[..1 + n];
      PowerFound(s[1..]);
      assert e[1..] == s[1..][..n];
    }
  }

  lemma WholeFound(s: string) returns (start: nat, end: nat)
    requires s != [] && (s[0] == '-' || IsDigit(s[0]))
    ensures start <= end <= |s| && start == (if s[0] == '-' then 1 else 0)
    ensures end - start == if start < |s| && s[start] == '0' then 1 else DigitRun(s[start..])
    ensures IsWhole(s[start..end]) && (start == end ==> start == 1)
  {
    hide DigitRun;
    start := if s[0] == '-' then 1 else 0;
    var digits := if start < |s| && s[start] == '0' then 1 else DigitRun(s[start..]);
    end := start + digits;
    assert forall i :: 0 <= i < digits ==> s[start..end][i] == s[start..][i];
    assert s[start..] != [] ==> s[start..][0] == s[start];
  }

  lemma NumeralFound(s: string) returns (x: Numeral)
    requires s != [] && (s[0] == '-' || IsDigit(s[0])) && ReadNumber(s).Some?
    ensures IsNumeral(x) && ReadNumber(s).value.0 == Meaning(x) && s == NumeralText(x) + ReadNumber(s).value.1
  {
    hide ReadNumber, DigitRun, Fraction, Exponent, Meaning, NumeralText, IsWhole, IsPower;
    var start, end := WholeFound(s);
    if end < |s| && (s[end] == '.' || s[end] == 'e' || s[end] == 'E') {
      ReadDouble(s, start, end);
      assert s[end..][1..] == s[end + 1..];
      var f, e := TailFound(s[end..]);
      x := Numeral(start == 1, s[start..end], f, e);
      DoubleFound(s, x, start, end);
    } else {
      x := Numeral(start == 1, s[start..end], "", "");
      NoNumber(s, start, end);
      IntegerFound(s, x, start, end);
    }
  }

  /** A lone sign is not a number. */
  lemma NoNumber(s: string, start: nat, end: nat)
    requires start <= end <= |s| && s != [] && start == (if s[0] == '-' then 1 else 0)
    requires end - start == if start < |s| && s[start] == '0' then 1 else DigitRun(s[start..])
    requires end < |s| ==> s[end] != '.' && s[end] != 'e' && s[end] != 'E'
    ensures ReadNumber(s).Some? ==> start < end
  {
    hide DigitRun, Accumulate, Fraction, Exponent, Negated;
  }

  lemma IntegerFound(s: string, x: Numeral, start: nat, end: nat)
    requires start < end <= |s| && start == (if s[0] == '-' then 1 else 0)
    requires end - start == if s[start] == '0' then 1 else DigitRun(s[start..])
    requires end < |s| ==> s[end] != '.' && s[end] != 'e' && s[end] != 'E'
    requires x == Numeral(start == 1, s[start..end], "", "") && IsWhole(x.whole)
    ensures ReadNumber(s).Some? && ReadNumber(s).value.0 == Meaning(x)
    ensures s == NumeralText(x) + ReadNumber(s).value.1
  {
    hide ReadNumber, DigitRun, Accumulate, Negated, DecimalValue, Wrapped;
    AccumulateValue(x.whole);
    NegatedWraps(DecimalValue(x.whole));
    ReadPlain(s, start, end);
    assert NumeralText(x) + s[end..] == s;
  }

  lemma DoubleFound(s: string, x: Numeral, start: nat, end: nat)
    requires start <= end < |s| && start == (if s[0] == '-' then 1 else 0)
    requires end - start == if start < |s| && s[start] == '0' then 1 else DigitRun(s[start..])
    requires (s[end] == '.' || s[end] == 'e' || s[end] == 'E') && ReadNumber(s).Some?
    requires IsNumeral(x) && x.negative == (start == 1) && x.whole == s[start..end]
    requires var r := if s[end] == '.' then Fraction(s[end + 1..]) else Exponent(s[end + 1..]);
             x.fraction + x.exponent == s[end..][..1 + r.0]
    ensures ReadNumber(s).value.0 == Meaning(x) && s == NumeralText(x) + ReadNumber(s).value.1
  {
    hide ReadNumber, DigitRun, Fraction, Exponent, IsFraction, IsExponent, IsWhole;
    ReadDouble(s, start, end);
    var r := if s[end] == '.' then Fraction(s[end + 1..]) else Exponent(s[end + 1..]);
    var n := end + 1 + r.0;
    Pieces(s, start, end, n);
    assert NumeralText(x) == s[..n];
    assert s == s[..n] + s[n..];
  }

  lemma Pieces(s: string, start: nat, end: nat, n: nat)
    requires start <= end <= n <= |s| && s != [] && start == (if s[0] == '-' then 1 else 0)
    ensures (if start == 1 then "-" else "") + s[start..end] + s[end..][..n - end] == s[..n]
  {
    assert s[..start] == if start == 1 then "-" else "";
    assert s[end..][..n - end] == s[end..n];
    assert s[..start] + s[start..end] + s[end..n] == s[..n];
  }
}
