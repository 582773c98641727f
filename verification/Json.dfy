/** JSON text: the recursive printer and the parser with its explicit stack. */
module JsonText {
  import opened Options

  /** A tree; the two integer types of the source are one here, and the text of a number with a
      fraction or an exponent is kept as it stands. */
  datatype Json =
    | Null
    | Bool(b: bool)
    | Number(n: int)
    | Double(text: string)
    | Str(s: string)
    | Array(items: seq<Json>)
    | Object(members: seq<Member>)

  datatype Member = Member(key: string, value: Json)

  datatype Scanned = Scanned(value: string, rest: string)

  /** How strings are written between quotes, and read back from behind the opening quote. */
  datatype Codec = Codec(encode: string -> string, scan: string -> Option<Scanned>)

  /** Reading undoes writing. */
  ghost predicate Inverse(c: Codec) {
    forall s: string, rest: string {:trigger c.scan(c.encode(s) + ['"'] + rest)} ::
      c.scan(c.encode(s) + ['"'] + rest) == Some(Scanned(s, rest))
  }

  const MAX_DEPTH := 2048
  const TWO_64 := 0x1_0000_0000_0000_0000
  const TWO_63 := 0x8000_0000_0000_0000

  predicate IsDigit(ch: char) { '0' <= ch <= '9' }

  predicate IsSpace(ch: char) { ch == ' ' || ch == '\n' || ch == '\r' || ch == '\t' }

  /* Printing. */

  datatype Manipulator = Manipulator(indentDepth: nat, tabWidth: nat, newlineTerminator: bool, spaceSeparator: bool)

  function DigitChar(n: nat): char
    requires n < 10
  {
    '0' + n as char
  }

  function Decimal(n: nat): string { if n < 10 then [DigitChar(n)] else Decimal(n / 10) + [DigitChar(n % 10)] }

  function Fill(ch: char, n: nat): (s: string)
    ensures |s| == n && forall i :: 0 <= i < n ==> s[i] == ch
  {
    seq(n, _ => ch)
  }

  function Indent(m: Manipulator, depth: nat): string {
    var columns := depth * (if m.tabWidth != 0 then m.tabWidth else 8);
    ['\n'] + Fill('\t', columns / 8) + Fill(' ', columns % 8)
  }

  predicate Nonempty(j: Json) { (j.Array? && j.items != []) || (j.Object? && j.members != []) }

  /** Whether indented output puts each child on a line of its own. */
  predicate IsComplex(j: Json) {
    match j
    case Array(items) => |items| > 8 || exists i :: 0 <= i < |items| && Nonempty(items[i])
    case Object(members) => |members| > 5 || exists i :: 0 <= i < |members| && Nonempty(members[i].value)
    case _ => false
  }

  datatype Layout = Layout(expanded: bool, colon: string, comma: string)

  function LayoutOf(m: Manipulator, j: Json, depth: nat): Layout {
    var expanded := depth < m.indentDepth && IsComplex(j);
    if expanded then Layout(true, ": ", ",")
    else if m.spaceSeparator then Layout(false, ": ", ", ")
    else Layout(false, ":", ",")
  }

  function Break(m: Manipulator, l: Layout, depth: nat): string { if l.expanded then Indent(m, depth) else "" }

  function Text(c: Codec, m: Manipulator, j: Json, depth: nat): string
    decreases j, 1, 0
  {
    match j
    case Null => "null"
    case Bool(b) => if b then "true" else "false"
    case Number(n) => if n < 0 then "-" + Decimal(-n) else Decimal(n)
    case Double(text) => text
    case Str(s) => ['"'] + c.encode(s) + ['"']
    case Array(_) => "[" + ItemsText(c, m, j, depth, 0)
    case Object(_) => "{" + MembersText(c, m, j, depth, 0)
  }

  /** The rest of an array from item `k` on, closing bracket included. */
  function ItemsText(c: Codec, m: Manipulator, j: Json, depth: nat, k: nat): string
    requires j.Array? && k <= |j.items|
    decreases j, 0, |j.items| - k
  {
    var l := LayoutOf(m, j, depth);
    if k == |j.items| then (if k > 0 then Break(m, l, depth) else "") + "]"
    else
      (if k > 0 then l.comma else "") + Break(m, l, depth + 1)
      + Text(c, m, j.items[k], depth + 1) + ItemsText(c, m, j, depth, k + 1)
  }

  function MembersText(c: Codec, m: Manipulator, j: Json, depth: nat, k: nat): string
    requires j.Object? && k <= |j.members|
    decreases j, 0, |j.members| - k
  {
    var l := LayoutOf(m, j, depth);
    if k == |j.members| then (if k > 0 then Break(m, l, depth) else "") + "}"
    else
      (if k > 0 then l.comma else "") + Break(m, l, depth + 1)
      + (['"'] + c.encode(j.members[k].key) + ['"']) + l.colon
      + Text(c, m, j.members[k].value, depth + 1) + MembersText(c, m, j, depth, k + 1)
  }

  function Unparse(c: Codec, m: Manipulator, j: Json): string {
    Text(c, m, j, 0) + (if m.newlineTerminator then "\n" else "")
  }

  /* Reading numbers. */

  function DigitRun(s: string): (n: nat)
    ensures n <= |s| && forall i :: 0 <= i < n ==> IsDigit(s[i])
    ensures n < |s| ==> !IsDigit(s[n])
  {
    if s == [] || !IsDigit(s[0]) then 0 else 1 + DigitRun(s[1..])
  }

  /** Digits accumulated in a 64-bit word. */
  function Accumulate(x: nat, s: string): nat
    decreases |s|
  {
    if s == [] then x
    else if IsDigit(s[0]) then Accumulate((x * 10 + (s[0] as nat - '0' as nat)) % TWO_64, s[1..])
    else x
  }

  /** A 64-bit word as a signed number, negated; the smallest signed number is its own negation. */
  function Negated(x: nat): int
    requires x < TWO_64
  {
    var y: int := x;
    if y <= TWO_63 then -y else TWO_64 - y
  }

  /** How far the fraction and exponent parts reach, and whether they are complete. */
  function Fraction(s: string): (r: (nat, bool))
    ensures r.0 <= |s|
  {
    var n := DigitRun(s);
    if n == 0 then (0, false)
    else if n < |s| && (s[n] == 'e' || s[n] == 'E') then var e := Exponent(s[n + 1..]); (n + 1 + e.0, e.1)
    else (n, true)
  }

  function Exponent(s: string): (r: (nat, bool))
    ensures r.0 <= |s|
  {
    if s == [] then (0, false)
    else
      var sign := if s[0] == '+' || s[0] == '-' then 1 else 0;
      var n := DigitRun(s[sign..]);
      (sign + n, n > 0)
  }

  /** The number at the start of the text and the text behind it. */
  function ReadNumber(s: string): (r: Option<(Json, string)>)
    ensures r.Some? ==> |r.value.1| < |s|
  {
    if s == [] then None
    else
      var start := if s[0] == '-' then 1 else 0;
      var digits := if start < |s| && s[start] == '0' then 1 else DigitRun(s[start..]);
      var end := start + digits;
      if end < |s| && s[end] == '.' then
        var f := Fraction(s[end + 1..]);
        if f.1 then Some((Double(s[..end + 1 + f.0]), s[end + 1 + f.0..])) else None
      else if end < |s| && (s[end] == 'e' || s[end] == 'E') then
        var e := Exponent(s[end + 1..]);
        if e.1 then Some((Double(s[..end + 1 + e.0]), s[end + 1 + e.0..])) else None
      else if digits == 0 then None
      else
        AccumulateBound(0, s[start..end]);
        var x := Accumulate(0, s[start..end]);
        Some((Number(if start == 1 then Negated(x) else x), s[end..]))
  }

  lemma {:induction false} AccumulateBound(x: nat, s: string)
    requires x < TWO_64
    ensures Accumulate(x, s) < TWO_64
    decreases |s|
  {
    if s != [] && IsDigit(s[0]) {
      AccumulateBound((x * 10 + (s[0] as nat - '0' as nat)) % TWO_64, s[1..]);
    }
  }

  /* The parser. */

  datatype State =
    | Initial | ArrayInitial | ArrayValue | ObjectValue
    | ArrayDelim | ObjectDelim | ObjectInitial | ObjectKey | ObjectColon
    | Final | Failed

  /** An open container with the children it has so far; in an object, the key whose value is next. */
  datatype Frame = ArrayFrame(items: seq<Json>) | ObjectFrame(members: seq<Member>, key: Option<string>)

  datatype Parser = Parser(state: State, frames: seq<Frame>, root: Json)

  /** The size of the parser's pointer stack: one pointer for each open container but the root, and
      one for a member that waits for its value. */
  function Level(open: nat, inMember: bool): nat {
    (if open == 0 then 0 else open - 1) + (if inMember then 1 else 0)
  }

  function StackSize(p: Parser): nat { Level(|p.frames|, p.state.ObjectValue? || p.state.ObjectColon?) }

  predicate WantsValue(s: State) { s.Initial? || s.ArrayInitial? || s.ArrayValue? || s.ObjectValue? }

  /** Sets a member, in place if the key is there already. */
  function SetMember(members: seq<Member>, key: string, value: Json): seq<Member> {
    if members == [] then [Member(key, value)]
    else if members[0].key == key then [Member(key, value)] + members[1..]
    else [members[0]] + SetMember(members[1..], key, value)
  }

  function Fail(p: Parser): Parser { p.(state := Failed) }

  /** A complete value goes where the parser stands. */
  function Deliver(p: Parser, v: Json): Parser {
    if p.frames == [] then Parser(Final, [], v)
    else
      var n := |p.frames| - 1;
      match p.frames[n]
      case ArrayFrame(items) => p.(state := ArrayDelim, frames := p.frames[..n] + [ArrayFrame(items + [v])])
      case ObjectFrame(members, key) =>
        if key.None? then Fail(p)
        else p.(state := ObjectDelim, frames := p.frames[..n] + [ObjectFrame(SetMember(members, key.value, v), None)])
  }

  function Open(p: Parser, f: Frame): Parser {
    if StackSize(p) == MAX_DEPTH then Fail(p)
    else p.(state := if f.ArrayFrame? then ArrayInitial else ObjectInitial, frames := p.frames + [f])
  }

  function Close(p: Parser): Parser {
    if p.frames == [] then Fail(p)
    else
      var n := |p.frames| - 1;
      var v := match p.frames[n] case ArrayFrame(items) => Array(items) case ObjectFrame(members, _) => Object(members);
      Deliver(p.(frames := p.frames[..n]), v)
  }

  function Named(p: Parser, key: string): Parser {
    if p.frames == [] || !p.frames[|p.frames| - 1].ObjectFrame? then Fail(p)
    else
      var n := |p.frames| - 1;
      p.(state := ObjectColon, frames := p.frames[..n] + [p.frames[n].(key := Some(key))])
  }

  function Literal(s: string): Option<(Json, string)> {
    if "null" <= s then Some((Null, s[4..]))
    else if "false" <= s then Some((Bool(false), s[5..]))
    else if "true" <= s then Some((Bool(true), s[4..]))
    else None
  }

  /** One round of the parser's loop: what it does with the next character. */
  function Round(c: Codec, p: Parser, s: string): (r: (Parser, string))
    requires s != [] && !p.state.Final? && !p.state.Failed?
    ensures |r.1| < |s| || r.0.state.Failed?
  {
    var ch := s[0];
    if IsSpace(ch) then (p, s[1..])
    else if ch == ',' then
      if p.state.ArrayDelim? then (p.(state := ArrayValue), s[1..])
      else if p.state.ObjectDelim? then (p.(state := ObjectKey), s[1..])
      else (Fail(p), s)
    else if ch == ':' then
      if p.state.ObjectColon? then (p.(state := ObjectValue), s[1..]) else (Fail(p), s)
    else if ch == '{' then
      if WantsValue(p.state) then (Open(p, ObjectFrame([], None)), s[1..]) else (Fail(p), s)
    else if ch == '}' then
      if p.state.ObjectInitial? || p.state.ObjectDelim? then (Close(p), s[1..]) else (Fail(p), s)
    else if ch == '[' then
      if WantsValue(p.state) then (Open(p, ArrayFrame([])), s[1..]) else (Fail(p), s)
    else if ch == ']' then
      if p.state.ArrayInitial? || p.state.ArrayDelim? then (Close(p), s[1..]) else (Fail(p), s)
    else if ch == '"' then
      var r := c.scan(s[1..]);
      if r.None? || |r.value.rest| >= |s| then (Fail(p), s)
      else if WantsValue(p.state) then (Deliver(p, Str(r.value.value)), r.value.rest)
      else if p.state.ObjectInitial? || p.state.ObjectKey? then (Named(p, r.value.value), r.value.rest)
      else (Fail(p), s)
    else if ch == 'n' || ch == 'f' || ch == 't' then
      var r := Literal(s);
      if WantsValue(p.state) && r.Some? then (Deliver(p, r.value.0), r.value.1) else (Fail(p), s)
    else if ch == '-' || IsDigit(ch) then
      var r := ReadNumber(s);
      if WantsValue(p.state) && r.Some? then (Deliver(p, r.value.0), r.value.1) else (Fail(p), s)
    else (Fail(p), s)
  }

  /** The whole loop. */
  function Run(c: Codec, p: Parser, s: string): (Parser, string)
    decreases |s|, if p.state.Failed? then 0 else 1
  {
    if s == [] || p.state.Final? || p.state.Failed? then (p, s)
    else
      var r := Round(c, p, s);
      Run(c, r.0, r.1)
  }

  function Start(): Parser { Parser(Initial, [], Null) }

  /** The result of parsing a complete text; one white space character may follow the value. */
  function Parse(c: Codec, text: string): Option<Json> {
    var r := Run(c, Start(), text);
    var rest := if r.1 != [] && IsSpace(r.1[0]) then r.1[1..] else r.1;
    if rest == [] && r.0.state.Final? then Some(r.0.root) else None
  }

  /* Numbers survive the round trip. */

  lemma {:induction false} DecimalDigits(n: nat)
    ensures Decimal(n) != [] && (forall i :: 0 <= i < |Decimal(n)| ==> IsDigit(Decimal(n)[i]))
    ensures (Decimal(n)[0] == '0' <==> n == 0) && (n == 0 ==> |Decimal(n)| == 1)
  {
    if n >= 10 {
      DecimalDigits(n / 10);
    }
  }

  lemma {:induction false} AccumulateAppend(x: nat, s: string, ch: char)
    requires (forall i :: 0 <= i < |s| ==> IsDigit(s[i])) && IsDigit(ch)
    ensures Accumulate(x, s + [ch]) == (Accumulate(x, s) * 10 + (ch as nat - '0' as nat)) % TWO_64
    decreases |s|
  {
    if s == [] {
      assert (s + [ch])[1..] == [];
    } else {
      assert (s + [ch])[1..] == s[1..] + [ch];
      AccumulateAppend((x * 10 + (s[0] as nat - '0' as nat)) % TWO_64, s[1..], ch);
    }
  }

  lemma LastDigit(n: nat)
    requires n < TWO_64
    ensures var ch := DigitChar(n % 10); IsDigit(ch) && (n / 10 * 10 + (ch as nat - '0' as nat)) % TWO_64 == n
  {
  }

  lemma {:induction false} AccumulateDecimal(n: nat)
    requires n < TWO_64
    ensures Accumulate(0, Decimal(n)) == n
  {
    if n < 10 {
      assert Decimal(n)[1..] == [];
    } else {
      DecimalDigits(n / 10);
      AccumulateDecimal(n / 10);
      AccumulateAppend(0, Decimal(n / 10), DigitChar(n % 10));
      LastDigit(n);
    }
  }

  /** What may follow a value: the end of the text, white space or a delimiter. */
  predicate Ends(rest: string) {
    rest == [] || IsSpace(rest[0]) || rest[0] == ',' || rest[0] == ']' || rest[0] == '}'
  }

  lemma {:induction false} DigitRunIs(d: string, rest: string)
    requires (forall i :: 0 <= i < |d| ==> IsDigit(d[i])) && Ends(rest)
    ensures DigitRun(d + rest) == |d|
  {
    if d == [] {
      assert d + rest == rest;
    } else {
      assert (d + rest)[1..] == d[1..] + rest;
      DigitRunIs(d[1..], rest);
    }
  }

  /** The scanner on a text whose digits end before anything but a fraction or an exponent. */
  lemma ReadPlain(s: string, start: nat, end: nat)
    requires start < end <= |s| && start == (if s[0] == '-' then 1 else 0)
    requires end - start == if s[start] == '0' then 1 else DigitRun(s[start..])
    requires end < |s| ==> s[end] != '.' && s[end] != 'e' && s[end] != 'E'
    requires Accumulate(0, s[start..end]) < TWO_64
    ensures var x := Accumulate(0, s[start..end]);
            ReadNumber(s) == Some((Number(if start == 1 then Negated(x) else x), s[end..]))
  {
    hide DigitRun, Accumulate, Fraction, Exponent, Negated;
  }

  /** Digits up to the end of a token, with or without a sign, are read as an integer. */
  lemma ReadInteger(sign: string, d: string, rest: string)
    requires (sign == "" || sign == "-") && d != [] && (forall i :: 0 <= i < |d| ==> IsDigit(d[i]))
    requires (d[0] == '0' ==> |d| == 1) && Ends(rest) && Accumulate(0, d) < TWO_64
    ensures var x := Accumulate(0, d);
            ReadNumber(sign + d + rest) == Some((Number(if sign == "-" then Negated(x) else x), rest))
  {
    hide ReadNumber, Accumulate, Negated, DigitRun;
    var s, start := sign + d + rest, |sign|;
    var end := start + |d|;
    DigitRunIs(d, rest);
    assert s[start..] == d + rest && s[start] == d[0] && (start == 1 ==> s[0] == '-');
    assert s[start..end] == d && s[end..] == rest;
    assert end < |s| ==> s[end] == rest[0];
    ReadPlain(s, start, end);
  }

  lemma ReadDecimal(n: nat, rest: string)
    requires n < TWO_64 && Ends(rest)
    ensures ReadNumber(Decimal(n) + rest) == Some((Number(n), rest))
  {
    hide ReadNumber;
    DecimalDigits(n);
    AccumulateDecimal(n);
    ReadInteger("", Decimal(n), rest);
    assert "" + Decimal(n) + rest == Decimal(n) + rest;
  }

  lemma ReadNegative(n: int, rest: string)
    requires 0 < n <= TWO_63 && Ends(rest)
    ensures ReadNumber("-" + Decimal(n) + rest) == Some((Number(-n), rest))
  {
    hide ReadNumber;
    DecimalDigits(n);
    AccumulateDecimal(n);
    ReadInteger("-", Decimal(n), rest);
  }

  /* Trees survive the round trip. */

  /** Integers a 64-bit word can hold, signed or not, no doubles, distinct keys. */
  ghost predicate Fits(j: Json) {
    match j
    case Number(n) => -TWO_63 <= n < TWO_64
    case Double(_) => false
    case Array(items) => forall i :: 0 <= i < |items| ==> Fits(items[i])
    case Object(members) =>
      && (forall i :: 0 <= i < |members| ==> Fits(members[i].value))
      && (forall i, k :: 0 <= i < k < |members| ==> members[i].key != members[k].key)
    case _ => true
  }

  /** At most `d` containers inside each other. */
  ghost predicate Shallow(j: Json, d: nat) {
    match j
    case Array(items) => d > 0 && forall i :: 0 <= i < |items| ==> Shallow(items[i], d - 1)
    case Object(members) => d > 0 && forall i :: 0 <= i < |members| ==> Shallow(members[i].value, d - 1)
    case _ => true
  }

  /** No container of the tree begins where the stack has exactly the largest size allowed. */
  ghost predicate Opens(j: Json, open: nat, inMember: bool) {
    match j
    case Array(items) =>
      Level(open, inMember) != MAX_DEPTH && forall i :: 0 <= i < |items| ==> Opens(items[i], open + 1, false)
    case Object(members) =>
      Level(open, inMember) != MAX_DEPTH && forall i :: 0 <= i < |members| ==> Opens(members[i].value, open + 1, true)
    case _ => true
  }

  lemma {:induction false} ShallowOpens(j: Json, open: nat, inMember: bool, d: nat)
    requires Shallow(j, d) && open + d <= MAX_DEPTH
    ensures Opens(j, open, inMember)
  {
    match j
    case Array(items) => forall i | 0 <= i < |items| ensures Opens(items[i], open + 1, false) {
      ShallowOpens(items[i], open + 1, false, d - 1);
    }
    case Object(members) => forall i | 0 <= i < |members| ensures Opens(members[i].value, open + 1, true) {
      ShallowOpens(members[i].value, open + 1, true, d - 1);
    }
    case _ =>
  }

  /** The parser is about to read a value. */
  ghost predicate Standing(p: Parser) {
    match p.state
    case Initial => p.frames == []
    case ArrayInitial | ArrayValue => p.frames != [] && p.frames[|p.frames| - 1].ArrayFrame?
    case ObjectValue => p.frames != [] && p.frames[|p.frames| - 1].ObjectFrame? && p.frames[|p.frames| - 1].key.Some?
    case _ => false
  }

  ghost predicate Running(p: Parser) { !p.state.Final? && !p.state.Failed? }

  ghost predicate AllSpace(sp: string) { forall i :: 0 <= i < |sp| ==> IsSpace(sp[i]) }

  lemma {:induction false} Skip(c: Codec, p: Parser, sp: string, s: string)
    requires Running(p) && AllSpace(sp)
    ensures Run(c, p, sp + s) == Run(c, p, s)
  {
    if sp == [] {
      assert sp + s == s;
    } else {
      assert (sp + s)[1..] == sp[1..] + s;
      Skip(c, p, sp[1..], s);
    }
  }

  lemma BreakIsSpace(m: Manipulator, l: Layout, depth: nat)
    ensures AllSpace(Break(m, l, depth))
  {
  }

  /** The outer parser with one more container open. */
  ghost function Inside(p: Parser, state: State, f: Frame): Parser { Parser(state, p.frames + [f], p.root) }

  lemma CloseDelivers(p: Parser, state: State, f: Frame)
    ensures Close(Inside(p, state, f)) == Deliver(p, if f.ArrayFrame? then Array(f.items) else Object(f.members))
  {
    var q := Inside(p, state, f);
    assert q.frames[..|q.frames| - 1] == p.frames;
  }

  lemma RoundNull(c: Codec, p: Parser, rest: string)
    requires WantsValue(p.state)
    ensures Round(c, p, "null" + rest) == (Deliver(p, Null), rest)
  {
    assert ("null" + rest)[4..] == rest;
  }

  lemma RoundBool(c: Codec, p: Parser, b: bool, rest: string)
    requires WantsValue(p.state)
    ensures Round(c, p, (if b then "true" else "false") + rest) == (Deliver(p, Bool(b)), rest)
  {
    assert ("true" + rest)[4..] == rest && ("false" + rest)[5..] == rest;
    assert ("true" + rest)[0] == 't' && ("false" + rest)[0] == 'f';
  }

  lemma RoundNumber(c: Codec, p: Parser, n: int, rest: string)
    requires WantsValue(p.state) && -TWO_63 <= n < TWO_64 && Ends(rest)
    ensures var t := if n < 0 then
      "-" + Decimal(-n) else Decimal(n); Round(c, p, t + rest) == (Deliver(p, Number(n)), rest)
  {
    hide ReadNumber, Deliver;
    if n < 0 {
      ReadNegative(-n, rest);
      assert ("-" + Decimal(-n) + rest)[0] == '-';
    } else {
      DecimalDigits(n);
      ReadDecimal(n, rest);
      assert (Decimal(n) + rest)[0] == Decimal(n)[0];
    }
  }

  ghost function Quoted(c: Codec, v: string): string { ['"'] + c.encode(v) + ['"'] }

  lemma ScanQuoted(c: Codec, v: string, rest: string)
    requires Inverse(c)
    ensures (Quoted(c, v) + rest)[0] == '"' && c.scan((Quoted(c, v) + rest)[1..]) == Some(Scanned(v, rest))
    ensures |rest| < |Quoted(c, v) + rest|
  {
    assert (Quoted(c, v) + rest)[1..] == c.encode(v) + ['"'] + rest;
  }

  lemma RoundString(c: Codec, p: Parser, v: string, rest: string)
    requires Inverse(c) && WantsValue(p.state)
    ensures Round(c, p, Quoted(c, v) + rest) == (Deliver(p, Str(v)), rest)
  {
    hide Quoted, Deliver, ReadNumber, Literal;
    ScanQuoted(c, v, rest);
  }

  lemma RoundKey(c: Codec, p: Parser, v: string, rest: string)
    requires Inverse(c) && (p.state.ObjectInitial? || p.state.ObjectKey?)
    ensures Round(c, p, Quoted(c, v) + rest) == (Named(p, v), rest)
  {
    hide Quoted, Named, ReadNumber, Literal;
    ScanQuoted(c, v, rest);
  }

  lemma OneRound(c: Codec, p: Parser, s: string)
    requires Running(p) && s != []
    ensures Run(c, p, s) == Run(c, Round(c, p, s).0, Round(c, p, s).1)
  {
  }

  lemma ReadPrimitive(c: Codec, m: Manipulator, j: Json, depth: nat, p: Parser, rest: string)
    requires Inverse(c) && Fits(j) && Standing(p) && Ends(rest) && !j.Array? && !j.Object?
    ensures Run(c, p, Text(c, m, j, depth) + rest) == Run(c, Deliver(p, j), rest)
  {
    hide Round, Deliver, Decimal, Inverse;
    match j
    case Null => RoundNull(c, p, rest);
    case Bool(b) => RoundBool(c, p, b, rest);
    case Number(n) => RoundNumber(c, p, n, rest); DecimalDigits(if n < 0 then -n else n);
    case Str(v) => RoundString(c, p, v, rest);
  }

  /* Containers. */

  lemma RoundOpen(c: Codec, p: Parser, isArray: bool, s: string)
    requires WantsValue(p.state) && StackSize(p) != MAX_DEPTH
    ensures Round(c, p, (if isArray then "[" else "{") + s) ==
      (if isArray then Inside(p, ArrayInitial, ArrayFrame([])) else Inside(p, ObjectInitial, ObjectFrame([], None)), s)
  {
    assert ("[" + s)[1..] == s && ("{" + s)[1..] == s;
  }

  lemma RoundClose(c: Codec, p: Parser, state: State, f: Frame, s: string)
    requires if f.ArrayFrame? then
      state.ArrayInitial? || state.ArrayDelim? else state.ObjectInitial? || state.ObjectDelim?
    ensures Round(c, Inside(p, state, f), (if f.ArrayFrame? then "]" else "}") + s) ==
      (Deliver(p, if f.ArrayFrame? then Array(f.items) else Object(f.members)), s)
  {
    CloseDelivers(p, state, f);
    assert ("]" + s)[1..] == s && ("}" + s)[1..] == s;
  }

  lemma RoundComma(c: Codec, p: Parser, f: Frame, s: string)
    ensures Round(c, Inside(p, if f.ArrayFrame? then ArrayDelim else ObjectDelim, f), "," + s) ==
      (Inside(p, if f.ArrayFrame? then ArrayValue else ObjectKey, f), s)
  {
    assert ("," + s)[1..] == s;
  }

  lemma RoundColon(c: Codec, p: Parser, f: Frame, s: string)
    ensures Round(c, Inside(p, ObjectColon, f), ":" + s) == (Inside(p, ObjectValue, f), s)
  {
    assert (":" + s)[1..] == s;
  }

  lemma DeliverInside(p: Parser, state: State, f: Frame, v: Json)
    requires f.ObjectFrame? ==> f.key.Some?
    ensures Deliver(Inside(p, state, f), v) ==
      if f.ArrayFrame? then Inside(p, ArrayDelim, ArrayFrame(f.items + [v]))
      else Inside(p, ObjectDelim, ObjectFrame(SetMember(f.members, f.key.value, v), None))
  {
    var q := Inside(p, state, f);
    assert q.frames[..|q.frames| - 1] == p.frames;
  }

  lemma NamedInside(p: Parser, state: State, members: seq<Member>, key: string)
    ensures Named(Inside(p, state, ObjectFrame(members, None)), key) ==
      Inside(p, ObjectColon, ObjectFrame(members, Some(key)))
  {
    var q := Inside(p, state, ObjectFrame(members, None));
    assert q.frames[..|q.frames| - 1] == p.frames;
  }

  lemma {:induction false} SetNew(members: seq<Member>, key: string, v: Json)
    requires forall i :: 0 <= i < |members| ==> members[i].key != key
    ensures SetMember(members, key, v) == members + [Member(key, v)]
  {
    if members != [] { SetNew(members[1..], key, v); }
  }

  /** The text that follows an item never continues it. */
  lemma ItemsEnd(c: Codec, m: Manipulator, j: Json, depth: nat, k: nat, rest: string)
    requires j.Array? && 0 < k <= |j.items|
    ensures Ends(ItemsText(c, m, j, depth, k) + rest)
  {
    var l := LayoutOf(m, j, depth);
    if k < |j.items| { assert l.comma[0] == ','; }
  }

  lemma MembersEnd(c: Codec, m: Manipulator, j: Json, depth: nat, k: nat, rest: string)
    requires j.Object? && 0 < k <= |j.members|
    ensures Ends(MembersText(c, m, j, depth, k) + rest)
  {
    var l := LayoutOf(m, j, depth);
    if k < |j.members| { assert l.comma[0] == ','; }
  }

  /** The separator before child `k`, and the line break after it. */
  lemma ReadSeparator(c: Codec, m: Manipulator, l: Layout, depth: nat, p: Parser, f: Frame, first: bool, s: string)
    requires l.comma == "," || l.comma == ", "
    ensures Run(c, Inside(p, if f.ArrayFrame? then
      (if first then ArrayInitial else ArrayDelim) else (if first then ObjectInitial else ObjectDelim), f),
                (if first then "" else l.comma) + Break(m, l, depth) + s) ==
      Run(c, Inside(p, if f.ArrayFrame? then
          (if first then ArrayInitial else ArrayValue) else (if first then ObjectInitial else ObjectKey), f), s)
  {
    hide Round, Inside, Break;
    BreakIsSpace(m, l, depth);
    var b := Break(m, l, depth);
    InsideRunning(p, f);
    if first {
      assert "" + b + s == b + s;
      Skip(c, Inside(p, if f.ArrayFrame? then ArrayInitial else ObjectInitial, f), b, s);
    } else {
      var before, after := Inside(p, if f.ArrayFrame? then ArrayDelim else ObjectDelim, f),
          Inside(p, if f.ArrayFrame? then ArrayValue else ObjectKey, f);
      var sp := (if l.comma == "," then "" else " ") + b;
      assert l.comma + b + s == "," + (sp + s);
      RoundComma(c, p, f, sp + s);
      OneRound(c, before, "," + (sp + s));
      Skip(c, after, sp, s);
    }
  }

  lemma InsideRunning(p: Parser, f: Frame)
    ensures forall st: State :: !st.Final? && !st.Failed? ==> Running(Inside(p, st, f))
  {
  }

  lemma ReadColon(c: Codec, l: Layout, p: Parser, f: Frame, s: string)
    requires l.colon == ":" || l.colon == ": "
    ensures Run(c, Inside(p, ObjectColon, f), l.colon + s) == Run(c, Inside(p, ObjectValue, f), s)
  {
    hide Round, Inside;
    InsideRunning(p, f);
    var sp := if l.colon == ":" then "" else " ";
    assert l.colon + s == ":" + (sp + s);
    RoundColon(c, p, f, sp + s);
    OneRound(c, Inside(p, ObjectColon, f), ":" + (sp + s));
    Skip(c, Inside(p, ObjectValue, f), sp, s);
  }

  lemma ReadEnd(c: Codec, m: Manipulator, l: Layout, depth: nat, p: Parser, f: Frame, first: bool, s: string)
    ensures Run(c, Inside(p, if f.ArrayFrame? then
      (if first then ArrayInitial else ArrayDelim) else (if first then ObjectInitial else ObjectDelim), f),
                (if first then "" else Break(m, l, depth)) + (if f.ArrayFrame? then "]" else "}") + s) ==
      Run(c, Deliver(p, if f.ArrayFrame? then Array(f.items) else Object(f.members)), s)
  {
    hide Round, Inside, Break, Deliver;
    BreakIsSpace(m, l, depth);
    InsideRunning(p, f);
    var state := if f.ArrayFrame? then
        (if first then ArrayInitial else ArrayDelim) else (if first then ObjectInitial else ObjectDelim);
    var b := if first then "" else Break(m, l, depth);
    var e := if f.ArrayFrame? then "]" else "}";
    assert b + e + s == b + (e + s);
    Skip(c, Inside(p, state, f), b, e + s);
    RoundClose(c, p, state, f, s);
    OneRound(c, Inside(p, state, f), e + s);
  }

  lemma StandingWants(p: Parser)
    requires Standing(p)
    ensures WantsValue(p.state) && StackSize(p) == Level(|p.frames|, p.state.ObjectValue?) && Running(p)
  {
  }

  lemma LayoutStrings(m: Manipulator, j: Json, depth: nat)
    ensures var l := LayoutOf(m, j, depth); (l.comma == "," || l.comma == ", ") && (l.colon == ":" || l.colon == ": ")
  {
  }

  /** Whatever the printer wrote for a value, the parser reads back that value and nothing else. */
  lemma {:induction false} ReadValue(c: Codec, m: Manipulator, j: Json, depth: nat, p: Parser, rest: string)
    requires Inverse(c) && Fits(j) && Opens(j, |p.frames|, p.state.ObjectValue?) && Standing(p) && Ends(rest)
    ensures Run(c, p, Text(c, m, j, depth) + rest) == Run(c, Deliver(p, j), rest)
    decreases j, 1, 0
  {
    hide Round, Deliver, Inverse, Standing, Inside, StackSize;
    if !j.Array? && !j.Object? {
      ReadPrimitive(c, m, j, depth, p, rest);
    } else {
      StandingWants(p);
      var body := if j.Array? then ItemsText(c, m, j, depth, 0) else MembersText(c, m, j, depth, 0);
      var open := if j.Array? then "[" else "{";
      assert Text(c, m, j, depth) + rest == open + (body + rest);
      RoundOpen(c, p, j.Array?, body + rest);
      OneRound(c, p, open + (body + rest));
      if j.Array? {
        assert j.items[..0] == [];
        ReadItems(c, m, j, depth, 0, p, rest);
      } else {
        assert j.members[..0] == [];
        ReadMembers(c, m, j, depth, 0, p, rest);
      }
    }
  }

  lemma {:induction false} ReadItems(c: Codec, m: Manipulator, j: Json, depth: nat, k: nat, p: Parser, rest: string)
    requires j.Array? && k <= |j.items| && Inverse(c) && Fits(j)
    requires forall i :: 0 <= i < |j.items| ==> Opens(j.items[i], |p.frames| + 1, false)
    ensures Run(c, Inside(p, if k == 0 then ArrayInitial else ArrayDelim, ArrayFrame(j.items[..k])),
      ItemsText(c, m, j, depth, k) + rest) ==
            Run(c, Deliver(p, j), rest)
    decreases j, 0, |j.items| - k
  {
    hide Round, Deliver, Inverse, Inside, Text, Break, LayoutOf;
    var l, f := LayoutOf(m, j, depth), ArrayFrame(j.items[..k]);
    if k == |j.items| {
      assert j.items[..k] == j.items;
      ReadEnd(c, m, l, depth, p, f, k == 0, rest);
    } else {
      var value, tail := Text(c, m, j.items[k], depth + 1), ItemsText(c, m, j, depth, k + 1);
      var lead := (if k == 0 then "" else l.comma) + Break(m, l, depth + 1);
      assert ItemsText(c, m, j, depth, k) + rest == lead + (value + (tail + rest));
      LayoutStrings(m, j, depth);
      ReadSeparator(c, m, l, depth + 1, p, f, k == 0, value + (tail + rest));
      var state := if k == 0 then ArrayInitial else ArrayValue;
      var q := Inside(p, state, f);
      InsideStanding(p, state, f);
      ItemsEnd(c, m, j, depth, k + 1, rest);
      ReadValue(c, m, j.items[k], depth + 1, q, tail + rest);
      DeliverInside(p, state, f, j.items[k]);
      assert j.items[..k] + [j.items[k]] == j.items[..k + 1];
      ReadItems(c, m, j, depth, k + 1, p, rest);
    }
  }

  lemma InsideStanding(p: Parser, state: State, f: Frame)
    requires || (f.ArrayFrame? && (state.ArrayInitial? || state.ArrayValue?))
             || (f.ObjectFrame? && f.key.Some? && state.ObjectValue?)
    ensures Standing(Inside(p, state, f)) && |Inside(p, state, f).frames| == |p.frames| + 1
    ensures Inside(p, state, f).state == state
  {
  }

  lemma {:induction false} ReadMembers(c: Codec, m: Manipulator, j: Json, depth: nat, k: nat, p: Parser,
      rest: string)
    requires j.Object? && k <= |j.members| && Inverse(c) && Fits(j)
    requires forall i :: 0 <= i < |j.members| ==> Opens(j.members[i].value, |p.frames| + 1, true)
    ensures Run(c, Inside(p, if k == 0 then ObjectInitial else ObjectDelim, ObjectFrame(j.members[..k], None)),
      MembersText(c, m, j, depth, k) + rest) ==
            Run(c, Deliver(p, j), rest)
    decreases j, 0, |j.members| - k
  {
    hide Round, Deliver, Inverse, Inside, Text, Break, LayoutOf;
    var l, f := LayoutOf(m, j, depth), ObjectFrame(j.members[..k], None);
    if k == |j.members| {
      assert j.members[..k] == j.members;
      ReadEnd(c, m, l, depth, p, f, k == 0, rest);
    } else {
      var key, v := j.members[k].key, j.members[k].value;
      var value, tail := Text(c, m, v, depth + 1), MembersText(c, m, j, depth, k + 1);
      var lead := (if k == 0 then "" else l.comma) + Break(m, l, depth + 1);
      MembersSplit(lead, Quoted(c, key), l.colon, value, tail, rest);
      LayoutStrings(m, j, depth);
      ReadToValue(c, m, l, depth + 1, p, f.members, key, k == 0, value + (tail + rest));
      var g := ObjectFrame(f.members, Some(key));
      var q := Inside(p, ObjectValue, g);
      InsideStanding(p, ObjectValue, g);
      MembersEnd(c, m, j, depth, k + 1, rest);
      ReadValue(c, m, v, depth + 1, q, tail + rest);
      DeliverInside(p, ObjectValue, g, v);
      SetNew(f.members, key, v);
      assert j.members[..k] + [Member(key, v)] == j.members[..k + 1];
      ReadMembers(c, m, j, depth, k + 1, p, rest);
    }
  }

  /** From the end of one member to the value of the next. */
  lemma ReadToValue(c: Codec, m: Manipulator, l: Layout, depth: nat, p: Parser, members: seq<Member>, key: string,
      first: bool, s: string)
    requires Inverse(c) && (l.comma == "," || l.comma == ", ") && (l.colon == ":" || l.colon == ": ")
    ensures Run(c, Inside(p, if first then ObjectInitial else ObjectDelim, ObjectFrame(members, None)),
                (if first then "" else l.comma) + Break(m, l, depth) + (Quoted(c, key) + (l.colon + s))) ==
            Run(c, Inside(p, ObjectValue, ObjectFrame(members, Some(key))), s)
  {
    hide Round, Inverse, Inside, Break;
    var f := ObjectFrame(members, None);
    ReadSeparator(c, m, l, depth, p, f, first, Quoted(c, key) + (l.colon + s));
    ReadKey(c, l, p, members, key, first, s);
  }

  lemma MembersSplit(lead: string, quoted: string, colon: string, value: string, tail: string, rest: string)
    ensures lead + quoted + colon + value + tail + rest == lead + (quoted + (colon + (value + (tail + rest))))
  {
  }

  lemma ReadKey(c: Codec, l: Layout, p: Parser, members: seq<Member>, key: string, first: bool, s: string)
    requires Inverse(c) && (l.colon == ":" || l.colon == ": ")
    ensures Run(c, Inside(p, if first then ObjectInitial else ObjectKey, ObjectFrame(members, None)),
      Quoted(c, key) + (l.colon + s)) ==
            Run(c, Inside(p, ObjectValue, ObjectFrame(members, Some(key))), s)
  {
    hide Round, Inside, Inverse, Quoted;
    var state := if first then ObjectInitial else ObjectKey;
    var f := ObjectFrame(members, None);
    InsideRunning(p, f);
    KeyStates(p, f);
    ScanQuoted(c, key, l.colon + s);
    RoundKey(c, Inside(p, state, f), key, l.colon + s);
    OneRound(c, Inside(p, state, f), Quoted(c, key) + (l.colon + s));
    NamedInside(p, state, members, key);
    ReadColon(c, l, p, ObjectFrame(members, Some(key)), s);
  }

  lemma KeyStates(p: Parser, f: Frame)
    ensures Inside(p, ObjectInitial, f).state.ObjectInitial? && Inside(p, ObjectKey, f).state.ObjectKey?
  {
  }

  /** Parsing undoes printing, for every tree and every layout. */
  lemma RoundTrip(c: Codec, m: Manipulator, j: Json)
    requires Inverse(c) && Fits(j) && Shallow(j, MAX_DEPTH)
    ensures Parse(c, Unparse(c, m, j)) == Some(j)
  {
    hide Inverse, Fits, Shallow;
    var rest := if m.newlineTerminator then "\n" else "";
    ShallowOpens(j, 0, false, MAX_DEPTH);
    ReadValue(c, m, j, 0, Start(), rest);
    assert Deliver(Start(), j) == Parser(Final, [], j);
  }

  /** White space before a value is always skipped; behind it, one character is accepted and no more. */
  lemma SurroundedText(c: Codec, m: Manipulator, j: Json, before: string, after: string)
    requires Inverse(c) && Fits(j) && Shallow(j, MAX_DEPTH) && AllSpace(before) && AllSpace(after)
    ensures Parse(c, before + Text(c, m, j, 0) + after) == if |after| <= 1 then Some(j) else None
  {
    hide Inverse, Fits, Shallow;
    assert before + Text(c, m, j, 0) + after == before + (Text(c, m, j, 0) + after);
    Skip(c, Start(), before, Text(c, m, j, 0) + after);
    ShallowOpens(j, 0, false, MAX_DEPTH);
    ReadValue(c, m, j, 0, Start(), after);
    assert Deliver(Start(), j) == Parser(Final, [], j);
  }

  /* The parser as it runs. */

  class StreamingParser {
    const codec: Codec
    var state: State
    var stack: seq<Frame>
    var json: Json

    function Abs(): Parser reads this { Parser(state, stack, json) }

    constructor (codec: Codec)
      ensures Abs() == Start() && this.codec == codec
    {
      this.codec, state, stack, json := codec, Initial, [], Null;
    }

    method Value(v: Json)
      modifies this
      ensures Abs() == Deliver(old(Abs()), v)
    {
      if stack == [] {
        json, state := v, Final;
      } else {
        var n := |stack| - 1;
        match stack[n] {
          case ArrayFrame(items) =>
            stack := stack[..n] + [ArrayFrame(items + [v])];
            state := ArrayDelim;
          case ObjectFrame(members, key) =>
            if key.None? {
              state := Failed;
            } else {
              stack := stack[..n] + [ObjectFrame(SetMember(members, key.value, v), None)];
              state := ObjectDelim;
            }
        }
      }
    }

    method CloseValue()
      modifies this
      ensures Abs() == Close(old(Abs()))
    {
      if stack == [] {
        state := Failed;
      } else {
        var n := |stack| - 1;
        var v := match stack[n] case ArrayFrame(items) => Array(items) case ObjectFrame(members, _) => Object(members);
        stack := stack[..n];
        Value(v);
      }
    }

    /** What the loop does with a character that is not white space. */
    method Character(text: string) returns (rest: string)
      requires text != [] && !IsSpace(text[0]) && !state.Final? && !state.Failed?
      modifies this
      ensures (Abs(), rest) == Round(codec, old(Abs()), text)
    {
      hide ReadNumber, Literal;
      var ch := text[0];
      rest := text[1..];
      if ch == ',' && state.ArrayDelim? {
        state := ArrayValue;
      } else if ch == ',' && state.ObjectDelim? {
        state := ObjectKey;
      } else if ch == ':' && state.ObjectColon? {
        state := ObjectValue;
      } else if (ch == '{' || ch == '[') && WantsValue(state) {
        if StackSize(Abs()) == MAX_DEPTH {
          state := Failed;
        } else {
          stack := stack + [if ch == '{' then ObjectFrame([], None) else ArrayFrame([])];
          state := if ch == '{' then ObjectInitial else ArrayInitial;
        }
      } else if ch == '}' && (state.ObjectInitial? || state.ObjectDelim?) {
        CloseValue();
      } else if ch == ']' && (state.ArrayInitial? || state.ArrayDelim?) {
        CloseValue();
      } else {
        rest := Token(text);
      }
    }

    /** Strings, literals and numbers. */
    method Token(text: string) returns (rest: string)
      requires text != [] && !IsSpace(text[0]) && !state.Final? && !state.Failed?
      requires !(text[0] == ',' && (state.ArrayDelim? || state.ObjectDelim?)) && !(text[0] == ':' && state.ObjectColon?)
      requires !((text[0] == '{' || text[0] == '[') && WantsValue(state))
      requires !(text[0] == '}' && (state.ObjectInitial? || state.ObjectDelim?))
      requires !(text[0] == ']' && (state.ArrayInitial? || state.ArrayDelim?))
      modifies this
      ensures (Abs(), rest) == Round(codec, old(Abs()), text)
    {
      hide ReadNumber, Literal, Deliver;
      var ch := text[0];
      rest := text;
      if ch == '"' && (WantsValue(state) || state.ObjectInitial? || state.ObjectKey?) {
        var r := codec.scan(text[1..]);
        if r.None? || |r.value.rest| >= |text| {
          state := Failed;
        } else if WantsValue(state) {
          rest := r.value.rest;
          Value(Str(r.value.value));
        } else if stack == [] || !stack[|stack| - 1].ObjectFrame? {
          rest := r.value.rest;
          state := Failed;
        } else {
          rest := r.value.rest;
          var n := |stack| - 1;
          stack := stack[..n] + [stack[n].(key := Some(r.value.value))];
          state := ObjectColon;
        }
      } else if (ch == 'n' || ch == 'f' || ch == 't' || ch == '-' || IsDigit(ch)) && WantsValue(state) {
        var r := if ch == '-' || IsDigit(ch) then ReadNumber(text) else Literal(text);
        if r.Some? {
          rest := r.value.1;
          Value(r.value.0);
        } else {
          state := Failed;
        }
      } else {
        state := Failed;
      }
    }

    /** The parser's loop: reads until the value is complete, an error or the end of the text. */
    method Consume(text: string) returns (rest: string)
      modifies this
      ensures (Abs(), rest) == Run(codec, old(Abs()), text)
    {
      hide Round;
      rest := text;
      while rest != [] && !state.Final? && !state.Failed?
        invariant Run(codec, Abs(), rest) == Run(codec, old(Abs()), text)
        decreases |rest|, if state.Failed? then 0 else 1
      {
        RoundShortens(codec, Abs(), rest);
        if IsSpace(rest[0]) {
          rest := SkipSpaces(rest);
        } else {
          OneRound(codec, Abs(), rest);
          rest := Character(rest);
        }
      }
    }

    method SkipSpaces(text: string) returns (rest: string)
      requires text != [] && IsSpace(text[0]) && !state.Final? && !state.Failed?
      ensures |rest| < |text| && Run(codec, Abs(), rest) == Run(codec, Abs(), text)
    {
      rest := text[1..];
      assert text == [text[0]] + rest;
      Skip(codec, Abs(), [text[0]], rest);
      while rest != [] && IsSpace(rest[0])
        invariant |rest| < |text| && Run(codec, Abs(), rest) == Run(codec, Abs(), text)
        decreases |rest|
      {
        assert rest == [rest[0]] + rest[1..];
        Skip(codec, Abs(), [rest[0]], rest[1..]);
        rest := rest[1..];
      }
    }
  }

  lemma RoundShortens(c: Codec, p: Parser, s: string)
    requires s != [] && !p.state.Final? && !p.state.Failed?
    ensures var r := Round(c, p, s); |r.1| < |s| || (r.0.state.Failed? && |r.1| <= |s|)
  {
  }

  /* A codec for which reading undoes writing: quotes and backslashes are escaped. */

  function Escape(s: string): string {
    if s == [] then []
    else (if s[0] == '"' || s[0] == '\\' then ['\\', s[0]] else [s[0]]) + Escape(s[1..])
  }

  function Unescape(s: string): Option<Scanned> {
    if s == [] then None
    else if s[0] == '"' then Some(Scanned([], s[1..]))
    else if s[0] == '\\' then
      if |s| == 1 then None else Prepend(s[1], Unescape(s[2..]))
    else Prepend(s[0], Unescape(s[1..]))
  }

  function Prepend(ch: char, r: Option<Scanned>): Option<Scanned> {
    if r.None? then None else Some(Scanned([ch] + r.value.value, r.value.rest))
  }

  lemma UnescapeOne(ch: char, tail: string)
    ensures Unescape((if ch == '"' || ch == '\\' then ['\\', ch] else [ch]) + tail) == Prepend(ch, Unescape(tail))
  {
    assert (['\\', ch] + tail)[2..] == tail && ([ch] + tail)[1..] == tail;
  }

  lemma UnescapeEnd(rest: string)
    ensures Unescape(['"'] + rest) == Some(Scanned([], rest))
  {
    assert (['"'] + rest)[1..] == rest;
  }

  lemma EscapeSplit(s: string, rest: string)
    ensures s == [] ==> Escape(s) + ['"'] + rest == ['"'] + rest
    ensures s != [] ==> (Escape(s) + ['"'] + rest ==
                         (if s[0] == '"' || s[0] == '\\' then ['\\', s[0]] else [s[0]]) + (Escape(s[1..]) + ['"'] +
                             rest))
  {
  }

  lemma {:induction false} UnescapeEscape(s: string, rest: string)
    ensures Unescape(Escape(s) + ['"'] + rest) == Some(Scanned(s, rest))
  {
    EscapeSplit(s, rest);
    hide Escape;
    if s == [] {
      UnescapeEnd(rest);
    } else {
      UnescapeEscape(s[1..], rest);
      UnescapeOne(s[0], Escape(s[1..]) + ['"'] + rest);
      assert [s[0]] + s[1..] == s;
    }
  }

  const ESCAPING := Codec(Escape, Unescape)

  lemma EscapingInverse()
    ensures Inverse(ESCAPING)
  {
    forall s: string, rest: string
      ensures ESCAPING.scan(ESCAPING.encode(s) + ['"'] + rest) == Some(Scanned(s, rest))
    {
      UnescapeEscape(s, rest);
    }
  }
}
