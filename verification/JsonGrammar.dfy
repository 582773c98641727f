/** The language of JSON texts as a relation between text and tree, and the parser's agreement with it. */
module JsonGrammar {
  import opened Options
  import opened JsonText
  import opened JsonNumerals

  /** The text from the first character that is not white space. */
  function Trim(s: string): (t: string)
    ensures |t| <= |s| && (t == [] || !IsSpace(t[0]))
  {
    if s != [] && IsSpace(s[0]) then Trim(s[1..]) else s
  }

  /* Objects keep one member for each key: keys stand in the order they first occur in, each with
     the value it was given last. */

  function KeysOf(written: seq<Member>): seq<string> {
    if written == [] then []
    else
      var keys, last := KeysOf(written[..|written| - 1]), written[|written| - 1].key;
      if last in keys then keys else keys + [last]
  }

  function LastValue(written: seq<Member>, key: string): Json {
    if written == [] then Null
    else
      var n := |written| - 1;
      if written[n].key == key then written[n].value else LastValue(written[..n], key)
  }

  function Merged(written: seq<Member>): seq<Member> {
    var keys := KeysOf(written);
    seq(|keys|, i requires 0 <= i < |keys| => Member(keys[i], LastValue(written, keys[i])))
  }

  /* The grammar. `X(.., s, .., rest, ..)` says that the text `s` begins with an X and that `rest` is what
     stands behind it; `open` containers are open around it. */

  /** `word` stands at the front of `s`. */
  ghost predicate WordAt(s: string, word: string, rest: string) { s == word + rest }

  ghost predicate NumeralAt(s: string, x: Numeral, j: Json, rest: string) {
    IsNumeral(x) && Meaning(x) == j && s == NumeralText(x) + rest
  }

  /** A quoted string, in the notation the codec scans. */
  ghost predicate StringAt(c: Codec, s: string, v: string, rest: string) {
    s != [] && s[0] == '"' && |rest| < |s| && c.scan(s[1..]) == Some(Scanned(v, rest))
  }

  /** One character, white space before it allowed. */
  ghost predicate MarkAt(s: string, ch: char, rest: string) { Trim(s) == [ch] + rest }

  ghost predicate ValueAt(c: Codec, s: string, j: Json, rest: string, open: nat, inMember: bool)
    decreases |s|, 1
  {
    && |rest| < |s|
    && match j
       case Null => WordAt(s, "null", rest)
       case Bool(b) => WordAt(s, if b then "true" else "false", rest)
       case Number(_) => exists x :: NumeralAt(s, x, j, rest)
       case Double(_) => exists x :: NumeralAt(s, x, j, rest)
       case Str(v) => StringAt(c, s, v, rest)
       case Array(items) =>
         s[0] == '[' && Level(open, inMember) != MAX_DEPTH && ItemsAt(c, s[1..], items, rest, open + 1)
       case Object(members) =>
         && s[0] == '{' && Level(open, inMember) != MAX_DEPTH
         && exists written :: MembersAt(c, s[1..], written, rest, open + 1) && members == Merged(written)
  }

  /** Everything behind an opening bracket: nothing, or items with commas between them, and the closing one. */
  ghost predicate ItemsAt(c: Codec, s: string, items: seq<Json>, rest: string, open: nat)
    decreases |s|, 2
  {
    if items == [] then MarkAt(s, ']', rest)
    else exists mid ::
      |mid| < |Trim(s)| && ValueAt(c, Trim(s), items[0], mid, open, false) &&
          MoreItemsAt(c, mid, items[1..], rest, open)
  }

  ghost predicate MoreItemsAt(c: Codec, s: string, items: seq<Json>, rest: string, open: nat)
    decreases |s|, 0
  {
    if items == [] then MarkAt(s, ']', rest)
    else
      var t := Trim(s);
      t != [] && t[0] == ',' && var u := Trim(t[1..]);
        exists mid ::
          |mid| < |u| && ValueAt(c, u, items[0], mid, open, false) && MoreItemsAt(c, mid, items[1..], rest, open)
  }

  /** A key, a colon and a value. */
  ghost predicate MemberAt(c: Codec, s: string, m: Member, rest: string, open: nat)
    decreases |s|, 2
  {
    exists behind, colon ::
      && StringAt(c, Trim(s), m.key, behind) && MarkAt(behind, ':', colon)
      && |colon| < |s| && ValueAt(c, Trim(colon), m.value, rest, open, true)
  }

  ghost predicate MembersAt(c: Codec, s: string, written: seq<Member>, rest: string, open: nat)
    decreases |s|, 3
  {
    if written == [] then MarkAt(s, '}', rest)
    else exists mid ::
      |mid| < |s| && MemberAt(c, s, written[0], mid, open) && MoreMembersAt(c, mid, written[1..], rest, open)
  }

  ghost predicate MoreMembersAt(c: Codec, s: string, written: seq<Member>, rest: string, open: nat)
    decreases |s|, 0
  {
    if written == [] then MarkAt(s, '}', rest)
    else
      var t := Trim(s);
      t != [] && t[0] == ',' &&
        exists mid ::
          |mid| < |t| - 1 && MemberAt(c, t[1..], written[0], mid, open) &&
              MoreMembersAt(c, mid, written[1..], rest, open)
  }

  /** A complete text: white space, a value, and at most one white space character behind it. */
  ghost predicate Accepts(c: Codec, text: string, j: Json) {
    exists rest :: ValueAt(c, Trim(text), j, rest, 0, false) && (rest == [] || (|rest| == 1 && IsSpace(rest[0])))
  }

  /* Merging members is setting them one after another. */

  ghost predicate Once(keys: seq<string>) { forall i, k :: 0 <= i < k < |keys| ==> keys[i] != keys[k] }

  lemma {:induction false} KeysOnce(written: seq<Member>)
    ensures Once(KeysOf(written))
  {
    if written != [] {
      var keys, last := KeysOf(written[..|written| - 1]), written[|written| - 1].key;
      KeysOnce(written[..|written| - 1]);
      assert last !in keys ==> forall i :: 0 <= i < |keys| ==> keys[i] != last;
    }
  }

  lemma {:induction false} SetOld(members: seq<Member>, key: string, v: Json, i: nat)
    requires i < |members| && members[i].key == key && forall k :: 0 <= k < i ==> members[k].key != key
    ensures SetMember(members, key, v) == members[i := Member(key, v)]
  {
    if i > 0 {
      SetOld(members[1..], key, v, i - 1);
    }
  }

  lemma KeysMore(done: seq<Member>, m: Member)
    ensures KeysOf(done + [m]) == if m.key in KeysOf(done) then KeysOf(done) else KeysOf(done) + [m.key]
    ensures forall key :: LastValue(done + [m], key) == if m.key == key then m.value else LastValue(done, key)
  {
    assert (done + [m])[..|done|] == done;
  }

  lemma MergedMore(done: seq<Member>, m: Member)
    ensures SetMember(Merged(done), m.key, m.value) == Merged(done + [m])
  {
    hide SetMember, KeysOf, LastValue;
    var keys := KeysOf(done);
    KeysMore(done, m);
    if m.key in keys {
      var i :| 0 <= i < |keys| && keys[i] == m.key;
      KeysOnce(done);
      assert forall k :: 0 <= k < |keys| && k != i ==> keys[k] != keys[i];
      SetOld(Merged(done), m.key, m.value, i);
    } else {
      assert forall k :: 0 <= k < |keys| ==> keys[k] != m.key;
      SetNew(Merged(done), m.key, m.value);
    }
  }

  /* White space, and what ends a value. */

  lemma {:induction false} RunTrim(c: Codec, p: Parser, s: string)
    requires Running(p)
    ensures Run(c, p, s) == Run(c, p, Trim(s))
  {
    if s != [] && IsSpace(s[0]) {
      assert s == [s[0]] + s[1..];
      Skip(c, p, [s[0]], s[1..]);
      RunTrim(c, p, s[1..]);
    }
  }

  lemma TrimEnds(s: string)
    requires Trim(s) != [] && (Trim(s)[0] == ',' || Trim(s)[0] == ']' || Trim(s)[0] == '}')
    ensures Ends(s)
  {
  }

  lemma MoreItemsEnd(c: Codec, s: string, items: seq<Json>, rest: string, open: nat)
    requires MoreItemsAt(c, s, items, rest, open)
    ensures Ends(s)
  {
    hide ValueAt, Trim;
    assert MarkAt(s, ']', rest) ==> Trim(s)[0] == ']';
    TrimEnds(s);
  }

  lemma MoreMembersEnd(c: Codec, s: string, written: seq<Member>, rest: string, open: nat)
    requires MoreMembersAt(c, s, written, rest, open)
    ensures Ends(s)
  {
    hide MemberAt, Trim;
    assert MarkAt(s, '}', rest) ==> Trim(s)[0] == '}';
    TrimEnds(s);
  }

  /* The parser reads what the grammar allows. */

  lemma RoundWord(c: Codec, p: Parser, s: string, j: Json, rest: string)
    requires WantsValue(p.state) && (j.Null? || j.Bool?)
    requires WordAt(s, if j.Null? then "null" else if j.b then "true" else "false", rest)
    ensures s != [] && Round(c, p, s) == (Deliver(p, j), rest)
  {
    hide Round, Deliver;
    if j.Null? { RoundNull(c, p, rest); } else { RoundBool(c, p, j.b, rest); }
  }

  lemma RoundNumeral(c: Codec, p: Parser, s: string, x: Numeral, j: Json, rest: string)
    requires WantsValue(p.state) && NumeralAt(s, x, j, rest) && Ends(rest)
    ensures s != [] && Round(c, p, s) == (Deliver(p, j), rest)
  {
    hide ReadNumber, Deliver, Meaning, IsFraction, IsExponent;
    NumeralRead(x, rest);
    assert s[0] == '-' || IsDigit(s[0]);
  }

  lemma RoundScanned(c: Codec, p: Parser, s: string, v: string, rest: string)
    requires StringAt(c, s, v, rest)
    ensures WantsValue(p.state) ==> Round(c, p, s) == (Deliver(p, Str(v)), rest)
    ensures p.state.ObjectInitial? || p.state.ObjectKey? ==> Round(c, p, s) == (Named(p, v), rest)
  {
    hide ReadNumber, Deliver, Literal, Named;
  }

  lemma PrimitiveReads(c: Codec, p: Parser, s: string, j: Json, rest: string)
    requires Standing(p) && !j.Array? && !j.Object? && Ends(rest)
    requires ValueAt(c, s, j, rest, |p.frames|, p.state.ObjectValue?)
    ensures Run(c, p, s) == Run(c, Deliver(p, j), rest)
  {
    hide Round, Deliver, NumeralAt, WordAt, StringAt;
    StandingWants(p);
    match j {
      case Null => RoundWord(c, p, s, j, rest);
      case Bool(b) => RoundWord(c, p, s, j, rest);
      case Number(_) => var x :| NumeralAt(s, x, j, rest); RoundNumeral(c, p, s, x, j, rest);
      case Double(_) => var x :| NumeralAt(s, x, j, rest); RoundNumeral(c, p, s, x, j, rest);
      case Str(v) => RoundScanned(c, p, s, v, rest);
    }
    OneRound(c, p, s);
  }

  lemma {:induction false} ValueReads(c: Codec, p: Parser, s: string, j: Json, rest: string)
    requires Standing(p) && Ends(rest) && ValueAt(c, s, j, rest, |p.frames|, p.state.ObjectValue?)
    ensures Run(c, p, s) == Run(c, Deliver(p, j), rest)
    decreases |s|, 1
  {
    hide Round, Deliver, Standing, Inside, StackSize, ItemsAt, MembersAt, Merged;
    if !j.Array? && !j.Object? {
      PrimitiveReads(c, p, s, j, rest);
    } else {
      StandingWants(p);
      var body := s[1..];
      assert s == (if j.Array? then "[" else "{") + body;
      RoundOpen(c, p, j.Array?, body);
      OneRound(c, p, s);
      if j.Array? {
        ItemsRead(c, p, body, j.items, rest);
      } else {
        var written :| MembersAt(c, body, written, rest, |p.frames| + 1) && j.members == Merged(written);
        MembersRead(c, p, body, written, rest);
      }
    }
  }

  lemma {:induction false} ItemsRead(c: Codec, p: Parser, s: string, items: seq<Json>, rest: string)
    requires ItemsAt(c, s, items, rest, |p.frames| + 1)
    ensures Run(c, Inside(p, ArrayInitial, ArrayFrame([])), s) == Run(c, Deliver(p, Array(items)), rest)
    decreases |s|, 3
  {
    hide Round, Deliver, Inside, ValueAt, MoreItemsAt, Trim;
    var f := ArrayFrame([]);
    var q := Inside(p, ArrayInitial, f);
    InsideRunning(p, f);
    RunTrim(c, q, s);
    if items == [] {
      RoundClose(c, p, ArrayInitial, f, rest);
      OneRound(c, q, "]" + rest);
    } else {
      var mid :| |mid| < |Trim(s)| && ValueAt(c, Trim(s), items[0], mid, |p.frames| + 1, false)
        && MoreItemsAt(c, mid, items[1..], rest, |p.frames| + 1);
      ItemReads(c, p, ArrayInitial, [], Trim(s), items, mid, rest);
      assert [] + items == items;
    }
  }

  /** The next item and all behind it. */
  lemma {:induction false} ItemReads(c: Codec, p: Parser, state: State, done: seq<Json>, s: string, items: seq<Json>,
      mid: string, rest: string)
    requires (state.ArrayInitial? || state.ArrayValue?) && items != [] && |mid| < |s|
    requires ValueAt(c, s, items[0], mid, |p.frames| + 1, false)
    requires MoreItemsAt(c, mid, items[1..], rest, |p.frames| + 1)
    ensures Run(c, Inside(p, state, ArrayFrame(done)), s) == Run(c, Deliver(p, Array(done + items)), rest)
    decreases |s|, 2
  {
    hide Round, Deliver, Inside, ValueAt, MoreItemsAt, Standing;
    var f := ArrayFrame(done);
    InsideStanding(p, state, f);
    MoreItemsEnd(c, mid, items[1..], rest, |p.frames| + 1);
    ValueReads(c, Inside(p, state, f), s, items[0], mid);
    DeliverInside(p, state, f, items[0]);
    MoreItemsRead(c, p, done + [items[0]], mid, items[1..], rest);
    assert done + [items[0]] + items[1..] == done + items;
  }

  lemma {:induction false} MoreItemsRead(c: Codec, p: Parser, done: seq<Json>, s: string, items: seq<Json>,
      rest: string)
    requires MoreItemsAt(c, s, items, rest, |p.frames| + 1)
    ensures Run(c, Inside(p, ArrayDelim, ArrayFrame(done)), s) == Run(c, Deliver(p, Array(done + items)), rest)
    decreases |s|, 0
  {
    hide Round, Deliver, Inside, ValueAt, Trim;
    var f := ArrayFrame(done);
    var q := Inside(p, ArrayDelim, f);
    InsideRunning(p, f);
    RunTrim(c, q, s);
    if items == [] {
      assert done + items == done;
      RoundClose(c, p, ArrayDelim, f, rest);
      OneRound(c, q, "]" + rest);
    } else {
      var t := Trim(s);
      var u := Trim(t[1..]);
      var mid :| |mid| < |u| && ValueAt(c, u, items[0], mid, |p.frames| + 1, false)
        && MoreItemsAt(c, mid, items[1..], rest, |p.frames| + 1);
      assert t == "," + t[1..];
      RoundComma(c, p, f, t[1..]);
      OneRound(c, q, t);
      RunTrim(c, Inside(p, ArrayValue, f), t[1..]);
      ItemReads(c, p, ArrayValue, done, u, items, mid, rest);
    }
  }

  lemma {:induction false} MemberReads(c: Codec, p: Parser, state: State, members: seq<Member>, s: string, m: Member,
      rest: string)
    requires (state.ObjectInitial? || state.ObjectKey?) && MemberAt(c, s, m, rest, |p.frames| + 1) && Ends(rest)
    ensures Run(c, Inside(p, state, ObjectFrame(members, None)), s) ==
            Run(c, Inside(p, ObjectDelim, ObjectFrame(SetMember(members, m.key, m.value), None)), rest)
    decreases |s|, 2
  {
    hide Round, Deliver, Inside, ValueAt, Trim, SetMember, StringAt, Standing;
    var behind, colon :| StringAt(c, Trim(s), m.key, behind) && MarkAt(behind, ':', colon)
      && |colon| < |s| && ValueAt(c, Trim(colon), m.value, rest, |p.frames| + 1, true);
    KeyReads(c, p, state, members, s, m.key, behind, colon);
    var g := ObjectFrame(members, Some(m.key));
    var q := Inside(p, ObjectValue, g);
    InsideStanding(p, ObjectValue, g);
    InsideRunning(p, g);
    RunTrim(c, q, colon);
    ValueReads(c, q, Trim(colon), m.value, rest);
    DeliverInside(p, ObjectValue, g, m.value);
  }

  lemma KeyReads(c: Codec, p: Parser, state: State, members: seq<Member>, s: string, key: string, behind: string,
      colon: string)
    requires (state.ObjectInitial? || state.ObjectKey?) && StringAt(c, Trim(s), key, behind) &&
      MarkAt(behind, ':', colon)
    ensures Run(c, Inside(p, state, ObjectFrame(members, None)), s) ==
            Run(c, Inside(p, ObjectValue, ObjectFrame(members, Some(key))), colon)
  {
    hide Round, Inside, Trim, Run, Running, Named;
    var f, g := ObjectFrame(members, None), ObjectFrame(members, Some(key));
    var q := Inside(p, state, f);
    InsideRunning(p, f);
    KeyStates(p, f);
    RunTrim(c, q, s);
    RoundScanned(c, q, Trim(s), key, behind);
    OneRound(c, q, Trim(s));
    NamedInside(p, state, members, key);
    ColonReads(c, p, g, behind, colon);
  }

  lemma ColonReads(c: Codec, p: Parser, f: Frame, s: string, colon: string)
    requires MarkAt(s, ':', colon)
    ensures Run(c, Inside(p, ObjectColon, f), s) == Run(c, Inside(p, ObjectValue, f), colon)
  {
    hide Round, Inside, Trim, Running;
    InsideRunning(p, f);
    RunTrim(c, Inside(p, ObjectColon, f), s);
    RoundColon(c, p, f, colon);
    OneRound(c, Inside(p, ObjectColon, f), ":" + colon);
  }

  lemma {:induction false} MembersRead(c: Codec, p: Parser, s: string, written: seq<Member>, rest: string)
    requires MembersAt(c, s, written, rest, |p.frames| + 1)
    ensures Run(c, Inside(p, ObjectInitial, ObjectFrame([], None)), s) ==
      Run(c, Deliver(p, Object(Merged(written))), rest)
    decreases |s|, 4
  {
    hide Round, Deliver, Inside, MemberAt, MoreMembersAt, Trim, SetMember;
    assert Merged([]) == [];
    if written == [] {
      var f := ObjectFrame([], None);
      var q := Inside(p, ObjectInitial, f);
      InsideRunning(p, f);
      RunTrim(c, q, s);
      RoundClose(c, p, ObjectInitial, f, rest);
      OneRound(c, q, "}" + rest);
    } else {
      var mid :| |mid| < |s| && MemberAt(c, s, written[0], mid, |p.frames| + 1)
        && MoreMembersAt(c, mid, written[1..], rest, |p.frames| + 1);
      OneMemberReads(c, p, ObjectInitial, [], s, written, mid, rest);
      assert [] + written == written;
    }
  }

  /** The next member and all behind it. */
  lemma {:induction false} OneMemberReads(c: Codec, p: Parser, state: State, done: seq<Member>, s: string,
      written: seq<Member>, mid: string, rest: string)
    requires (state.ObjectInitial? || state.ObjectKey?) && written != [] && |mid| < |s|
    requires MemberAt(c, s, written[0], mid, |p.frames| + 1)
    requires MoreMembersAt(c, mid, written[1..], rest, |p.frames| + 1)
    ensures Run(c, Inside(p, state, ObjectFrame(Merged(done), None)), s) ==
            Run(c, Deliver(p, Object(Merged(done + written))), rest)
    decreases |s|, 3
  {
    hide Round, Deliver, Inside, MemberAt, MoreMembersAt, Merged, SetMember;
    MoreMembersEnd(c, mid, written[1..], rest, |p.frames| + 1);
    MemberReads(c, p, state, Merged(done), s, written[0], mid);
    MergedMore(done, written[0]);
    MoreMembersRead(c, p, done + [written[0]], mid, written[1..], rest);
    assert done + [written[0]] + written[1..] == done + written;
  }

  lemma {:induction false} MoreMembersRead(c: Codec, p: Parser, done: seq<Member>, s: string, written: seq<Member>,
      rest: string)
    requires MoreMembersAt(c, s, written, rest, |p.frames| + 1)
    ensures Run(c, Inside(p, ObjectDelim, ObjectFrame(Merged(done), None)), s) ==
            Run(c, Deliver(p, Object(Merged(done + written))), rest)
    decreases |s|, 0
  {
    hide Round, Deliver, Inside, MemberAt, Trim, Merged;
    var f := ObjectFrame(Merged(done), None);
    var q := Inside(p, ObjectDelim, f);
    InsideRunning(p, f);
    RunTrim(c, q, s);
    if written == [] {
      assert done + written == done;
      RoundClose(c, p, ObjectDelim, f, rest);
      OneRound(c, q, "}" + rest);
    } else {
      var t := Trim(s);
      var mid :| |mid| < |t| - 1 && MemberAt(c, t[1..], written[0], mid, |p.frames| + 1)
        && MoreMembersAt(c, mid, written[1..], rest, |p.frames| + 1);
      assert t == "," + t[1..];
      RoundComma(c, p, f, t[1..]);
      OneRound(c, q, t);
      OneMemberReads(c, p, ObjectKey, done, t[1..], written, mid, rest);
    }
  }

  /* The grammar allows what the parser reads. */

  /** The parser completes its value on this text. */
  ghost predicate Completes(c: Codec, p: Parser, s: string) { Run(c, p, s).0.state.Final? }

  /** Then there is a next token, and the round that takes it does not fail. */
  lemma NextRound(c: Codec, p: Parser, s: string)
    requires Running(p) && Completes(c, p, s)
    ensures var t := Trim(s);
            && t != [] && !Round(c, p, t).0.state.Failed? && Run(c, p, s) == Run(c, p, t)
            && Run(c, p, s) == Run(c, Round(c, p, t).0, Round(c, p, t).1)
  {
    hide Round, Trim;
    RunTrim(c, p, s);
    OneRoundOf(c, p, Trim(s));
  }

  lemma OneRoundOf(c: Codec, p: Parser, t: string)
    requires Running(p) && Completes(c, p, t)
    ensures t != [] && !Round(c, p, t).0.state.Failed? && Run(c, p, t) == Run(c, Round(c, p, t).0, Round(c, p, t).1)
  {
    hide Round;
    if t != [] { OneRound(c, p, t); }
  }

  lemma WordFound(s: string)
    requires Literal(s).Some?
    ensures var (j, rest) := Literal(s).value;
            (j.Null? || j.Bool?) && WordAt(s, if j.Null? then "null" else if j.b then "true" else "false", rest)
  {
  }

  /** A round that takes a string, a word or a number. */
  lemma PrimitiveFound(c: Codec, p: Parser, t: string) returns (j: Json, rest: string)
    requires Standing(p) && t != [] && !IsSpace(t[0]) && !Round(c, p, t).0.state.Failed?
    requires t[0] != '[' && t[0] != '{' && t[0] != ']'
    ensures ValueAt(c, t, j, rest, |p.frames|, p.state.ObjectValue?)
    ensures Round(c, p, t) == (Deliver(p, j), rest)
  {
    hide ReadNumber, Deliver, Literal, WordAt, Meaning, IsNumeral, NumeralText;
    if t[0] == '"' {
      j, rest := Str(c.scan(t[1..]).value.value), c.scan(t[1..]).value.rest;
    } else if t[0] == 'n' || t[0] == 'f' || t[0] == 't' {
      WordFound(t);
      j, rest := Literal(t).value.0, Literal(t).value.1;
      WordShortens(t, if j.Null? then "null" else if j.b then "true" else "false", rest);
    } else {
      var x := NumeralFound(t);
      j, rest := ReadNumber(t).value.0, ReadNumber(t).value.1;
      assert NumeralAt(t, x, j, rest);
      MeaningIsNumber(x);
    }
  }

  lemma WordShortens(s: string, word: string, rest: string)
    requires WordAt(s, word, rest) && word != []
    ensures |rest| < |s|
  {
  }

  lemma MeaningIsNumber(x: Numeral)
    requires IsNumeral(x)
    ensures Meaning(x).Number? || Meaning(x).Double?
  {
  }

  /** A round that opens a container. */
  lemma OpenFound(c: Codec, p: Parser, t: string)
    requires Standing(p) && t != [] && !Round(c, p, t).0.state.Failed? && (t[0] == '[' || t[0] == '{')
    ensures Level(|p.frames|, p.state.ObjectValue?) != MAX_DEPTH
    ensures Round(c, p, t) == (if t[0] == '[' then Inside(p, ArrayInitial, ArrayFrame([]))
                               else Inside(p, ObjectInitial, ObjectFrame([], None)), t[1..])
  {
  }

  lemma {:induction false} ValueFound(c: Codec, p: Parser, s: string) returns (j: Json, rest: string)
    requires Standing(p) && Completes(c, p, s) && (Trim(s) != [] ==> Trim(s)[0] != ']')
    ensures ValueAt(c, Trim(s), j, rest, |p.frames|, p.state.ObjectValue?)
    ensures Run(c, p, s) == Run(c, Deliver(p, j), rest)
    decreases |s|, 1
  {
    hide Round, Deliver, Standing, Inside, ItemsAt, MembersAt, Merged, Run, Trim;
    StandingWants(p);
    NextRound(c, p, s);
    var t := Trim(s);
    if t[0] == '[' {
      OpenFound(c, p, t);
      var items;
      items, rest := ItemsFound(c, p, t[1..]);
      j := Array(items);
    } else if t[0] == '{' {
      OpenFound(c, p, t);
      var written;
      written, rest := MembersFound(c, p, t[1..]);
      j := Object(Merged(written));
    } else {
      j, rest := PrimitiveFound(c, p, t);
    }
  }

  /** A value does not begin with a closing bracket, where an array is not just open. */
  lemma NoBracket(c: Codec, p: Parser, s: string)
    requires Completes(c, p, s) && (p.state.Initial? || p.state.ArrayValue? || p.state.ObjectValue?)
    ensures Trim(s) != [] && Trim(s)[0] != ']'
  {
    hide Trim, Run, Deliver, ReadNumber, Literal, Close, Named;
    NextRound(c, p, s);
  }

  /** What an array may go on with: its end, or a comma. */
  lemma ArrayRound(c: Codec, p: Parser, state: State, done: seq<Json>, t: string)
    requires t != [] && !IsSpace(t[0]) && (state.ArrayInitial? || state.ArrayDelim?)
    requires !Round(c, Inside(p, state, ArrayFrame(done)), t).0.state.Failed?
    ensures t[0] == ']' ==> Round(c, Inside(p, state, ArrayFrame(done)), t) == (Deliver(p, Array(done)), t[1..])
    ensures state.ArrayDelim? ==> t[0] == ']' || t[0] == ','
    ensures state.ArrayDelim? && t[0] == ',' ==>
              Round(c, Inside(p, state, ArrayFrame(done)), t) == (Inside(p, ArrayValue, ArrayFrame(done)), t[1..])
  {
    hide Deliver, ReadNumber, Literal, Close;
    CloseDelivers(p, state, ArrayFrame(done));
  }

  lemma {:induction false} ItemsFound(c: Codec, p: Parser, s: string) returns (items: seq<Json>, rest: string)
    requires Completes(c, Inside(p, ArrayInitial, ArrayFrame([])), s)
    ensures ItemsAt(c, s, items, rest, |p.frames| + 1) && |rest| < |s|
    ensures Run(c, Inside(p, ArrayInitial, ArrayFrame([])), s) == Run(c, Deliver(p, Array(items)), rest)
    decreases |s|, 3
  {
    hide Round, Deliver, Standing, Inside, Run, ValueAt, MoreItemsAt, Trim;
    var q := Inside(p, ArrayInitial, ArrayFrame([]));
    InsideRunning(p, ArrayFrame([]));
    NextRound(c, q, s);
    var t := Trim(s);
    if t[0] == ']' {
      ArrayRound(c, p, ArrayInitial, [], t);
      items, rest := [], t[1..];
      assert t == [']'] + rest;
    } else {
      items, rest := ItemFound(c, p, ArrayInitial, [], s);
      assert [] + items == items;
      var mid :| |mid| < |Trim(s)| && ValueAt(c, Trim(s), items[0], mid, |p.frames| + 1, false)
        && MoreItemsAt(c, mid, items[1..], rest, |p.frames| + 1);
    }
  }

  lemma {:induction false} ItemFound(c: Codec, p: Parser, state: State, done: seq<Json>, s: string)
    returns (items: seq<Json>, rest: string)
    requires (state.ArrayInitial? || state.ArrayValue?) && Completes(c, Inside(p, state, ArrayFrame(done)), s)
    requires Trim(s) != [] ==> Trim(s)[0] != ']'
    ensures items != [] && |rest| < |s| && exists mid ::
              |mid| < |Trim(s)| && ValueAt(c, Trim(s), items[0], mid, |p.frames| + 1, false)
              && MoreItemsAt(c, mid, items[1..], rest, |p.frames| + 1)
    ensures Run(c, Inside(p, state, ArrayFrame(done)), s) == Run(c, Deliver(p, Array(done + items)), rest)
    decreases |s|, 2
  {
    hide Round, Deliver, Standing, Inside, Run, MoreItemsAt, Trim;
    var q := Inside(p, state, ArrayFrame(done));
    InsideStanding(p, state, ArrayFrame(done));
    var j, mid := ValueFound(c, q, s);
    DeliverInside(p, state, ArrayFrame(done), j);
    var more;
    more, rest := MoreItemsFound(c, p, done + [j], mid);
    items := [j] + more;
    assert items[1..] == more && done + [j] + more == done + items;
  }

  lemma {:induction false} MoreItemsFound(c: Codec, p: Parser, done: seq<Json>, s: string)
    returns (items: seq<Json>, rest: string)
    requires Completes(c, Inside(p, ArrayDelim, ArrayFrame(done)), s)
    ensures MoreItemsAt(c, s, items, rest, |p.frames| + 1) && |rest| < |s|
    ensures Run(c, Inside(p, ArrayDelim, ArrayFrame(done)), s) == Run(c, Deliver(p, Array(done + items)), rest)
    decreases |s|, 0
  {
    hide Round, Deliver, Standing, Inside, Run, ValueAt, Trim;
    var q := Inside(p, ArrayDelim, ArrayFrame(done));
    InsideRunning(p, ArrayFrame(done));
    NextRound(c, q, s);
    var t := Trim(s);
    ArrayRound(c, p, ArrayDelim, done, t);
    if t[0] == ']' {
      items, rest := [], t[1..];
      assert t == [']'] + rest && done + items == done;
    } else {
      InsideStanding(p, ArrayValue, ArrayFrame(done));
      NoBracket(c, Inside(p, ArrayValue, ArrayFrame(done)), t[1..]);
      items, rest := ItemFound(c, p, ArrayValue, done, t[1..]);
    }
  }

  /** What an object may go on with: its end, a comma, or a key. */
  lemma ObjectRound(c: Codec, p: Parser, state: State, members: seq<Member>, t: string)
    requires t != [] && !IsSpace(t[0]) && (state.ObjectInitial? || state.ObjectKey? || state.ObjectDelim?)
    requires !Round(c, Inside(p, state, ObjectFrame(members, None)), t).0.state.Failed?
    ensures var r := Round(c, Inside(p, state, ObjectFrame(members, None)), t);
            if t[0] == '}' then !state.ObjectKey? && r == (Deliver(p, Object(members)), t[1..])
            else if state.ObjectDelim? then
              t[0] == ',' && r == (Inside(p, ObjectKey, ObjectFrame(members, None)), t[1..])
            else
              t[0] == '"' && c.scan(t[1..]).Some? && |c.scan(t[1..]).value.rest| < |t|
  {
    hide Deliver, ReadNumber, Literal, Close, Named;
    CloseDelivers(p, state, ObjectFrame(members, None));
  }

  /** A key is followed by a colon. */
  lemma ColonRound(c: Codec, p: Parser, f: Frame, t: string)
    requires t != [] && !IsSpace(t[0]) && !Round(c, Inside(p, ObjectColon, f), t).0.state.Failed?
    ensures t[0] == ':' && Round(c, Inside(p, ObjectColon, f), t) == (Inside(p, ObjectValue, f), t[1..])
  {
    hide Deliver, ReadNumber, Literal, Close, Named;
  }

  lemma KeyFound(c: Codec, p: Parser, state: State, members: seq<Member>, s: string)
    returns (key: string, behind: string, colon: string)
    requires (state.ObjectInitial? || state.ObjectKey?) && Trim(s) != [] && Trim(s)[0] != '}'
    requires Completes(c, Inside(p, state, ObjectFrame(members, None)), s)
    ensures StringAt(c, Trim(s), key, behind) && MarkAt(behind, ':', colon) && |colon| < |s|
    ensures Run(c, Inside(p, state, ObjectFrame(members, None)), s) ==
            Run(c, Inside(p, ObjectValue, ObjectFrame(members, Some(key))), colon)
  {
    hide Round, Inside, Run, Trim, Named;
    var f := ObjectFrame(members, None);
    var q := Inside(p, state, f);
    InsideRunning(p, f);
    KeyStates(p, f);
    NextRound(c, q, s);
    var t := Trim(s);
    ObjectRound(c, p, state, members, t);
    key, behind := c.scan(t[1..]).value.value, c.scan(t[1..]).value.rest;
    RoundScanned(c, q, t, key, behind);
    NamedInside(p, state, members, key);
    colon := ColonFound(c, p, ObjectFrame(members, Some(key)), behind);
  }

  lemma ColonFound(c: Codec, p: Parser, f: Frame, s: string) returns (colon: string)
    requires Completes(c, Inside(p, ObjectColon, f), s)
    ensures MarkAt(s, ':', colon) && |colon| < |s|
    ensures Run(c, Inside(p, ObjectColon, f), s) == Run(c, Inside(p, ObjectValue, f), colon)
  {
    hide Round, Inside, Run, Trim;
    InsideRunning(p, f);
    NextRound(c, Inside(p, ObjectColon, f), s);
    var t := Trim(s);
    ColonRound(c, p, f, t);
    colon := t[1..];
    assert t == [':'] + colon;
  }

  lemma {:induction false} MemberFound(c: Codec, p: Parser, state: State, members: seq<Member>, s: string)
    returns (m: Member, rest: string)
    requires (state.ObjectInitial? || state.ObjectKey?) && Trim(s) != [] && Trim(s)[0] != '}'
    requires Completes(c, Inside(p, state, ObjectFrame(members, None)), s)
    ensures MemberAt(c, s, m, rest, |p.frames| + 1) && |rest| < |s|
    ensures Run(c, Inside(p, state, ObjectFrame(members, None)), s) ==
            Run(c, Inside(p, ObjectDelim, ObjectFrame(SetMember(members, m.key, m.value), None)), rest)
    decreases |s|, 2
  {
    hide Round, Deliver, Standing, Inside, Run, Trim, SetMember, StringAt, MarkAt;
    var key, behind, colon := KeyFound(c, p, state, members, s);
    var g := ObjectFrame(members, Some(key));
    InsideStanding(p, ObjectValue, g);
    NoBracket(c, Inside(p, ObjectValue, g), colon);
    var v;
    v, rest := ValueFound(c, Inside(p, ObjectValue, g), colon);
    DeliverInside(p, ObjectValue, g, v);
    m := Member(key, v);
    ValueShortens(c, colon, v, rest, |p.frames| + 1, true);
    assert StringAt(c, Trim(s), m.key, behind) && MarkAt(behind, ':', colon);
  }

  lemma ValueShortens(c: Codec, s: string, v: Json, rest: string, open: nat, inMember: bool)
    requires ValueAt(c, Trim(s), v, rest, open, inMember)
    ensures |rest| < |s|
  {
  }

  lemma {:induction false} MembersFound(c: Codec, p: Parser, s: string) returns (written: seq<Member>, rest: string)
    requires Completes(c, Inside(p, ObjectInitial, ObjectFrame([], None)), s)
    ensures MembersAt(c, s, written, rest, |p.frames| + 1) && |rest| < |s|
    ensures Run(c, Inside(p, ObjectInitial, ObjectFrame([], None)), s) ==
      Run(c, Deliver(p, Object(Merged(written))), rest)
    decreases |s|, 4
  {
    hide Round, Deliver, Inside, Run, MemberAt, MoreMembersAt, Trim;
    assert Merged([]) == [];
    var q := Inside(p, ObjectInitial, ObjectFrame([], None));
    InsideRunning(p, ObjectFrame([], None));
    NextRound(c, q, s);
    var t := Trim(s);
    ObjectRound(c, p, ObjectInitial, [], t);
    if t[0] == '}' {
      written, rest := [], t[1..];
      assert t == ['}'] + rest;
    } else {
      written, rest := OneMemberFound(c, p, ObjectInitial, [], s);
      assert [] + written == written;
    }
  }

  lemma {:induction false} OneMemberFound(c: Codec, p: Parser, state: State, done: seq<Member>, s: string)
    returns (written: seq<Member>, rest: string)
    requires (state.ObjectInitial? || state.ObjectKey?) && Trim(s) != [] && Trim(s)[0] != '}'
    requires Completes(c, Inside(p, state, ObjectFrame(Merged(done), None)), s)
    ensures written != [] && |rest| < |s| && exists mid ::
              |mid| < |s| && MemberAt(c, s, written[0], mid, |p.frames| + 1)
              && MoreMembersAt(c, mid, written[1..], rest, |p.frames| + 1)
    ensures Run(c, Inside(p, state, ObjectFrame(Merged(done), None)), s) ==
            Run(c, Deliver(p, Object(Merged(done + written))), rest)
    decreases |s|, 3
  {
    hide Round, Deliver, Inside, Run, MemberAt, MoreMembersAt, Trim, Merged, SetMember;
    var m, mid := MemberFound(c, p, state, Merged(done), s);
    MergedMore(done, m);
    var more;
    more, rest := MoreMembersFound(c, p, done + [m], mid);
    written := [m] + more;
    assert written[1..] == more && done + [m] + more == done + written;
  }

  lemma {:induction false} MoreMembersFound(c: Codec, p: Parser, done: seq<Member>, s: string)
    returns (written: seq<Member>, rest: string)
    requires Completes(c, Inside(p, ObjectDelim, ObjectFrame(Merged(done), None)), s)
    ensures MoreMembersAt(c, s, written, rest, |p.frames| + 1) && |rest| < |s|
    ensures Run(c, Inside(p, ObjectDelim, ObjectFrame(Merged(done), None)), s) ==
            Run(c, Deliver(p, Object(Merged(done + written))), rest)
    decreases |s|, 0
  {
    hide Round, Deliver, Inside, Run, MemberAt, Trim, Merged;
    var f := ObjectFrame(Merged(done), None);
    InsideRunning(p, f);
    NextRound(c, Inside(p, ObjectDelim, f), s);
    var t := Trim(s);
    ObjectRound(c, p, ObjectDelim, Merged(done), t);
    if t[0] == '}' {
      written, rest := [], t[1..];
      assert t == ['}'] + rest && done + written == done;
    } else {
      NextRound(c, Inside(p, ObjectKey, f), t[1..]);
      ObjectRound(c, p, ObjectKey, Merged(done), Trim(t[1..]));
      written, rest := OneMemberFound(c, p, ObjectKey, done, t[1..]);
    }
  }

  /* The parser accepts exactly the language of the grammar, and gives every text the grammar's tree. */

  lemma ParseFinds(c: Codec, text: string)
    requires Parse(c, text).Some?
    ensures Accepts(c, text, Parse(c, text).value)
  {
    hide Run, ValueAt, Trim;
    NoBracket(c, Start(), text);
    var j, rest := ValueFound(c, Start(), text);
    FinalStops(c, j, rest);
  }

  lemma ParseReads(c: Codec, text: string, j: Json)
    requires Accepts(c, text, j)
    ensures Parse(c, text) == Some(j)
  {
    hide Run, ValueAt, Trim;
    var rest :| ValueAt(c, Trim(text), j, rest, 0, false) && (rest == [] || (|rest| == 1 && IsSpace(rest[0])));
    RunTrim(c, Start(), text);
    ValueReads(c, Start(), Trim(text), j, rest);
    FinalStops(c, j, rest);
  }

  lemma FinalStops(c: Codec, j: Json, rest: string)
    ensures Deliver(Start(), j) == Parser(Final, [], j) &&
      Run(c, Deliver(Start(), j), rest) == (Deliver(Start(), j), rest)
  {
  }

  lemma ParseExactly(c: Codec, text: string, j: Json)
    ensures Parse(c, text) == Some(j) <==> Accepts(c, text, j)
  {
    hide Parse, Accepts;
    if Parse(c, text) == Some(j) { ParseFinds(c, text); }
    if Accepts(c, text, j) { ParseReads(c, text, j); }
  }

  /** No text has two trees. */
  lemma Unambiguous(c: Codec, text: string, j: Json, k: Json)
    requires Accepts(c, text, j) && Accepts(c, text, k)
    ensures j == k
  {
    hide Parse, Accepts;
    ParseReads(c, text, j);
    ParseReads(c, text, k);
  }

  /** The tree of the text if the text is in the language, nothing otherwise. */
  method AssignParse(codec: Codec, text: string) returns (result: Option<Json>)
    ensures result.Some? ==> Accepts(codec, text, result.value)
    ensures result.None? ==> forall j :: !Accepts(codec, text, j)
    ensures result == Parse(codec, text)
  {
    hide Accepts, Run;
    var parser := new StreamingParser(codec);
    var rest := parser.Consume(text);
    if rest != [] && IsSpace(rest[0]) {
      rest := rest[1..];
    }
    result := if rest == [] && parser.state.Final? then Some(parser.json) else None;
    forall j ensures Parse(codec, text) == Some(j) <==> Accepts(codec, text, j) { ParseExactly(codec, text, j); }
  }

  /* How deep a text may nest. */

  lemma {:induction false} LastValueWritten(written: seq<Member>, key: string)
    requires key in KeysOf(written)
    ensures exists i :: 0 <= i < |written| && written[i].value == LastValue(written, key)
    decreases |written|
  {
    var n := |written| - 1;
    if written[n].key != key {
      LastValueWritten(written[..n], key);
      var i :| 0 <= i < n && written[..n][i].value == LastValue(written[..n], key);
      assert written[i].value == LastValue(written, key);
    } else {
      assert written[n].value == LastValue(written, key);
    }
  }

  lemma MergedOpens(written: seq<Member>, open: nat)
    requires forall i :: 0 <= i < |written| ==> Opens(written[i].value, open, true)
    ensures var members := Merged(written); forall i :: 0 <= i < |members| ==> Opens(members[i].value, open, true)
  {
    hide Opens, KeysOf, LastValue;
    var members := Merged(written);
    forall i | 0 <= i < |members| ensures Opens(members[i].value, open, true) {
      LastValueWritten(written, members[i].key);
    }
  }

  lemma {:induction false} ValueOpens(c: Codec, s: string, j: Json, rest: string, open: nat, inMember: bool)
    requires ValueAt(c, s, j, rest, open, inMember)
    ensures Opens(j, open, inMember)
    decreases |s|, 1
  {
    hide ItemsAt, MembersAt, Merged, WordAt, NumeralAt, StringAt;
    match j
    case Array(items) => ItemsOpen(c, s[1..], items, rest, open + 1);
    case Object(members) =>
      var written :| MembersAt(c, s[1..], written, rest, open + 1) && members == Merged(written);
      MembersOpen(c, s[1..], written, rest, open + 1);
      MergedOpens(written, open + 1);
    case _ =>
  }

  lemma {:induction false} ItemsOpen(c: Codec, s: string, items: seq<Json>, rest: string, open: nat)
    requires ItemsAt(c, s, items, rest, open) || MoreItemsAt(c, s, items, rest, open)
    ensures forall i :: 0 <= i < |items| ==> Opens(items[i], open, false)
    decreases |s|, 2
  {
    hide ValueAt, Opens, Trim;
    if items != [] {
      var t := if ItemsAt(c, s, items, rest, open) then Trim(s) else Trim(Trim(s)[1..]);
      var mid :| |mid| < |t| && ValueAt(c, t, items[0], mid, open, false) &&
          MoreItemsAt(c, mid, items[1..], rest, open);
      ValueOpens(c, t, items[0], mid, open, false);
      ItemsOpen(c, mid, items[1..], rest, open);
      assert forall i :: 1 <= i < |items| ==> items[i] == items[1..][i - 1];
    }
  }

  lemma {:induction false} MembersOpen(c: Codec, s: string, written: seq<Member>, rest: string, open: nat)
    requires MembersAt(c, s, written, rest, open) || MoreMembersAt(c, s, written, rest, open)
    ensures forall i :: 0 <= i < |written| ==> Opens(written[i].value, open, true)
    decreases |s|, 3
  {
    hide MemberAt, Opens, Trim;
    if written != [] {
      var t := if MembersAt(c, s, written, rest, open) then s else Trim(s)[1..];
      var mid :| |mid| < |s| && MemberAt(c, t, written[0], mid, open) &&
          MoreMembersAt(c, mid, written[1..], rest, open);
      MemberOpens(c, t, written[0], mid, open);
      MembersOpen(c, mid, written[1..], rest, open);
      assert forall i :: 1 <= i < |written| ==> written[i] == written[1..][i - 1];
    }
  }

  lemma {:induction false} MemberOpens(c: Codec, s: string, m: Member, rest: string, open: nat)
    requires MemberAt(c, s, m, rest, open)
    ensures Opens(m.value, open, true)
    decreases |s|, 2
  {
    hide ValueAt, Opens, Trim, StringAt, MarkAt;
    var behind, colon :| StringAt(c, Trim(s), m.key, behind) && MarkAt(behind, ':', colon)
      && |colon| < |s| && ValueAt(c, Trim(colon), m.value, rest, open, true);
    ValueOpens(c, Trim(colon), m.value, rest, open, true);
  }

  /** Printing a tree and parsing the text gives the tree back if and only if none of its containers
      begins where the parser's stack is full. */
  lemma RoundTripExactly(c: Codec, m: Manipulator, j: Json)
    requires Inverse(c) && Fits(j)
    ensures Parse(c, Unparse(c, m, j)) == Some(j) <==> Opens(j, 0, false)
  {
    hide Inverse, Fits, Opens, Accepts, Parse, Unparse;
    if Opens(j, 0, false) { PrintedReads(c, m, j); }
    if Parse(c, Unparse(c, m, j)) == Some(j) {
      ParseFinds(c, Unparse(c, m, j));
      AcceptsOpens(c, Unparse(c, m, j), j);
    }
  }

  lemma PrintedReads(c: Codec, m: Manipulator, j: Json)
    requires Inverse(c) && Fits(j) && Opens(j, 0, false)
    ensures Parse(c, Unparse(c, m, j)) == Some(j)
  {
    hide Inverse, Fits, Opens, Run;
    var rest := if m.newlineTerminator then "\n" else "";
    ReadValue(c, m, j, 0, Start(), rest);
    FinalStops(c, j, rest);
  }

  lemma AcceptsOpens(c: Codec, text: string, j: Json)
    requires Accepts(c, text, j)
    ensures Opens(j, 0, false)
  {
    hide ValueAt, Opens;
    var rest :| ValueAt(c, Trim(text), j, rest, 0, false);
    ValueOpens(c, Trim(text), j, rest, 0, false);
  }

  /** `k` arrays inside each other, with `j` in the innermost. */
  function Nested(k: nat, j: Json): Json { if k == 0 then j else Array([Nested(k - 1, j)]) }

  lemma {:induction false} NestedOpens(k: nat, j: Json, open: nat)
    ensures Opens(Nested(k, j), open, false) <==>
            Opens(j, open + k, false) && forall i :: open <= i < open + k ==> Level(i, false) != MAX_DEPTH
  {
    if k > 0 {
      NestedOpens(k - 1, j, open + 1);
      ArrayOpens(Nested(k - 1, j), open, false);
    }
  }

  lemma ArrayOpens(j: Json, open: nat, inMember: bool)
    ensures Opens(Array([j]), open, inMember) <==> Level(open, inMember) != MAX_DEPTH && Opens(j, open + 1, false)
  {
    if Opens(Array([j]), open, inMember) { assert Opens(Array([j]).items[0], open + 1, false); }
  }

  /** Arrays alone nest 2049 deep and no deeper. */
  lemma ArraysNest(k: nat)
    ensures Opens(Nested(k, Null), 0, false) <==> k <= MAX_DEPTH + 1
  {
    NestedOpens(k, Null, 0);
    assert Level(MAX_DEPTH + 1, false) == MAX_DEPTH;
  }

  /** The stack passes its largest size by two at once where a member's value begins, so with one object
      among the arrays nothing bounds the depth. */
  lemma MixedNest(key: string, k: nat)
    ensures Opens(Nested(MAX_DEPTH, Object([Member(key, Nested(k, Null))])), 0, false)
  {
    if k > 0 {
      NestedOpens(k - 1, Null, MAX_DEPTH + 2);
      ArrayOpens(Nested(k - 1, Null), MAX_DEPTH + 1, true);
    }
    assert Opens(Nested(k, Null), MAX_DEPTH + 1, true);
    NestedOpens(MAX_DEPTH, Object([Member(key, Nested(k, Null))]), 0);
  }
}
