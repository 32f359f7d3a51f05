/** json.loads reads back what json.dumps writes: for every value whose
    objects have distinct keys, `loads(dumps(v)) == v`. */
module JsonRoundTrip {
  import opened Basics
  import opened Dicts
  import opened Numerals
  import opened Json
  import opened JsonEncode
  import opened JsonDecode

  /** What may follow a value inside serialized output: nothing, or the
      separator or bracket that ends it. */
  predicate Delimited(rest: string)
  {
    rest == [] || rest[0] == ',' || rest[0] == ']' || rest[0] == '}'
  }

  lemma SkipWsNoop(s: string)
    requires s == [] || !IsWs(s[0])
    ensures SkipWs(s) == s
  {
  }

  /** Regrouping of concatenations, stated over plain strings so that the
      round-trip proofs need not reason about the serializer's text. */
  lemma Regroup3(a: string, b: string, c: string)
    ensures a + b + c == a + (b + c)
  {
  }

  lemma Regroup5(a: string, b: string, c: string, d: string, e: string)
    ensures a + b + c + d + e == a + (b + (c + (d + e)))
  {
    Regroup3(a + b + c, d, e);
    Regroup3(a + b, c, d + e);
    Regroup3(a, b, c + (d + e));
  }

  lemma Regroup7(a: string, b: string, c: string, d: string, e: string, f: string, g: string)
    ensures a + b + c + d + e + f + g == a + (b + (c + (d + (e + f + g))))
  {
    Regroup3(e, f, g);
    Regroup3(a + b + c + d + e, f, g);
    Regroup5(a, b, c, d, e + (f + g));
  }

  /** A backslash escape written by the encoder reads back as its character. */
  lemma EscapeRoundTrip(c: char, t: string)
    requires EscapeChar(c)[0] == '\\'
    ensures ParseEscape(EscapeChar(c)[1..] + t) == Some((c, t))
  {
    if c == '"' || c == '\\' || c == '\n' || c == '\r' || c == '\t' || c == '\U{8}' || c == '\U{C}' {
      ShortEscapeRoundTrip(c, t);
    } else if (c as int) < 0x1_0000 {
      assert EscapeChar(c) == "\\u" + Hex4(c as int);
      UnicodeEscapeRoundTrip(c, t);
    } else {
      assert EscapeChar(c) == "\\u" + Hex4(HighSurrogate(c)) + "\\u" + Hex4(LowSurrogate(c));
      SurrogateEscapeRoundTrip(c, t);
    }
  }

  lemma ShortEscapeRoundTrip(c: char, t: string)
    requires c == '"' || c == '\\' || c == '\n' || c == '\r' || c == '\t' || c == '\U{8}' || c == '\U{C}'
    ensures ParseEscape(EscapeChar(c)[1..] + t) == Some((c, t))
  {
    var e := EscapeChar(c);
    var s := e[1..] + t;
    assert |e| == 2;
    assert s[0] == e[1] && s[1..] == t;
  }

  lemma UnicodeEscapeRoundTrip(c: char, t: string)
    requires (c as int) < 0x1_0000
    ensures ParseEscape(("\\u" + Hex4(c as int))[1..] + t) == Some((c, t))
  {
    var n := c as int;
    Hex4RoundTrip(n);
    var s := ("\\u" + Hex4(n))[1..] + t;
    assert ("\\u" + Hex4(n))[1..] == ['u'] + Hex4(n);
    Regroup3(['u'], Hex4(n), t);
    assert s[0] == 'u' && s[1..5] == Hex4(n) && s[5..] == t;
  }

  lemma SurrogateEscapeRoundTrip(c: char, t: string)
    requires (c as int) >= 0x1_0000
    ensures ParseEscape(("\\u" + Hex4(HighSurrogate(c)) + "\\u" + Hex4(LowSurrogate(c)))[1..] + t) == Some((c, t))
  {
    var h, l := HighSurrogate(c), LowSurrogate(c);
    Hex4RoundTrip(h);
    Hex4RoundTrip(l);
    var hs, ls := Hex4(h), Hex4(l);
    var s := ("\\u" + hs + "\\u" + ls)[1..] + t;
    SurrogatePairLayout(hs, ls, t);
    SurrogatesCombine(c);
    assert ParseUnicodeEscape(s) == Some((c, t));
  }

  /** Where the two halves of an escaped surrogate pair sit in the text. */
  lemma SurrogatePairLayout(hs: string, ls: string, t: string)
    requires |hs| == 4 && |ls| == 4
    ensures var s := ("\\u" + hs + "\\u" + ls)[1..] + t;
      |s| >= 11 && s[0] == 'u' && s[1..5] == hs && s[5] == '\\' && s[6] == 'u'
      && s[7..11] == ls && s[11..] == t
  {
    var e := "\\u" + hs + "\\u" + ls;
    assert e[1..] == ['u'] + hs + ['\\', 'u'] + ls;
    var s := e[1..] + t;
    assert s == ['u'] + (hs + (['\\', 'u'] + (ls + t)));
  }

  /** The decoder's surrogate arithmetic inverts the encoder's. */
  lemma SurrogatesCombine(c: char)
    requires (c as int) >= 0x1_0000
    ensures 0x1_0000 + (HighSurrogate(c) - 0xD800) * 0x400 + (LowSurrogate(c) - 0xDC00) == c as int
  {
    var q := (c as int) - 0x1_0000;
    assert q == (q / 0x400) * 0x400 + q % 0x400;
  }

  /** An escaped string followed by its closing quote reads back. */
  lemma {:induction false} StringBodyRoundTrip(s: string, rest: string)
    ensures ParseStringBody(EscapeString(s) + "\"" + rest) == Some((s, rest))
  {
    if s == [] {
      assert EscapeString(s) + "\"" + rest == ['"'] + rest;
    } else {
      var tail := EscapeString(s[1..]) + "\"" + rest;
      assert EscapeString(s) == EscapeChar(s[0]) + EscapeString(s[1..]);
      Regroup4(EscapeChar(s[0]), EscapeString(s[1..]), "\"", rest);
      StringBodyRoundTrip(s[1..], rest);
      EscapedCharStep(s[0], tail, s[1..], rest);
      assert [s[0]] + s[1..] == s;
    }
  }

  /** One encoded character in front of a string body is read back first. */
  lemma EscapedCharStep(c: char, tail: string, body: string, after: string)
    requires ParseStringBody(tail) == Some((body, after))
    ensures ParseStringBody(EscapeChar(c) + tail) == Some(([c] + body, after))
  {
    var e := EscapeChar(c);
    if e == [c] {
      PlainStep(c, tail, body, after);
    } else {
      EscapeRoundTrip(c, tail);
      BackslashStep(e, c, tail, body, after);
    }
  }

  /** A character that needs no escape is read as itself. */
  lemma PlainStep(c: char, tail: string, body: string, after: string)
    requires c != '"' && c != '\\' && (c as int) >= 0x20
    requires ParseStringBody(tail) == Some((body, after))
    ensures ParseStringBody([c] + tail) == Some(([c] + body, after))
  {
    assert ([c] + tail)[1..] == tail;
  }

  /** A backslash escape is read as the character it stands for. */
  lemma BackslashStep(x: string, c: char, tail: string, body: string, after: string)
    requires x != [] && x[0] == '\\' && ParseEscape(x[1..] + tail) == Some((c, tail))
    requires ParseStringBody(tail) == Some((body, after))
    ensures ParseStringBody(x + tail) == Some(([c] + body, after))
  {
    assert (x + tail)[0] == '\\' && (x + tail)[1..] == x[1..] + tail;
  }

  lemma QuoteRoundTrip(s: string, rest: string)
    ensures ParseStringBody((Quote(s) + rest)[1..]) == Some((s, rest))
  {
    assert (Quote(s) + rest)[1..] == EscapeString(s) + "\"" + rest;
    StringBodyRoundTrip(s, rest);
  }

  lemma NaturalRoundTrip(m: nat, rest: string)
    requires Delimited(rest)
    ensures ParseNatural(NatToDecimal(m) + rest) == Some((m, rest))
  {
    var ds := NatToDecimal(m);
    var t := ds + rest;
    DigitSpanOf(ds, rest);
    DecimalRoundTrip(m);
    var k := if t[0] == '0' then 1 else DigitSpan(t);
    assert k == |ds|;
    assert t[..k] == ds && t[k..] == rest;
  }

  lemma NumberRoundTrip(n: int, rest: string)
    requires Delimited(rest)
    ensures ParseNumber(IntToDecimal(n) + rest) == Some((JInt(n), rest))
  {
    if n < 0 {
      var s := IntToDecimal(n) + rest;
      Regroup3("-", NatToDecimal(-n), rest);
      Enclosed('-', NatToDecimal(-n) + rest, s);
      NaturalRoundTrip(-n, rest);
    } else {
      NaturalRoundTrip(n, rest);
    }
  }

  lemma {:induction false} ValueRoundTrip(v: Json, rest: string)
    requires Canonical(v) && Delimited(rest)
    ensures ParseValue(Dumps(v) + rest) == Some((v, rest))
    decreases v, 3
  {
    match v
    case JNull => LiteralRoundTrip(v, rest);
    case JBool(b) => LiteralRoundTrip(v, rest);
    case JInt(n) => IntRoundTrip(n, rest);
    case JStr(str) => StrRoundTrip(str, rest);
    case JArr(items) => ArrayRoundTrip(items, rest);
    case JObj(members) => ObjectRoundTrip(members, rest);
  }

  lemma IntRoundTrip(n: int, rest: string)
    requires Delimited(rest)
    ensures ParseValue(Dumps(JInt(n)) + rest) == Some((JInt(n), rest))
  {
    var s := IntToDecimal(n) + rest;
    assert s[0] == IntToDecimal(n)[0];
    NumberDispatch(s);
    NumberRoundTrip(n, rest);
  }

  /** A value that starts with a sign or a digit is read as a number. */
  lemma NumberDispatch(s: string)
    requires s != [] && (s[0] == '-' || IsDigit(s[0]))
    ensures ParseValue(s) == ParseNumber(s)
  {
    if StartsWith(s, "null") { StartsWithHead(s, "null"); }
    if StartsWith(s, "true") { StartsWithHead(s, "true"); }
    if StartsWith(s, "false") { StartsWithHead(s, "false"); }
  }

  /** Text that starts with a word starts with the word's first letter. */
  lemma StartsWithHead(s: string, w: string)
    requires w != [] && StartsWith(s, w)
    ensures s != [] && s[0] == w[0]
  {
    assert s[..|w|][0] == s[0];
  }

  lemma StrRoundTrip(str: string, rest: string)
    ensures ParseValue(Dumps(JStr(str)) + rest) == Some((JStr(str), rest))
  {
    var s := Quote(str) + rest;
    assert s[0] == '"';
    QuoteRoundTrip(str, rest);
  }

  lemma LiteralRoundTrip(v: Json, rest: string)
    requires v.JNull? || v.JBool?
    ensures ParseValue(Dumps(v) + rest) == Some((v, rest))
  {
    var w := Dumps(v);
    assert (w + rest)[..|w|] == w && (w + rest)[|w|..] == rest;
  }

  lemma {:induction false} ArrayRoundTrip(items: seq<Json>, rest: string)
    requires ItemsCanonical(items) && Delimited(rest)
    ensures ParseValue(Dumps(JArr(items)) + rest) == Some((JArr(items), rest))
    decreases items, 2
  {
    var inner := DumpsItems(items) + "]" + rest;
    var s := Dumps(JArr(items)) + rest;
    Regroup4("[", DumpsItems(items), "]", rest);
    Enclosed('[', inner, s);
    if items != [] {
      assert StartsValue(DumpsItems(items)[0]) && inner[0] == DumpsItems(items)[0];
      SkipWsNoop(inner);
      ItemsRoundTrip(items, rest);
      ParseArrayStep(s, inner);
    } else {
      Enclosed(']', rest, inner);
      ParseEmptyStep(s, '[', ']', JArr([]), inner, rest);
    }
  }

  lemma Regroup4(a: string, b: string, c: string, d: string)
    ensures a + b + c + d == a + (b + c + d)
  {
    Regroup3(a + b, c, d);
    Regroup3(a, b, c + d);
    Regroup3(b, c, d);
  }

  /** A text that starts with a given character. */
  lemma Enclosed(c: char, inner: string, s: string)
    requires s == [c] + inner
    ensures s != [] && s[0] == c && s[1..] == inner
  {
  }

  /** ParseValue on `[]` or `{}` written without whitespace. */
  lemma ParseEmptyStep(s: string, open: char, close: char, v: Json, inner: string, rest: string)
    requires s != [] && s[0] == open && s[1..] == inner
    requires inner != [] && inner[0] == close && inner[1..] == rest
    requires (open == '[' && close == ']' && v == JArr([])) || (open == '{' && close == '}' && v == JObj([]))
    ensures ParseValue(s) == Some((v, rest))
  {
    SkipWsNoop(inner);
  }

  /** ParseValue on an array whose items follow `[` without whitespace. */
  lemma ParseArrayStep(s: string, inner: string)
    requires s != [] && s[0] == '[' && s[1..] == inner
    requires inner != [] && !IsWs(inner[0]) && inner[0] != ']'
    ensures ParseValue(s) == match ParseElements(inner)
                             case None => None
                             case Some((items, rest)) => Some((JArr(items), rest))
  {
    SkipWsNoop(inner);
  }

  lemma {:induction false} ObjectRoundTrip(members: Dict<Json>, rest: string)
    requires Distinct(members) && MembersCanonical(members) && Delimited(rest)
    ensures ParseValue(Dumps(JObj(members)) + rest) == Some((JObj(members), rest))
    decreases members, 2
  {
    var inner := DumpsMembers(members) + "}" + rest;
    var s := Dumps(JObj(members)) + rest;
    Regroup4("{", DumpsMembers(members), "}", rest);
    Enclosed('{', inner, s);
    if members != [] {
      assert DumpsMembers(members)[0] == '"' && inner[0] == DumpsMembers(members)[0];
      assert !IsWs(inner[0]);
      SkipWsNoop(inner);
      FromDistinctPairs(members);
      MembersRoundTrip(members, rest);
      ParseObjectStep(s, inner);
    } else {
      Enclosed('}', rest, inner);
      ParseEmptyStep(s, '{', '}', JObj([]), inner, rest);
    }
  }

  /** ParseValue on an object whose members follow `{` without whitespace. */
  lemma ParseObjectStep(s: string, inner: string)
    requires s != [] && s[0] == '{' && s[1..] == inner
    requires inner != [] && !IsWs(inner[0]) && inner[0] != '}'
    ensures ParseValue(s) == match ParseMembers(inner)
                             case None => None
                             case Some((pairs, rest)) => Some((JObj(FromPairs(pairs)), rest))
  {
    SkipWsNoop(inner);
  }

  lemma {:induction false} ItemsRoundTrip(items: seq<Json>, rest: string)
    requires items != [] && ItemsCanonical(items)
    ensures ParseElements(DumpsItems(items) + "]" + rest) == Some((items, rest))
    decreases items, 1
  {
    if |items| == 1 {
      OnlyItemRoundTrip(items, rest);
    } else {
      var head := items[0];
      assert Canonical(head);
      var more := DumpsItems(items[1..]) + "]" + rest;
      var s := Dumps(head) + ("," + more);
      assert DumpsItems(items) + "]" + rest == s;
      ItemsRoundTrip(items[1..], rest);
      FirstItemRoundTrip(items, rest, head, more, s);
    }
  }

  /** Reading an array of one item. */
  lemma OnlyItemRoundTrip(items: seq<Json>, rest: string)
    requires |items| == 1 && ItemsCanonical(items)
    ensures ParseElements(DumpsItems(items) + "]" + rest) == Some((items, rest))
    decreases items, 0
  {
    var head := items[0];
    assert Canonical(head);
    var tail := "]" + rest;
    var s := Dumps(head) + tail;
    assert DumpsItems(items) + "]" + rest == s;
    ValueRoundTrip(head, tail);
    ParseElementsStep(s, head, tail);
    assert tail[1..] == rest;
    assert [head] == items;
  }

  /** Reading an array of several items: the first item, then the others,
      which the caller has read back already. */
  lemma FirstItemRoundTrip(items: seq<Json>, rest: string, head: Json, more: string, s: string)
    requires |items| > 1 && Canonical(head) && head == items[0]
    requires more == DumpsItems(items[1..]) + "]" + rest
    requires ParseElements(more) == Some((items[1..], rest))
    requires s == Dumps(head) + ("," + more)
    ensures ParseElements(s) == Some((items, rest))
    decreases items, 0
  {
    var tail := "," + more;
    ValueRoundTrip(head, tail);
    assert tail[1..] == more;
    assert more[0] == DumpsItems(items[1..])[0];
    SkipWsNoop(more);
    ElementsCons(s, head, tail, items[1..], rest);
    assert [head] + items[1..] == items;
  }

  /** One step of ParseElements once the first item is read and a `]` or a
      `,` follows it directly. */
  lemma ParseElementsStep(s: string, v: Json, tail: string)
    requires ParseValue(s) == Some((v, tail))
    requires tail != [] && (tail[0] == ']' || tail[0] == ',')
    ensures ParseElements(s) == if tail[0] == ']' then Some(([v], tail[1..]))
                                else match ParseElements(SkipWs(tail[1..]))
                                     case None => None
                                     case Some((vs, after)) => Some(([v] + vs, after))
  {
    SkipWsNoop(tail);
  }

  /** The first item read, a `,`, and the remaining items read. */
  lemma ElementsCons(s: string, v: Json, tail: string, vs: seq<Json>, after: string)
    requires ParseValue(s) == Some((v, tail))
    requires tail != [] && tail[0] == ','
    requires ParseElements(SkipWs(tail[1..])) == Some((vs, after))
    ensures ParseElements(s) == Some(([v] + vs, after))
  {
    ParseElementsStep(s, v, tail);
  }

  lemma {:induction false} MembersRoundTrip(members: Dict<Json>, rest: string)
    requires members != [] && MembersCanonical(members)
    ensures ParseMembers(DumpsMembers(members) + "}" + rest) == Some((members, rest))
    decreases members, 1
  {
    if |members| == 1 {
      OnlyMemberRoundTrip(members, rest);
    } else {
      var more := DumpsMembers(members[1..]) + "}" + rest;
      MembersRoundTrip(members[1..], rest);
      FirstMemberRoundTrip(members, rest, more);
    }
  }

  /** Reading an object of one member. */
  lemma OnlyMemberRoundTrip(members: Dict<Json>, rest: string)
    requires |members| == 1 && MembersCanonical(members)
    ensures ParseMembers(DumpsMembers(members) + "}" + rest) == Some((members, rest))
    decreases members, 0
  {
    var (k, v) := members[0];
    assert v < members[0];
    var tail := "}" + rest;
    var s := DumpsMembers(members) + "}" + rest;
    assert DumpsMembers(members) == Quote(k) + ":" + Dumps(v);
    Regroup5(Quote(k), ":", Dumps(v), "}", rest);
    ValueRoundTrip(v, tail);
    LastMemberRoundTrip(k, v, rest, s);
    assert [(k, v)] == members;
  }

  /** Reading an object of several members: the first member, then the
      others, which the caller has read back already. */
  lemma FirstMemberRoundTrip(members: Dict<Json>, rest: string, more: string)
    requires |members| > 1 && MembersCanonical(members)
    requires more == DumpsMembers(members[1..]) + "}" + rest
    requires ParseMembers(more) == Some((members[1..], rest))
    ensures ParseMembers(DumpsMembers(members) + "}" + rest) == Some((members, rest))
    decreases members, 0
  {
    var k, v := members[0].0, members[0].1;
    assert v < members[0];
    MembersLayout(members, rest, more);
    ValueRoundTrip(v, "," + more);
    NextMemberRoundTrip(k, v, more, DumpsMembers(members) + "}" + rest, members[1..], rest);
    assert [(k, v)] + members[1..] == members;
  }

  /** Where the first member and the others sit in an object's text. */
  lemma MembersLayout(members: Dict<Json>, rest: string, more: string)
    requires |members| > 1
    requires more == DumpsMembers(members[1..]) + "}" + rest
    ensures more != [] && more[0] == '"'
    ensures DumpsMembers(members) + "}" + rest
            == Quote(members[0].0) + (":" + (Dumps(members[0].1) + ("," + more)))
  {
    var (k, v) := members[0];
    assert DumpsMembers(members) == Quote(k) + ":" + Dumps(v) + "," + DumpsMembers(members[1..]);
    Regroup7(Quote(k), ":", Dumps(v), ",", DumpsMembers(members[1..]), "}", rest);
  }

  /** The last `"key":value` member as the encoder writes it reads back as
      that key and value. */
  lemma LastMemberRoundTrip(k: string, v: Json, rest: string, s: string)
    requires ParseValue(Dumps(v) + ("}" + rest)) == Some((v, "}" + rest))
    requires s == Quote(k) + (":" + (Dumps(v) + ("}" + rest)))
    ensures ParseMembers(s) == Some(([(k, v)], rest))
  {
    var tail := "}" + rest;
    var afterKey := ":" + (Dumps(v) + tail);
    QuoteRoundTrip(k, afterKey);
    assert afterKey[1..] == Dumps(v) + tail;
    ParseMembersStep(s, k, afterKey, v, tail);
    assert tail[1..] == rest;
  }

  /** A `"key":value` member as the encoder writes it, a `,`, and members the
      caller has read back already. */
  lemma NextMemberRoundTrip(k: string, v: Json, more: string, s: string, ms: seq<(string, Json)>, after: string)
    requires more != [] && !IsWs(more[0])
    requires ParseValue(Dumps(v) + ("," + more)) == Some((v, "," + more))
    requires s == Quote(k) + (":" + (Dumps(v) + ("," + more)))
    requires ParseMembers(more) == Some((ms, after))
    ensures ParseMembers(s) == Some(([(k, v)] + ms, after))
  {
    var tail := "," + more;
    var afterKey := ":" + (Dumps(v) + tail);
    QuoteRoundTrip(k, afterKey);
    assert afterKey[1..] == Dumps(v) + tail;
    ParseMembersStep(s, k, afterKey, v, tail);
    assert tail[1..] == more;
    SkipWsNoop(more);
  }

  /** One step of ParseMembers once the first key and value are read and the
      text carries no whitespace between them. */
  lemma ParseMembersStep(s: string, k: string, afterKey: string, v: Json, tail: string)
    requires s != [] && s[0] == '"' && ParseStringBody(s[1..]) == Some((k, afterKey))
    requires afterKey != [] && afterKey[0] == ':'
    requires afterKey[1..] != [] && !IsWs(afterKey[1..][0])
    requires ParseValue(afterKey[1..]) == Some((v, tail))
    requires tail != [] && (tail[0] == '}' || tail[0] == ',')
    ensures ParseMembers(s) == if tail[0] == '}' then Some(([(k, v)], tail[1..]))
                               else match ParseMembers(SkipWs(tail[1..]))
                                    case None => None
                                    case Some((ms, after)) => Some(([(k, v)] + ms, after))
  {
    SkipWsNoop(afterKey);
    SkipWsNoop(afterKey[1..]);
    SkipWsNoop(tail);
  }

  /** `json.loads(json.dumps(v)) == v` for every value Python can hold. */
  lemma LoadsDumps(v: Json)
    requires Canonical(v)
    ensures Loads(Dumps(v)) == Some(v)
  {
    var s := Dumps(v);
    SkipWsNoop(s);
    ValueRoundTrip(v, []);
    assert s + [] == s;
  }
}
