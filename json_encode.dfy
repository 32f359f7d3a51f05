/** `json.dumps(v, separators=(',', ':'))`: compact output with the default
    `ensure_ascii=True`, so every character outside printable ASCII is written
    as a lowercase `\uXXXX` escape (a surrogate pair above U+FFFF), and keys
    keep the dict's insertion order. */
module JsonEncode {
  import opened Dicts
  import opened Numerals
  import opened Json

  /** Every character is printable ASCII (space to tilde). */
  predicate Printable(s: string)
  {
    forall i :: 0 <= i < |s| ==> ' ' <= s[i] <= '~'
  }

  /** The first character of a serialized value: never whitespace, a comma
      or a closing bracket, which is what lets the decoder find its start. */
  predicate StartsValue(c: char)
  {
    c == 'n' || c == 't' || c == 'f' || c == '-' || IsDigit(c) || c == '"' || c == '[' || c == '{'
  }

  /** The high and low surrogates encoding a code point above U+FFFF. */
  function HighSurrogate(c: char): (h: nat)
    requires (c as int) >= 0x1_0000
    ensures 0xD800 <= h <= 0xDBFF
  {
    0xD800 + ((c as int) - 0x1_0000) / 0x400
  }

  function LowSurrogate(c: char): (l: nat)
    requires (c as int) >= 0x1_0000
    ensures 0xDC00 <= l <= 0xDFFF
  {
    0xDC00 + ((c as int) - 0x1_0000) % 0x400
  }

  /** The escape table of the ASCII string encoder. */
  function EscapeChar(c: char): (e: string)
    ensures e != [] && Printable(e)
    ensures e[0] == '\\' || e == [c]
    ensures c != '"' && c != '\\' && ' ' <= c <= '~' <==> e == [c]
  {
    if c == '"' then "\\\""
    else if c == '\\' then "\\\\"
    else if c == '\n' then "\\n"
    else if c == '\r' then "\\r"
    else if c == '\t' then "\\t"
    else if c == '\U{8}' then "\\b"
    else if c == '\U{C}' then "\\f"
    else if ' ' <= c <= '~' then [c]
    else if (c as int) < 0x1_0000 then "\\u" + Hex4(c as int)
    else "\\u" + Hex4(HighSurrogate(c)) + "\\u" + Hex4(LowSurrogate(c))
  }

  function EscapeString(s: string): (e: string)
  {
    if s == [] then [] else EscapeChar(s[0]) + EscapeString(s[1..])
  }

  /** `'"' + escaped + '"'`, the form of every string and key. */
  function Quote(s: string): (q: string)
  {
    "\"" + EscapeString(s) + "\""
  }

  function Dumps(v: Json): (r: string)
    ensures r != [] && StartsValue(r[0])
  {
    match v
    case JNull => "null"
    case JBool(b) => if b then "true" else "false"
    case JInt(n) => IntToDecimal(n)
    case JStr(s) => Quote(s)
    case JArr(items) => "[" + DumpsItems(items) + "]"
    case JObj(members) => "{" + DumpsMembers(members) + "}"
  }

  /** The items of an array, separated by `,` with no space. */
  function DumpsItems(items: seq<Json>): (r: string)
    ensures items != [] ==> r != [] && StartsValue(r[0])
  {
    if items == [] then ""
    else if |items| == 1 then Dumps(items[0])
    else Dumps(items[0]) + "," + DumpsItems(items[1..])
  }

  /** The members of an object in insertion order, each `"key":value`,
      separated by `,`. */
  function DumpsMembers(members: Dict<Json>): (r: string)
    ensures members != [] ==> r != [] && r[0] == '"'
  {
    if members == [] then ""
    else
      var (k, v) := members[0];
      assert v < members[0];
      var m := Quote(k) + ":" + Dumps(v);
      if |members| == 1 then m else m + "," + DumpsMembers(members[1..])
  }

  lemma PrintableConcat(a: string, b: string)
    requires Printable(a) && Printable(b)
    ensures Printable(a + b)
  {
    forall i | 0 <= i < |a + b| ensures ' ' <= (a + b)[i] <= '~' {
      if i >= |a| { assert (a + b)[i] == b[i - |a|]; }
    }
  }

  lemma {:induction false} EscapeStringPrintable(s: string)
    ensures Printable(EscapeString(s))
  {
    if s != [] {
      EscapeStringPrintable(s[1..]);
      PrintableConcat(EscapeChar(s[0]), EscapeString(s[1..]));
    }
  }

  lemma QuotePrintable(s: string)
    ensures Printable(Quote(s))
  {
    EscapeStringPrintable(s);
    PrintableConcat("\"", EscapeString(s));
    PrintableConcat("\"" + EscapeString(s), "\"");
  }

  lemma {:induction false} NatToDecimalPrintable(n: nat)
    ensures Printable(NatToDecimal(n))
  {
  }

  /** json.dumps output is printable ASCII: with ensure_ascii every other
      character, line breaks included, is escaped. */
  lemma {:induction false} DumpsPrintable(v: Json)
    ensures Printable(Dumps(v))
    decreases v, 1
  {
    match v
    case JNull =>
    case JBool(b) =>
    case JInt(n) =>
      NatToDecimalPrintable(if n < 0 then -n else n);
      if n < 0 { PrintableConcat("-", NatToDecimal(-n)); }
    case JStr(s) => QuotePrintable(s);
    case JArr(items) =>
      DumpsItemsPrintable(items);
      PrintableConcat("[", DumpsItems(items));
      PrintableConcat("[" + DumpsItems(items), "]");
    case JObj(members) =>
      DumpsMembersPrintable(members);
      PrintableConcat("{", DumpsMembers(members));
      PrintableConcat("{" + DumpsMembers(members), "}");
  }

  lemma {:induction false} DumpsItemsPrintable(items: seq<Json>)
    ensures Printable(DumpsItems(items))
    decreases items, 0
  {
    if items != [] {
      DumpsPrintable(items[0]);
      if |items| > 1 {
        DumpsItemsPrintable(items[1..]);
        PrintableConcat(Dumps(items[0]), ",");
        PrintableConcat(Dumps(items[0]) + ",", DumpsItems(items[1..]));
      }
    }
  }

  lemma {:induction false} DumpsMembersPrintable(members: Dict<Json>)
    ensures Printable(DumpsMembers(members))
    decreases members, 0
  {
    if members != [] {
      var (k, v) := members[0];
      assert v < members[0];
      QuotePrintable(k);
      DumpsPrintable(v);
      PrintableConcat(Quote(k), ":");
      PrintableConcat(Quote(k) + ":", Dumps(v));
      var m := Quote(k) + ":" + Dumps(v);
      if |members| > 1 {
        DumpsMembersPrintable(members[1..]);
        PrintableConcat(m, ",");
        PrintableConcat(m + ",", DumpsMembers(members[1..]));
      }
    }
  }
}
