/** `json.loads(s)` as CPython's C scanner reads a `str`: whitespace is
    space, tab, newline and carriage return; raw control characters inside a
    string are rejected (strict mode); `\uXXXX` takes exactly four hex digits
    and a high surrogate combines with a following low one; an object with a
    repeated key keeps the key's first position and its last value; trailing
    data and a leading byte order mark are errors. `None` stands for the
    `JSONDecodeError` the library raises. */
module JsonDecode {
  import opened Basics
  import opened Dicts
  import opened Numerals
  import opened Json

  predicate IsWs(c: char)
  {
    c == ' ' || c == '\t' || c == '\n' || c == '\r'
  }

  /** Drop leading whitespace. */
  function SkipWs(s: string): (r: string)
    ensures |r| <= |s|
    ensures r == [] || !IsWs(r[0])
  {
    if s != [] && IsWs(s[0]) then SkipWs(s[1..]) else s
  }

  /** What SkipWs drops is whitespace, and it keeps the rest as it is. */
  lemma {:induction false} SkipWsSuffix(s: string)
    ensures SkipWs(s) == s[|s| - |SkipWs(s)|..]
    ensures forall i :: 0 <= i < |s| - |SkipWs(s)| ==> IsWs(s[i])
  {
    if s != [] && IsWs(s[0]) {
      SkipWsSuffix(s[1..]);
    }
  }

  /** Whether `s` begins with the literal `w`. */
  predicate StartsWith(s: string, w: string)
  {
    |w| <= |s| && s[..|w|] == w
  }

  /** The character a `\u` escape (or a surrogate pair of them) stands for, from
      the text after the backslash. */
  function ParseUnicodeEscape(s: string): (r: Option<(char, string)>)
    requires |s| > 0 && s[0] == 'u'
    ensures r.Some? ==> |r.value.1| < |s|
  {
    if |s| >= 5 && IsHex4(s[1..5]) then
      var u := Hex4Value(s[1..5]);
      if 0xD800 <= u <= 0xDBFF then
        if |s| >= 11 && s[5] == '\\' && s[6] == 'u' && IsHex4(s[7..11])
           && 0xDC00 <= Hex4Value(s[7..11]) <= 0xDFFF
        then
          var l := Hex4Value(s[7..11]);
          Some(((0x1_0000 + (u - 0xD800) * 0x400 + (l - 0xDC00)) as char, s[11..]))
        else None
      else if 0xDC00 <= u <= 0xDFFF then None
      else Some((u as char, s[5..]))
    else None
  }

  /** The character an escape stands for, from the text after the backslash. */
  function ParseEscape(s: string): (r: Option<(char, string)>)
    ensures r.Some? ==> |r.value.1| < |s|
  {
    if s == [] then None
    else if s[0] == '"' || s[0] == '\\' || s[0] == '/' then Some((s[0], s[1..]))
    else if s[0] == 'b' then Some(('\U{8}', s[1..]))
    else if s[0] == 'f' then Some(('\U{C}', s[1..]))
    else if s[0] == 'n' then Some(('\n', s[1..]))
    else if s[0] == 'r' then Some(('\r', s[1..]))
    else if s[0] == 't' then Some(('\t', s[1..]))
    else if s[0] == 'u' then ParseUnicodeEscape(s)
    else None
  }

  /** A string's contents after its opening quote, up to and without the
      closing quote; the rest of the text follows. */
  function ParseStringBody(s: string): (r: Option<(string, string)>)
    ensures r.Some? ==> |r.value.1| < |s|
  {
    if s == [] then None
    else if s[0] == '"' then Some(([], s[1..]))
    else if s[0] == '\\' then
      match ParseEscape(s[1..])
      case None => None
      case Some((c, rest)) =>
        match ParseStringBody(rest)
        case None => None
        case Some((body, after)) => Some(([c] + body, after))
    else if (s[0] as int) < 0x20 then None
    else
      match ParseStringBody(s[1..])
      case None => None
      case Some((body, after)) => Some(([s[0]] + body, after))
  }

  /** A fraction `.d` follows the integer part. */
  predicate StartsFraction(s: string)
  {
    |s| >= 2 && s[0] == '.' && IsDigit(s[1])
  }

  /** An exponent `e[+-]d` follows the integer part. */
  predicate StartsExponent(s: string)
  {
    |s| >= 2 && (s[0] == 'e' || s[0] == 'E')
    && (IsDigit(s[1]) || (|s| >= 3 && (s[1] == '+' || s[1] == '-') && IsDigit(s[2])))
  }

  /** `0|[1-9][0-9]*`, the digits of an int. When a fraction or an exponent
      follows, the number is a float, which the value model does not hold:
      `None`. */
  function ParseNatural(t: string): (r: Option<(nat, string)>)
    ensures r.Some? ==> |r.value.1| < |t|
  {
    if t == [] || !IsDigit(t[0]) then None
    else
      var n := if t[0] == '0' then 1 else DigitSpan(t);
      if StartsFraction(t[n..]) || StartsExponent(t[n..]) then None
      else Some((DecimalValue(t[..n]), t[n..]))
  }

  /** `-?(0|[1-9][0-9]*)`, read as an int. */
  function ParseNumber(s: string): (r: Option<(Json, string)>)
    ensures r.Some? ==> |r.value.1| < |s|
  {
    if s != [] && s[0] == '-' then
      match ParseNatural(s[1..])
      case None => None
      case Some((m, rest)) => Some((JInt(-(m as int)), rest))
    else
      match ParseNatural(s)
      case None => None
      case Some((m, rest)) => Some((JInt(m), rest))
  }

  /** One value at the start of `s` (no leading whitespace), and the text
      after it. */
  function ParseValue(s: string): (r: Option<(Json, string)>)
    ensures r.Some? ==> |r.value.1| < |s|
    decreases |s|, 1
  {
    if s == [] then None
    else if s[0] == '"' then
      match ParseStringBody(s[1..])
      case None => None
      case Some((body, rest)) => Some((JStr(body), rest))
    else if s[0] == '[' then
      var t := SkipWs(s[1..]);
      if t != [] && t[0] == ']' then Some((JArr([]), t[1..]))
      else
        match ParseElements(t)
        case None => None
        case Some((items, rest)) => Some((JArr(items), rest))
    else if s[0] == '{' then
      var t := SkipWs(s[1..]);
      if t != [] && t[0] == '}' then Some((JObj([]), t[1..]))
      else
        match ParseMembers(t)
        case None => None
        case Some((pairs, rest)) => Some((JObj(FromPairs(pairs)), rest))
    else if StartsWith(s, "null") then Some((JNull, s[4..]))
    else if StartsWith(s, "true") then Some((JBool(true), s[4..]))
    else if StartsWith(s, "false") then Some((JBool(false), s[5..]))
    else if s[0] == '-' || IsDigit(s[0]) then ParseNumber(s)
    else None
  }

  /** The items of a non-empty array up to and including its `]`. */
  function ParseElements(s: string): (r: Option<(seq<Json>, string)>)
    ensures r.Some? ==> |r.value.1| < |s|
    decreases |s|, 2
  {
    match ParseValue(s)
    case None => None
    case Some((v, rest)) =>
      var t := SkipWs(rest);
      if t != [] && t[0] == ']' then Some(([v], t[1..]))
      else if t != [] && t[0] == ',' then
        match ParseElements(SkipWs(t[1..]))
        case None => None
        case Some((vs, after)) => Some(([v] + vs, after))
      else None
  }

  /** The `"key": value` pairs of a non-empty object up to and including its
      `}`, in text order. */
  function ParseMembers(s: string): (r: Option<(seq<(string, Json)>, string)>)
    ensures r.Some? ==> |r.value.1| < |s|
    decreases |s|, 2
  {
    if s == [] || s[0] != '"' then None
    else
      match ParseStringBody(s[1..])
      case None => None
      case Some((k, rest)) =>
        var t := SkipWs(rest);
        if t == [] || t[0] != ':' then None
        else
          match ParseValue(SkipWs(t[1..]))
          case None => None
          case Some((v, rest')) =>
            var u := SkipWs(rest');
            if u != [] && u[0] == '}' then Some(([(k, v)], u[1..]))
            else if u != [] && u[0] == ',' then
              match ParseMembers(SkipWs(u[1..]))
              case None => None
              case Some((ms, after)) => Some(([(k, v)] + ms, after))
            else None
  }

  /** `json.loads(s)`; `None` for a `JSONDecodeError`. */
  function Loads(s: string): Option<Json>
  {
    if s != [] && s[0] == '\U{FEFF}' then None
    else
      match ParseValue(SkipWs(s))
      case None => None
      case Some((v, rest)) => if SkipWs(rest) == [] then Some(v) else None
  }

  /** A decoded object is a dict: its keys are distinct. */
  lemma LoadsObjectDistinct(s: string)
    ensures Loads(s).Some? && Loads(s).value.JObj? ==> Distinct(Loads(s).value.members)
  {
    var t := SkipWs(s);
    if t != [] && t[0] == '{' {
      var u := SkipWs(t[1..]);
      match ParseMembers(u)
      case None =>
      case Some((pairs, _)) => UpdateKeepsDistinct([], pairs);
    }
  }
}
