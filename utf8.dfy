/** `str.encode('utf8')` and the line framing every sender applies to a
    serialized record: the JSON text, one `\n`, encoded as UTF-8. */
module Utf8 {
  import opened Json
  import opened JsonEncode

  newtype byte = x: int | 0 <= x < 0x100

  /** The UTF-8 bytes of one Unicode scalar value. */
  function EncodeChar(c: char): (bs: seq<byte>)
    ensures 1 <= |bs| <= 4
    ensures |bs| == 1 <==> (c as int) < 0x80
    ensures |bs| == 1 ==> bs[0] as int == c as int
    ensures forall i :: 0 <= i < |bs| ==> (|bs| > 1 ==> bs[i] >= 0x80)
  {
    var n := c as int;
    if n < 0x80 then [n as byte]
    else if n < 0x800 then [(0xC0 + n / 0x40) as byte, (0x80 + n % 0x40) as byte]
    else if n < 0x1_0000 then
      [(0xE0 + n / 0x1000) as byte, (0x80 + n / 0x40 % 0x40) as byte, (0x80 + n % 0x40) as byte]
    else
      [(0xF0 + n / 0x4_0000) as byte, (0x80 + n / 0x1000 % 0x40) as byte,
       (0x80 + n / 0x40 % 0x40) as byte, (0x80 + n % 0x40) as byte]
  }

  function Encode(s: string): (bs: seq<byte>)
    ensures |bs| >= |s|
  {
    if s == [] then [] else EncodeChar(s[0]) + Encode(s[1..])
  }

  /** The byte values that are the character codes, one byte per character. */
  predicate IsAscii(s: string, bs: seq<byte>)
  {
    |bs| == |s| && forall i :: 0 <= i < |s| ==> bs[i] as int == s[i] as int
  }

  /** ASCII text encodes to its character codes. */
  lemma {:induction false} EncodeAscii(s: string)
    requires forall i :: 0 <= i < |s| ==> (s[i] as int) < 0x80
    ensures IsAscii(s, Encode(s))
  {
    if s != [] {
      EncodeAscii(s[1..]);
      var bs := Encode(s);
      assert bs == EncodeChar(s[0]) + Encode(s[1..]);
      forall i | 0 <= i < |s| ensures bs[i] as int == s[i] as int {
        if i > 0 { assert bs[i] == Encode(s[1..])[i - 1]; }
      }
    }
  }

  lemma {:induction false} EncodeConcat(a: string, b: string)
    ensures Encode(a + b) == Encode(a) + Encode(b)
  {
    if a != [] {
      assert (a + b)[1..] == a[1..] + b;
      EncodeConcat(a[1..], b);
    } else {
      assert a + b == b;
    }
  }

  /** The frame a sender writes for a value: `('%s\n' % json).encode('utf8')`. */
  function Frame(json: string): (bs: seq<byte>)
  {
    Encode(json + "\n")
  }

  /** A frame of json.dumps output is its ASCII text and one trailing 0x0A,
      the only 0x0A in it: a reader splitting on newlines gets back exactly
      the serialized value. */
  lemma FrameOfDumps(v: Json)
    ensures var bs := Frame(Dumps(v));
            |bs| == |Dumps(v)| + 1 && bs[|bs| - 1] == 0x0A
            && IsAscii(Dumps(v), bs[..|bs| - 1])
            && forall i :: 0 <= i < |bs| - 1 ==> bs[i] != 0x0A
  {
    var s := Dumps(v);
    DumpsPrintable(v);
    EncodeConcat(s, "\n");
    EncodeAscii(s);
    var bs := Frame(s);
    assert Encode("\n") == [0x0A];
    assert bs[..|bs| - 1] == Encode(s);
  }
}
