/** Lower-case hexadecimal text of byte strings, as Node's `buffer.toString("hex")` writes it. */
module Hex {

  type byte = b: int | 0 <= b < 256

  predicate IsHexDigit(c: char) {
    ('0' <= c <= '9') || ('a' <= c <= 'f')
  }

  predicate IsHexText(s: string) {
    forall i :: 0 <= i < |s| ==> IsHexDigit(s[i])
  }

  function HexDigit(d: int): (c: char)
    requires 0 <= d < 16
    ensures IsHexDigit(c)
  {
    if d < 10 then ('0' as int + d) as char else ('a' as int + d - 10) as char
  }

  function HexValue(c: char): (d: int)
    requires IsHexDigit(c)
    ensures 0 <= d < 16
  {
    if c <= '9' then c as int - '0' as int else c as int - 'a' as int + 10
  }

  lemma HexValueOfDigit(d: int)
    requires 0 <= d < 16
    ensures HexValue(HexDigit(d)) == d
  {
  }

  /** Two lower-case hex digits per byte, most significant nibble first. */
  function Encode(bs: seq<byte>): (r: string)
    ensures |r| == 2 * |bs|
    ensures IsHexText(r)
  {
    if |bs| == 0 then "" else [HexDigit(bs[0] / 16), HexDigit(bs[0] % 16)] + Encode(bs[1..])
  }

  /** Reads hex text back into bytes. */
  function Decode(s: string): (bs: seq<byte>)
    requires |s| % 2 == 0 && IsHexText(s)
    ensures |bs| == |s| / 2
    decreases |s|
  {
    if |s| == 0 then [] else [HexValue(s[0]) * 16 + HexValue(s[1])] + Decode(s[2..])
  }

  /** Decoding the hex text of a byte string gives the byte string back, so the text
      determines the bytes. */
  lemma {:induction false} RoundTrip(bs: seq<byte>)
    ensures Decode(Encode(bs)) == bs
  {
    if |bs| > 0 {
      var e := Encode(bs);
      HexValueOfDigit(bs[0] / 16);
      HexValueOfDigit(bs[0] % 16);
      assert e[2..] == Encode(bs[1..]);
      RoundTrip(bs[1..]);
    }
  }
}
