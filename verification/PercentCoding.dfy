/**
  Percent-decoding of legacy query strings, on bytes: escapes with digits of either case are
  decoded, and everything else stands for itself.
 */
module PercentCoding {
  import opened Wrappers
  import opened Collections
  import opened Numerals

  const PERCENT: byte := 0x25

  function HexDigit(b: byte): (d: Option<byte>)
    ensures d.Some? ==> d.value < 16
  {
    if 0x30 <= b <= 0x39 then Some(b - 0x30)
    else if 0x61 <= b <= 0x66 then Some(b - 0x61 + 10)
    else if 0x41 <= b <= 0x46 then Some(b - 0x41 + 10)
    else None
  }

  /** A percent sign with its two hexadecimal digits. */
  predicate IsEscapeAt(s: seq<byte>, i: nat) {
    i + 2 < |s| && s[i] == PERCENT && HexDigit(s[i + 1]).Some? && HexDigit(s[i + 2]).Some?
  }

  function EscapedByte(s: seq<byte>, i: nat): byte
    requires IsEscapeAt(s, i)
  {
    HexDigit(s[i + 1]).value * 16 + HexDigit(s[i + 2]).value
  }

  function Decode(s: seq<byte>): (r: seq<byte>)
    ensures |r| <= |s|
    decreases |s|
  {
    if s == [] then []
    else if IsEscapeAt(s, 0) then [EscapedByte(s, 0)] + Decode(s[3..])
    else [s[0]] + Decode(s[1..])
  }

  /** What has been put out, with what the rest decodes to, is the whole. */
  ghost predicate Decoded(input: seq<byte>, index: nat, output: seq<byte>) {
    index <= |input| && output + Decode(input[index..]) == Decode(input)
  }

  lemma DecodedNext(input: seq<byte>, i: nat, output: seq<byte>)
    requires i < |input| && Decoded(input, i, output)
    ensures if IsEscapeAt(input, i) then Decoded(input, i + 3, output + [EscapedByte(input, i)])
            else Decoded(input, i + 1, output + [input[i]])
  {
    if IsEscapeAt(input, i) {
      Associative(output, [EscapedByte(input, i)], Decode(input[i + 3..]));
    } else {
      Associative(output, [input[i]], Decode(input[i + 1..]));
    }
  }

  method PercentDecode(input: seq<byte>) returns (output: seq<byte>)
    ensures output == Decode(input)
  {
    output := [];
    var index := 0;
    assert input[0..] == input;
    while index < |input|
      invariant Decoded(input, index, output)
    {
      DecodedNext(input, index, output);
      if input[index] == PERCENT && index + 2 < |input| && HexDigit(input[index + 1]).Some? &&
          HexDigit(input[index + 2]).Some? {
        output := output + [HexDigit(input[index + 1]).value * 16 + HexDigit(input[index + 2]).value];
        index := index + 3;
      } else {
        output := output + [input[index]];
        index := index + 1;
      }
    }
  }

  // ---------- what an encoder may write ----------

  /** A byte may stand for itself, or be escaped with digits of either case. */
  datatype Style = Literal | Escaped(upperHigh: bool, upperLow: bool)

  function Hex(d: nat, upper: bool): (b: byte)
    requires d < 16
    ensures HexDigit(b) == Some(d)
  {
    if d < 10 then 0x30 + d else if upper then 0x41 + d - 10 else 0x61 + d - 10
  }

  function EncodeByte(b: byte, style: Style): seq<byte> {
    match style
    case Literal => [b]
    case Escaped(high, low) => [PERCENT, Hex(b / 16, high), Hex(b % 16, low)]
  }

  function Encode(data: seq<byte>, styles: seq<Style>): seq<byte>
    requires |data| == |styles|
  {
    if data == [] then [] else EncodeByte(data[0], styles[0]) + Encode(data[1..], styles[1..])
  }

  /** Any encoding that escapes at least the percent signs is decoded to the original bytes. */
  lemma {:induction false} DecodeInvertsEncode(data: seq<byte>, styles: seq<Style>)
    requires |data| == |styles| && forall i | 0 <= i < |data| :: styles[i].Literal? ==> data[i] != PERCENT
    ensures Decode(Encode(data, styles)) == data
  {
    if data == [] {
    } else {
      DecodeInvertsEncode(data[1..], styles[1..]);
    }
  }

  /** Exactly the inputs without an escape are left alone; malformed escapes count as text. */
  lemma {:induction false} DecodeIsIdentity(s: seq<byte>)
    ensures Decode(s) == s <==> forall i | 0 <= i < |s| :: !IsEscapeAt(s, i)
    decreases |s|
  {
    if s == [] {
    } else {
      if !IsEscapeAt(s, 0) {
        DecodeIsIdentity(s[1..]);
        assert forall i | 0 <= i < |s| - 1 :: IsEscapeAt(s[1..], i) == IsEscapeAt(s, i + 1);
        assert Decode(s) == s <==> Decode(s[1..]) == s[1..] by {
          assert Decode(s)[1..] == Decode(s[1..]);
          assert s == [s[0]] + s[1..];
        }
        if exists i :: 0 <= i < |s| && IsEscapeAt(s, i) {
          var i :| 0 <= i < |s| && IsEscapeAt(s, i);
          assert i > 0 && IsEscapeAt(s[1..], i - 1);
        }
      }
    }
  }

  const LOWER_DIGITS := "0123456789abcdef"

  const UPPER_DIGITS := "0123456789ABCDEF"

  /** An escape is the byte whose hexadecimal digits it shows, the high one first, in either case. */
  lemma EscapesAreHexadecimal(high: nat, low: nat, h: byte, l: byte, rest: seq<byte>)
    requires high < 16 && (h as char == LOWER_DIGITS[high] || h as char == UPPER_DIGITS[high])
    requires low < 16 && (l as char == LOWER_DIGITS[low] || l as char == UPPER_DIGITS[low])
    ensures Decode([0x25, h, l] + rest) == [16 * high + low] + Decode(rest)
  {
    DigitsAreHexadecimal(high);
    DigitsAreHexadecimal(low);
    assert ([0x25, h, l] + rest)[3..] == rest;
  }

  lemma DigitsAreHexadecimal(d: nat)
    requires d < 16
    ensures HexDigit(LOWER_DIGITS[d] as byte) == HexDigit(UPPER_DIGITS[d] as byte) == Some(d)
  {
  }
}
