/** Standard Base64 (section 4 of RFC 4648) and the permissive decoder of the wire adapters. */
module Base64 {
  import opened Wrappers
  import opened Numerals

  const PAD: char := '='

  function Symbol(v: nat): (c: char)
    requires v < 64
    ensures ValueOf(c) == Some(v) && c != PAD
  {
    if v < 26 then 'A' + v as char
    else if v < 52 then 'a' + (v - 26) as char
    else if v < 62 then '0' + (v - 52) as char
    else if v == 62 then '+' else '/'
  }

  function ValueOf(c: char): (v: Option<nat>)
    ensures v.Some? ==> v.value < 64
  {
    if 'A' <= c <= 'Z' then Some((c - 'A') as nat)
    else if 'a' <= c <= 'z' then Some((c - 'a') as nat + 26)
    else if '0' <= c <= '9' then Some((c - '0') as nat + 52)
    else if c == '+' then Some(62)
    else if c == '/' then Some(63)
    else None
  }

  lemma SymbolOfValue(c: char)
    requires ValueOf(c).Some?
    ensures Symbol(ValueOf(c).value) == c
  {
  }

  // ---------- the standard codec ----------

  function EncodeGroup(data: seq<byte>): (text: string)
    requires 1 <= |data| <= 3
    ensures |text| == 4
  {
    var d0, d1, d2 := data[0], if |data| > 1 then data[1] else 0, if |data| > 2 then data[2] else 0;
    [Symbol(d0 / 4), Symbol(d0 % 4 * 16 + d1 / 16),
     if |data| > 1 then Symbol(d1 % 16 * 4 + d2 / 64) else PAD,
     if |data| > 2 then Symbol(d2 % 64) else PAD]
  }

  /** The number of groups of up to three bytes. */
  function Groups(data: seq<byte>): nat { if data == [] then 0 else 1 + if |data| <= 3 then 0 else Groups(data[3..]) }

  function Encode(data: seq<byte>): (text: string)
    ensures |text| == 4 * Groups(data)
  {
    if data == [] then []
    else if |data| <= 3 then EncodeGroup(data)
    else EncodeGroup(data[..3]) + Encode(data[3..])
  }

  /** One group of four; unused low bits of the last symbol must be zero. */
  function DecodeGroup(g: string): Option<seq<byte>>
    requires |g| == 4
  {
    var (v0, v1, v2, v3) := (ValueOf(g[0]), ValueOf(g[1]), ValueOf(g[2]), ValueOf(g[3]));
    if v0.None? || v1.None? then None
    else if g[2] == PAD && g[3] == PAD then
      if v1.value % 16 == 0 then Some([v0.value * 4 + v1.value / 16]) else None
    else if v2.None? then None
    else if g[3] == PAD then
      if v2.value % 4 == 0 then Some([v0.value * 4 + v1.value / 16, v1.value % 16 * 16 + v2.value / 4]) else None
    else if v3.None? then None
    else Some([v0.value * 4 + v1.value / 16, v1.value % 16 * 16 + v2.value / 4, v2.value % 4 * 64 + v3.value])
  }

  /** The strict decoder: whole groups, padding canonical and in the last group only. */
  function DecodeStrict(text: string): Option<seq<byte>> {
    if text == [] then Some([])
    else if |text| < 4 then None
    else if |text| == 4 then DecodeGroup(text)
    else
      var first, rest := DecodeGroup(text[..4]), DecodeStrict(text[4..]);
      if first.Some? && |first.value| == 3 && rest.Some? then Some(first.value + rest.value) else None
  }

  /** Three bytes cut into four sextets and put together again. */
  lemma BytesToSextets(d0: byte, d1: byte, d2: byte)
    ensures d0 / 4 * 4 + (d0 % 4 * 16 + d1 / 16) / 16 == d0
    ensures (d0 % 4 * 16 + d1 / 16) % 16 * 16 + (d1 % 16 * 4 + d2 / 64) / 4 == d1
    ensures (d1 % 16 * 4 + d2 / 64) % 4 * 64 + d2 % 64 == d2
  {
  }

  /** Four sextets put together into three bytes and cut again. */
  lemma SextetsToBytes(v0: nat, v1: nat, v2: nat, v3: nat)
    requires v0 < 64 && v1 < 64 && v2 < 64 && v3 < 64
    ensures (v0 * 4 + v1 / 16) / 4 == v0
    ensures (v0 * 4 + v1 / 16) % 4 * 16 + (v1 % 16 * 16 + v2 / 4) / 16 == v1
    ensures (v1 % 16 * 16 + v2 / 4) % 16 * 4 + (v2 % 4 * 64 + v3) / 64 == v2
    ensures (v2 % 4 * 64 + v3) % 64 == v3
  {
  }

  lemma OneByteRoundTrip(d0: byte)
    ensures DecodeGroup(EncodeGroup([d0])) == Some([d0])
  {
    BytesToSextets(d0, 0, 0);
  }

  lemma TwoByteRoundTrip(d0: byte, d1: byte)
    ensures DecodeGroup(EncodeGroup([d0, d1])) == Some([d0, d1])
  {
    BytesToSextets(d0, d1, 0);
    assert EncodeGroup([d0, d1])[2] == Symbol(d1 % 16 * 4);
  }

  lemma ThreeByteRoundTrip(d0: byte, d1: byte, d2: byte)
    ensures DecodeGroup(EncodeGroup([d0, d1, d2])) == Some([d0, d1, d2])
  {
    BytesToSextets(d0, d1, d2);
    var g := EncodeGroup([d0, d1, d2]);
    assert g[2] == Symbol(d1 % 16 * 4 + d2 / 64) && g[3] == Symbol(d2 % 64);
  }

  lemma GroupRoundTrip(data: seq<byte>)
    requires 1 <= |data| <= 3
    ensures DecodeGroup(EncodeGroup(data)) == Some(data)
  {
    if |data| == 1 {
      OneByteRoundTrip(data[0]);
      assert data == [data[0]];
    } else if |data| == 2 {
      TwoByteRoundTrip(data[0], data[1]);
      assert data == [data[0], data[1]];
    } else {
      ThreeByteRoundTrip(data[0], data[1], data[2]);
      assert data == [data[0], data[1], data[2]];
    }
  }

  lemma OneByteGroup(v0: nat, v1: nat)
    requires v0 < 64 && v1 < 64 && v1 % 16 == 0
    ensures EncodeGroup([v0 * 4 + v1 / 16]) == [Symbol(v0), Symbol(v1), PAD, PAD]
  {
    SextetsToBytes(v0, v1, 0, 0);
  }

  lemma TwoByteGroup(v0: nat, v1: nat, v2: nat)
    requires v0 < 64 && v1 < 64 && v2 < 64 && v2 % 4 == 0
    ensures EncodeGroup([v0 * 4 + v1 / 16, v1 % 16 * 16 + v2 / 4]) == [Symbol(v0), Symbol(v1), Symbol(v2), PAD]
  {
    SextetsToBytes(v0, v1, v2, 0);
  }

  lemma ThreeByteGroup(v0: nat, v1: nat, v2: nat, v3: nat)
    requires v0 < 64 && v1 < 64 && v2 < 64 && v3 < 64
    ensures EncodeGroup([v0 * 4 + v1 / 16, v1 % 16 * 16 + v2 / 4, v2 % 4 * 64 + v3])
            == [Symbol(v0), Symbol(v1), Symbol(v2), Symbol(v3)]
  {
    SextetsToBytes(v0, v1, v2, v3);
  }

  lemma ShortGroupIsCanonical(g: string)
    requires |g| == 4 && DecodeGroup(g).Some? && g[3] == PAD
    ensures 1 <= |DecodeGroup(g).value| <= 2 && EncodeGroup(DecodeGroup(g).value) == g
  {
    var v0, v1 := ValueOf(g[0]).value, ValueOf(g[1]).value;
    SymbolOfValue(g[0]);
    SymbolOfValue(g[1]);
    if g[2] == PAD {
      OneByteGroup(v0, v1);
    } else {
      SymbolOfValue(g[2]);
      TwoByteGroup(v0, v1, ValueOf(g[2]).value);
    }
  }

  lemma GroupIsCanonical(g: string)
    requires |g| == 4 && DecodeGroup(g).Some?
    ensures 1 <= |DecodeGroup(g).value| <= 3 && EncodeGroup(DecodeGroup(g).value) == g
  {
    if g[3] == PAD {
      ShortGroupIsCanonical(g);
    } else {
      SymbolOfValue(g[0]);
      SymbolOfValue(g[1]);
      SymbolOfValue(g[2]);
      SymbolOfValue(g[3]);
      ThreeByteGroup(ValueOf(g[0]).value, ValueOf(g[1]).value, ValueOf(g[2]).value, ValueOf(g[3]).value);
    }
  }

  lemma {:induction false} DecodeInvertsEncode(data: seq<byte>)
    ensures DecodeStrict(Encode(data)) == Some(data)
  {
    if 1 <= |data| <= 3 {
      GroupRoundTrip(data);
    } else if data != [] {
      var text := Encode(data);
      GroupRoundTrip(data[..3]);
      DecodeInvertsEncode(data[3..]);
      assert text[..4] == EncodeGroup(data[..3]) && text[4..] == Encode(data[3..]);
      assert data == data[..3] + data[3..];
    }
  }

  lemma {:induction false} EncodeInvertsDecode(text: string)
    requires DecodeStrict(text).Some?
    ensures Encode(DecodeStrict(text).value) == text
  {
    if |text| == 4 {
      GroupIsCanonical(text);
    } else if text != [] {
      var first, rest := DecodeGroup(text[..4]).value, DecodeStrict(text[4..]).value;
      GroupIsCanonical(text[..4]);
      EncodeInvertsDecode(text[4..]);
      assert (first + rest)[..3] == first && (first + rest)[3..] == rest;
      assert text == text[..4] + text[4..];
    }
  }

  // ---------- the permissive decoder ----------

  /**
    The decoder works on the bytes of a string; the bytes of a character outside ASCII are never
    in the alphabet, so the model works on characters.
   */
  predicate InAlphabet(c: char) { ValueOf(c).Some? || c == PAD }

  function Filtered(input: string): string {
    if input == [] then []
    else Filtered(input[..|input| - 1]) + if InAlphabet(input[|input| - 1]) then [input[|input| - 1]] else []
  }

  /** The position of the first padding character, or the length. */
  function FirstPad(s: string): (p: nat)
    ensures p <= |s| && (p < |s| ==> s[p] == PAD)
    ensures forall i | 0 <= i < p :: s[i] != PAD
  {
    if s == [] || s[0] == PAD then 0 else 1 + FirstPad(s[1..])
  }

  /** The part of the filtered input that is handed to the strict decoder, if any. */
  function Selected(f: string): Option<string> {
    var p := FirstPad(f);
    if f == [] then None
    else if p < |f| then
      var end := p / 4 * 4 + 4;
      if end > |f| || (exists i | p <= i < end :: f[i] != PAD) then None else Some(f[..end])
    else if |f| % 4 == 1 then Some(f[..|f| - 1])
    else Some(f)
  }

  function DecodeAria2(input: string): seq<byte> {
    match Selected(Filtered(input))
    case None => []
    case Some(text) =>
      match DecodeStrict(text)
      case None => []
      case Some(data) => data
  }

  // ---------- what the permissive decoder accepts ----------

  /** Where the padding of an encoding begins. */
  function PadStart(data: seq<byte>): nat {
    if data == [] then 0 else if |data| <= 3 then |data| + 1 else 4 + PadStart(data[3..])
  }

  lemma GroupPadding(data: seq<byte>, i: nat)
    requires 1 <= |data| <= 3 && i < 4
    ensures EncodeGroup(data)[i] == PAD <==> |data| < i
  {
  }

  lemma {:induction false} PadStartInLastGroup(data: seq<byte>)
    requires data != []
    ensures 4 * Groups(data) - 4 < PadStart(data) <= 4 * Groups(data)
    ensures PadStart(data) == 4 * Groups(data) <==> |data| % 3 == 0
  {
    if |data| > 3 {
      PadStartInLastGroup(data[3..]);
      assert (|data| - 3) % 3 == |data| % 3;
    }
  }

  lemma EncodingInGroups(data: seq<byte>, i: nat)
    requires 3 < |data| && i < |Encode(data)|
    ensures Encode(data)[i] == if i < 4 then EncodeGroup(data[..3])[i] else Encode(data[3..])[i - 4]
  {
  }

  lemma {:induction false} PaddingEndsEncoding(data: seq<byte>, i: nat)
    requires i < |Encode(data)|
    ensures Encode(data)[i] == PAD <==> PadStart(data) <= i
    decreases |data|
  {
    if |data| <= 3 {
      GroupPadding(data, i);
    } else if i < 4 {
      EncodingInGroups(data, i);
      GroupPadding(data[..3], i);
    } else {
      EncodingInGroups(data, i);
      PaddingEndsEncoding(data[3..], i - 4);
    }
  }

  /** The padding begins at `start`, within the last group. */
  ghost predicate PaddedFrom(text: string, start: nat) {
    |text| % 4 == 0 && |text| - 4 < start <= |text| && forall i | 0 <= i < |text| :: text[i] == PAD <==> start <= i
  }

  lemma PaddedInGroups(text: string, groups: nat, start: nat)
    requires |text| == 4 * groups && 4 * groups - 4 < start <= 4 * groups
    requires forall i | 0 <= i < |text| :: text[i] == PAD <==> start <= i
    ensures PaddedFrom(text, start)
  {
  }

  lemma EncodingIsPadded(data: seq<byte>)
    requires data != []
    ensures PaddedFrom(Encode(data), PadStart(data))
  {
    PadStartInLastGroup(data);
    forall i | 0 <= i < |Encode(data)| ensures Encode(data)[i] == PAD <==> PadStart(data) <= i {
      PaddingEndsEncoding(data, i);
    }
    PaddedInGroups(Encode(data), Groups(data), PadStart(data));
  }

  /** What may follow an encoding without changing what is decoded. */
  predicate Ignorable(data: seq<byte>, tail: string) {
    |data| % 3 != 0 || tail == [] || (|tail| == 1 && tail[0] != PAD)
  }

  lemma SelectsPadded(text: string, start: nat, tail: string)
    requires PaddedFrom(text, start) && start < |text|
    ensures Selected(text + tail) == Some(text)
  {
    var f := text + tail;
    assert forall i | 0 <= i < |text| :: f[i] == text[i];
    assert f[start] == PAD;
    assert FirstPad(f) == start;
    assert f[..|text|] == text;
  }

  lemma SelectsUnpadded(text: string, tail: string)
    requires text != [] && PaddedFrom(text, |text|)
    requires tail == [] || (|tail| == 1 && tail[0] != PAD)
    ensures Selected(text + tail) == Some(text)
  {
    var f := text + tail;
    assert forall i | 0 <= i < |f| :: f[i] != PAD;
    assert FirstPad(f) == |f|;
    assert f[..|text|] == text && f[..|f|] == f;
  }

  lemma SelectsEncoding(data: seq<byte>, tail: string)
    requires data != [] && Ignorable(data, tail)
    ensures Selected(Encode(data) + tail) == Some(Encode(data))
  {
    EncodingIsPadded(data);
    PadStartInLastGroup(data);
    if |data| % 3 != 0 {
      SelectsPadded(Encode(data), PadStart(data), tail);
    } else {
      SelectsUnpadded(Encode(data), tail);
    }
  }

  lemma SelectionIsPrefix(f: string, text: string, start: nat)
    requires PaddedFrom(text, start) && Selected(f) == Some(text)
    ensures |text| <= |f| && f == text + f[|text|..]
    ensures start < |text| || |f| == |text| || (|f| == |text| + 1 && f[|text|] != PAD)
  {
    var p := FirstPad(f);
    if p < |f| { assert text[p] == PAD; }
  }

  lemma SelectionStartsInput(f: string, data: seq<byte>)
    requires data != [] && Selected(f) == Some(Encode(data))
    ensures |Encode(data)| <= |f| && f == Encode(data) + f[|Encode(data)|..]
    ensures Ignorable(data, f[|Encode(data)|..])
  {
    EncodingIsPadded(data);
    PadStartInLastGroup(data);
    SelectionIsPrefix(f, Encode(data), PadStart(data));
  }

  /**
    The exact behaviour of the permissive decoder, on every input: it yields a non-empty
    `data` precisely when the input without its foreign bytes is the standard encoding of
    `data`, followed by anything if that encoding is padded, and by at most one alphabet
    character if it is not. Everything else decodes to nothing.
   */
  lemma DecodesExactly(input: string, data: seq<byte>)
    requires data != []
    ensures DecodeAria2(input) == data <==>
            |Encode(data)| <= |Filtered(input)|
            && Filtered(input)[..|Encode(data)|] == Encode(data)
            && Ignorable(data, Filtered(input)[|Encode(data)|..])
  {
    var f, text := Filtered(input), Encode(data);
    if DecodeAria2(input) == data {
      EncodeInvertsDecode(Selected(f).value);
      SelectionStartsInput(f, data);
    }
    if |text| <= |f| && f[..|text|] == text && Ignorable(data, f[|text|..]) {
      assert f == text + f[|text|..];
      SelectsEncoding(data, f[|text|..]);
      DecodeInvertsEncode(data);
    }
  }

  /** Foreign bytes anywhere in an encoding do not disturb it. */
  lemma ForeignBytesAreSkipped(input: string, data: seq<byte>)
    requires Filtered(input) == Encode(data)
    ensures DecodeAria2(input) == data
  {
    if data != [] {
      DecodesExactly(input, data);
      assert Encode(data)[..|Encode(data)|] == Encode(data);
    }
  }

  lemma {:induction false} AlphabetIsKept(s: string)
    requires forall i | 0 <= i < |s| :: InAlphabet(s[i])
    ensures Filtered(s) == s
  {
    if s == [] {
    } else {
      AlphabetIsKept(s[..|s| - 1]);
    }
  }

  lemma {:induction false} EncodingIsInAlphabet(data: seq<byte>)
    ensures forall i | 0 <= i < |Encode(data)| :: InAlphabet(Encode(data)[i])
  {
    if |data| > 3 { EncodingIsInAlphabet(data[3..]); }
  }

  lemma EncodedRoundTrip(data: seq<byte>)
    ensures DecodeAria2(Encode(data)) == data
  {
    EncodingIsInAlphabet(data);
    AlphabetIsKept(Encode(data));
    ForeignBytesAreSkipped(Encode(data), data);
  }

  // ---------- the alphabet and the examples of RFC 4648 ----------

  /** Capitals, small letters and digits in order, then `+` and `/` (table 1 of RFC 4648). */
  lemma SymbolsAreInOrder(v: nat)
    requires v < 63
    ensures Symbol(0) == 'A' && Symbol(25) == 'Z' && Symbol(26) == 'a' && Symbol(51) == 'z'
    ensures Symbol(52) == '0' && Symbol(61) == '9' && Symbol(62) == '+' && Symbol(63) == '/'
    ensures v !in {25, 51, 61, 62} ==> Symbol(v + 1) as int == Symbol(v) as int + 1
  {
  }

  lemma ExampleGroups()
    ensures EncodeGroup([0x66]) == ['Z', 'g', '=', '='] && EncodeGroup([0x62]) == ['Y', 'g', '=', '=']
    ensures EncodeGroup([0x66, 0x6F]) == ['Z', 'm', '8', '='] && EncodeGroup([0x66, 0x6F, 0x6F]) == ['Z', 'm', '9', 'v']
  {
  }

  /** Section 10 of RFC 4648: the encodings of the first bytes of `foobar`. */
  lemma ExamplesOfTheStandard()
    ensures Encode([0x66]) == "Zg==" && Encode([0x66, 0x6F]) == "Zm8=" && Encode([0x66, 0x6F, 0x6F]) == "Zm9v"
    ensures Encode([0x66, 0x6F, 0x6F, 0x62]) == "Zm9vYg=="
  {
    ExampleGroups();
    FourBytes([0x66, 0x6F, 0x6F], [0x62]);
  }

  lemma FourBytes(group: seq<byte>, last: seq<byte>)
    requires |group| == 3 && |last| == 1
    ensures Encode(group + last) == EncodeGroup(group) + EncodeGroup(last)
  {
    assert (group + last)[..3] == group && (group + last)[3..] == last;
  }
}
