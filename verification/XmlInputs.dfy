/** Values that other clients write, and how the printer spells its own. */
module XmlInputs {
  import opened Wrappers
  import opened Collections
  import opened Numerals
  import opened JsonValue
  import opened Strings
  import opened XmlEscape
  import opened XmlEvents
  import opened XmlRpc
  import opened XmlRendering
  import opened XmlRoundTrip
  import opened XmlText
  import B64 = Base64

  // ---------- elements with text ----------

  const SCALAR_TAGS: set<string> :=
    { "int", "i4", "i8", "boolean", "string", "double", "dateTime.iso8601", "base64" }

  lemma ScalarTagNames(tag: string)
    requires tag in SCALAR_TAGS
    ensures IsTagName(tag) && tag != "array" && tag != "struct" && tag != "nil"
  {
  }

  /** `<value><tag>text</tag></value>` from behind its start tag. */
  function Framed(tag: string, text: string, rest: seq<Event>): seq<Event> {
    ElementEvents(tag, text) + ([End("value")] + rest)
  }

  /** An element whose text is a value of its type is that value. */
  lemma ElementIsValue(tag: string, text: string, v: Value, rest: seq<Event>)
    requires tag in SCALAR_TAGS && WellNested(text) && Scalar(tag, text) == Some(v)
    ensures ParseValue(Framed(tag, text, rest), "") == Ok((Some(v), rest))
  {
    ScalarTagNames(tag);
    ElementIsRead(tag, text, [End("value")] + rest);
    ValueTakesElement(tag, Some(v), Framed(tag, text, rest), rest);
  }

  /** An element whose text is none leaves the value empty. */
  lemma ElementIsNoValue(tag: string, text: string, rest: seq<Event>)
    requires tag in SCALAR_TAGS && WellNested(text) && Scalar(tag, text) == None
    ensures ParseValue(Framed(tag, text, rest), "") == Ok((None, rest))
  {
    ScalarTagNames(tag);
    var closing := [End("value")] + rest;
    ElementIsRead(tag, text, closing);
    Uncons(End("value"), rest);
  }

  // ---------- truth values ----------

  predicate SpellsTrue(core: string) { core == "1" || core == "true" }

  predicate SpellsFalse(core: string) { core == "0" || core == "false" }

  /** With any white space around it: both spellings of both truth values, and nothing else. */
  lemma TruthIsRead(front: string, core: string, back: string, rest: seq<Event>)
    requires AllWhitespace(front) && AllWhitespace(back) && IsTrimmed(core) && core != ""
    requires WellNested(front + core + back)
    ensures SpellsTrue(core) ==>
              ParseValue(Framed("boolean", front + core + back, rest), "") == Ok((Some(Boolean(true)), rest))
    ensures SpellsFalse(core) ==>
              ParseValue(Framed("boolean", front + core + back, rest), "") == Ok((Some(Boolean(false)), rest))
    ensures !SpellsTrue(core) && !SpellsFalse(core) ==>
              ParseValue(Framed("boolean", front + core + back, rest), "") == Ok((None, rest))
  {
    var text := front + core + back;
    TrimForgetsPadding(front, core, back);
    if SpellsTrue(core) {
      ElementIsValue("boolean", text, Boolean(true), rest);
    } else if SpellsFalse(core) {
      ElementIsValue("boolean", text, Boolean(false), rest);
    } else {
      ElementIsNoValue("boolean", text, rest);
    }
  }

  lemma BlankIsNoTruth(blank: string)
    requires AllWhitespace(blank)
    ensures Scalar("boolean", blank) == None
  {
    TrimIsTrimmed(blank);
  }

  // ---------- integers ----------

  /** The largest and the smallest integer under the tag. */
  function Bounds(tag: string): (int, int) {
    if tag == "i8" then (I64_MIN, I64_MAX) else (-0x8000_0000, 0x7FFF_FFFF)
  }

  lemma IntegerOfText(tag: string, front: string, core: string, back: string)
    requires tag in {"int", "i4", "i8"}
    requires AllWhitespace(front) && AllWhitespace(back) && IsTrimmed(core) && core != ""
    ensures Scalar(tag, front + core + back) == IntOf(ParseSigned(core, Bounds(tag).0, Bounds(tag).1))
  {
    TrimForgetsPadding(front, core, back);
  }

  lemma NumeralsAreTrimmed(digits: string)
    requires digits != "" && AllDigits(digits)
    ensures IsTrimmed(digits) && IsTrimmed(['+'] + digits) && IsTrimmed(['-'] + digits)
  {
    assert IsDigit(digits[0]) && IsDigit(digits[|digits| - 1]);
  }

  lemma IntegerSpelled(tag: string, front: string, core: string, back: string, n: int)
    requires tag in {"int", "i4", "i8"} && AllWhitespace(front) && AllWhitespace(back)
    requires IsTrimmed(core) && core != ""
    requires ParseSigned(core, Bounds(tag).0, Bounds(tag).1) == Bounded(n, Bounds(tag).0, Bounds(tag).1)
    ensures Scalar(tag, front + core + back) == IntWithin(n, Bounds(tag))
  {
    IntegerOfText(tag, front, core, back);
  }

  /** The integer, if it fits. */
  function IntWithin(n: int, bounds: (int, int)): Option<Value> {
    if bounds.0 <= n <= bounds.1 && I64_MIN <= n <= I64_MAX then Some(Int(n)) else None
  }

  /** Integers may be written with either sign, or none, and with white space around them. */
  lemma IntegerIsRead(tag: string, front: string, sign: string, digits: string, back: string)
    requires tag in {"int", "i4", "i8"} && AllWhitespace(front) && AllWhitespace(back)
    requires digits != "" && AllDigits(digits) && (sign == [] || sign == ['+'] || sign == ['-'])
    ensures ParseDigits(digits).Some?
    ensures Scalar(tag, front + (sign + digits) + back)
            == IntWithin(WithSign(sign, ParseDigits(digits).value), Bounds(tag))
  {
    SignedDigits(digits, Bounds(tag).0, Bounds(tag).1);
    SignedIsTrimmed(sign, digits);
    IntegerSpelled(tag, front, sign + digits, back, WithSign(sign, ParseDigits(digits).value));
  }

  function WithSign(sign: string, n: nat): int { if sign == ['-'] then 0 - n else n }

  lemma SignedIsTrimmed(sign: string, digits: string)
    requires digits != "" && AllDigits(digits) && (sign == [] || sign == ['+'] || sign == ['-'])
    ensures IsTrimmed(sign + digits) && (sign == [] ==> sign + digits == digits)
  {
    NumeralsAreTrimmed(digits);
    if sign == [] { assert sign + digits == digits; }
  }

  /** What digits mean: leading zeros do not count. */
  lemma DigitsMean(zeros: nat, n: nat)
    ensures AllDigits(Zeros(zeros) + Decimal(n)) && ParseDigits(Zeros(zeros) + Decimal(n)) == Some(n)
  {
    ZerosDoNotCount(zeros, Decimal(n));
    DecimalRoundTrip(n);
  }

  /** Other text is no integer. */
  lemma OtherTextIsNoInteger(tag: string, front: string, core: string, back: string)
    requires tag in {"int", "i4", "i8"} && AllWhitespace(front) && AllWhitespace(back)
    requires IsTrimmed(core) && core != "" && !IsNumeral(core)
    ensures Scalar(tag, front + core + back) == None
  {
    IntegerOfText(tag, front, core, back);
    OtherTextIsRefused(core, Bounds(tag).0, Bounds(tag).1);
  }

  // ---------- text ----------

  /** Strings and doubles are the text of their element as it stands, dates too; nothing is trimmed. */
  lemma TextIsKept(text: string, rest: seq<Event>)
    requires WellNested(text)
    ensures ParseValue(Framed("string", text, rest), "") == Ok((Some(String(text)), rest))
    ensures ParseValue(Framed("double", text, rest), "") == Ok((Some(String(text)), rest))
    ensures ParseValue(Framed("dateTime.iso8601", text, rest), "") == Ok((Some(DateTime(text)), rest))
  {
    StringIsKept(text, rest);
    DoubleIsKept(text, rest);
    DateIsKept(text, rest);
  }

  lemma StringIsKept(text: string, rest: seq<Event>)
    requires WellNested(text)
    ensures ParseValue(Framed("string", text, rest), "") == Ok((Some(String(text)), rest))
  {
    StringIsRead(text);
    ElementIsValue("string", text, String(text), rest);
  }

  lemma DoubleIsKept(text: string, rest: seq<Event>)
    requires WellNested(text)
    ensures ParseValue(Framed("double", text, rest), "") == Ok((Some(String(text)), rest))
  {
    DoubleIsRead(text);
    ElementIsValue("double", text, String(text), rest);
  }

  lemma DateIsKept(text: string, rest: seq<Event>)
    requires WellNested(text)
    ensures ParseValue(Framed("dateTime.iso8601", text, rest), "") == Ok((Some(DateTime(text)), rest))
  {
    DateTimeIsRead(text);
    ElementIsValue("dateTime.iso8601", text, DateTime(text), rest);
  }

  // ---------- elements without content ----------

  /** What an empty element is, if anything. */
  lemma EmptyElementIsRead(rest: seq<Event>)
    ensures ParseValue([EmptyTag("array")] + ([End("value")] + rest), "") == Ok((Some(Array([])), rest))
    ensures ParseValue([EmptyTag("struct")] + ([End("value")] + rest), "") == Ok((Some(Struct([])), rest))
    ensures ParseValue([EmptyTag("nil")] + ([End("value")] + rest), "") == Ok((Some(Nil), rest))
    ensures ParseValue([EmptyTag("string")] + ([End("value")] + rest), "") == Ok((Some(String("")), rest))
    ensures ParseValue([EmptyTag("double")] + ([End("value")] + rest), "") == Ok((Some(String("")), rest))
    ensures ParseValue([EmptyTag("dateTime.iso8601")] + ([End("value")] + rest), "") == Ok((Some(String("")), rest))
    ensures ParseValue([EmptyTag("base64")] + ([End("value")] + rest), "") == Ok((Some(Base64([])), rest))
  {
    EmptyTagIsValue("array", Array([]), rest);
    EmptyTagIsValue("struct", Struct([]), rest);
    EmptyTagIsValue("nil", Nil, rest);
    EmptyTagIsValue("string", String(""), rest);
    EmptyTagIsValue("double", String(""), rest);
    EmptyTagIsValue("dateTime.iso8601", String(""), rest);
    EmptyTagIsValue("base64", Base64([]), rest);
  }

  lemma EmptyTagIsValue(tag: string, v: Value, rest: seq<Event>)
    requires EmptyScalar(tag) == Some(v)
    ensures ParseValue([EmptyTag(tag)] + ([End("value")] + rest), "") == Ok((Some(v), rest))
  {
    Uncons(EmptyTag(tag), [End("value")] + rest);
    CloseAtOnce(Some(v), "value", rest);
  }

  /** Numbers and truth values cannot be empty, and unknown elements are no values. */
  lemma OtherEmptyElementIsNone(tag: string, rest: seq<Event>)
    requires tag !in {"array", "struct", "nil", "string", "double", "dateTime.iso8601", "base64"}
    ensures ParseValue([EmptyTag(tag)] + ([End("value")] + rest), "") == Ok((None, rest))
  {
    Uncons(EmptyTag(tag), [End("value")] + rest);
    Uncons(End("value"), rest);
  }

  /** A value with nothing in it is none. */
  lemma EmptyValueIsNone(rest: seq<Event>)
    ensures ParseValue([End("value")] + rest, "") == Ok((None, rest))
  {
    Uncons(End("value"), rest);
  }

  // ---------- how the printer spells values ----------

  lemma Tags()
    ensures Opening("value") == "<value>" && Closing("value") == "</value>"
    ensures Pad(0) == ""
  {
  }

  lemma PrintedScalar(v: Value, opening: string, closing: string)
    requires IsScalar(v) && !v.Nil? && Opening(ScalarTag(v)) == opening && Closing(ScalarTag(v)) == closing
    ensures Print(v, 0) == "<value>" + (opening + ScalarText(v) + closing) + "</value>"
  {
    Tags();
    assert Print(v, 0) == Body(v, 0);
  }

  lemma IntegerIsPrinted(n: i64)
    ensures Print(Int(n), 0) == "<value>" + ("<int>" + Signed(n) + "</int>") + "</value>"
  {
    PrintedScalar(Int(n), "<int>", "</int>");
  }

  lemma TruthIsPrinted(b: bool)
    ensures Print(Boolean(b), 0)
            == "<value>" + ("<boolean>" + (if b then "true" else "false") + "</boolean>") + "</value>"
  {
    PrintedScalar(Boolean(b), "<boolean>", "</boolean>");
  }

  lemma StringIsPrinted(s: string)
    ensures Print(String(s), 0) == "<value>" + ("<string>" + EscapeXml(s) + "</string>") + "</value>"
  {
    PrintedScalar(String(s), "<string>", "</string>");
  }

  lemma DoubleIsPrinted(text: string)
    ensures Print(Double(text), 0) == "<value>" + ("<double>" + text + "</double>") + "</value>"
  {
    PrintedScalar(Double(text), "<double>", "</double>");
  }

  lemma DateIsPrinted(text: string)
    ensures Print(DateTime(text), 0)
            == "<value>" + ("<dateTime.iso8601>" + text + "</dateTime.iso8601>") + "</value>"
  {
    PrintedScalar(DateTime(text), "<dateTime.iso8601>", "</dateTime.iso8601>");
  }

  lemma BinaryIsPrinted(data: seq<byte>)
    ensures Print(Base64(data), 0) == "<value>" + ("<base64>" + B64.Encode(data) + "</base64>") + "</value>"
  {
    PrintedScalar(Base64(data), "<base64>", "</base64>");
  }

  /** The printed forms of values that contain no others. */
  lemma ScalarIsPrinted(v: Value)
    requires IsScalar(v)
    ensures Print(v, 0) == "<value>" + (match v
                                        case Int(n) => "<int>" + Signed(n) + "</int>"
                                        case Boolean(b) => "<boolean>" + (if b then "true" else "false") + "</boolean>"
                                        case String(s) => "<string>" + EscapeXml(s) + "</string>"
                                        case Double(text) => "<double>" + text + "</double>"
                                        case DateTime(text) => "<dateTime.iso8601>" + text + "</dateTime.iso8601>"
                                        case Base64(data) => "<base64>" + B64.Encode(data) + "</base64>"
                                        case _ => "<nil/>") + "</value>"
  {
    match v
    case Int(n) => IntegerIsPrinted(n);
    case Boolean(b) => TruthIsPrinted(b);
    case String(s) => StringIsPrinted(s);
    case Double(text) => DoubleIsPrinted(text);
    case DateTime(text) => DateIsPrinted(text);
    case Base64(data) => BinaryIsPrinted(data);
    case Nil =>
      Tags();
      assert Alone("nil") == "<nil/>" && Print(Nil, 0) == Body(Nil, 0);
  }

  // ---------- how the printer lays them out ----------

  lemma LinesAreIndented()
    ensures Line(0) == "\n" && Line(2) == "\n  " && Line(4) == "\n    "
  {
    assert Pad(2) == "  " && Pad(4) == "  " + Pad(2);
  }

  lemma OneItem(v: Value, indent: nat)
    ensures PrintItems([v], indent) == Line(indent) + Body(v, indent)
  {
    assert [v][1..] == [] && PrintItems([], indent) == "";
  }

  /** Items stand on lines of their own, two columns further in. */
  lemma ArrayIsPrinted(v: Value, indent: nat)
    ensures Body(Array([v]), indent)
            == Opening("value") + Opening("array") + Opening("data") + (Line(indent + 2) + Body(v, indent + 2))
               + Line(indent) + Closing("data") + Closing("array") + Closing("value")
  {
    OneItem(v, indent + 2);
  }

  lemma OneMember(m: Member, indent: nat)
    ensures PrintMembers([m], indent)
            == Line(indent + 2) + Opening("member") + Element("name", EscapeXml(m.name))
               + Line(indent + 4) + Body(m.value, indent + 4) + Line(indent) + Closing("member")
  {
    assert [m][1..] == [] && PrintMembers([], indent) == "";
  }

  /** A member's name and value stand on lines of their own, its end no further in than the structure. */
  lemma StructIsPrinted(m: Member, indent: nat)
    ensures Body(Struct([m]), indent)
            == Opening("value") + Opening("struct")
               + (Line(indent + 2) + Opening("member") + Element("name", EscapeXml(m.name))
                  + Line(indent + 4) + Body(m.value, indent + 4) + Line(indent) + Closing("member"))
               + Line(indent) + Closing("struct") + Closing("value")
  {
    OneMember(m, indent);
  }

  lemma OneParameter(v: Value)
    ensures PrintParams([v]) == Line(4) + Opening("param") + Body(v, 0) + Closing("param")
  {
    assert [v][1..] == [] && PrintParams([]) == "";
  }

  /** A request with its declaration, each of its parts on a line of its own. */
  lemma RequestIsPrinted(name: string, v: Value)
    ensures PrintCall(MethodCall(name, [v]))
            == Opening("?xml version=\"1.0\"?") + Line(0) + Opening("methodCall") + Line(2)
               + Element("methodName", name) + Line(2) + Opening("params")
               + (Line(4) + Opening("param") + Body(v, 0) + Closing("param"))
               + Line(2) + Closing("params") + Line(0) + Closing("methodCall")
  {
    OneParameter(v);
  }
}
