/** XML-RPC values and requests: the printer and the recursive parser. */
module XmlRpc {
  import opened Wrappers
  import opened Numerals
  import opened JsonValue
  import opened Strings
  import opened XmlEscape
  import opened XmlEvents
  import B64 = Base64

  /** A double is given by the text it prints as. */
  datatype Value =
    | Int(n: i64)
    | Boolean(b: bool)
    | String(s: string)
    | Double(text: string)
    | DateTime(text: string)
    | Base64(data: seq<byte>)
    | Array(items: seq<Value>)
    | Struct(members: seq<Member>)
    | Nil

  datatype Member = Member(name: string, value: Value)

  datatype MethodCall = MethodCall(name: string, params: seq<Value>)

  datatype XmlError = ParseError | MethodNameRequired

  // ---------- printing ----------

  function Pad(n: nat): string { if n == 0 then "" else " " + Pad(n - 1) }

  function Line(n: nat): string { "\n" + Pad(n) }

  function Element(tag: string, text: string): string { Opening(tag) + text + Closing(tag) }

  predicate IsScalar(v: Value) { !v.Array? && !v.Struct? }

  function ScalarTag(v: Value): string
    requires IsScalar(v) && !v.Nil?
  {
    match v
    case Int(_) => "int"
    case Boolean(_) => "boolean"
    case String(_) => "string"
    case Double(_) => "double"
    case DateTime(_) => "dateTime.iso8601"
    case Base64(_) => "base64"
  }

  function ScalarText(v: Value): string
    requires IsScalar(v) && !v.Nil?
  {
    match v
    case Int(n) => Signed(n)
    case Boolean(b) => if b then "true" else "false"
    case String(s) => EscapeXml(s)
    case Double(text) => text
    case DateTime(text) => text
    case Base64(data) => B64.Encode(data)
  }

  /** `value_to_xml` after the padding of its first line. */
  function Body(v: Value, indent: nat): string
    decreases v
  {
    match v
    case Array(items) =>
      Opening("value") + Opening("array") + Opening("data") + PrintItems(items, indent + 2)
      + Line(indent) + Closing("data") + Closing("array") + Closing("value")
    case Struct(members) =>
      Opening("value") + Opening("struct") + PrintMembers(members, indent)
      + Line(indent) + Closing("struct") + Closing("value")
    case Nil => Opening("value") + Alone("nil") + Closing("value")
    case _ => Opening("value") + Element(ScalarTag(v), ScalarText(v)) + Closing("value")
  }

  function Print(v: Value, indent: nat): string { Pad(indent) + Body(v, indent) }

  /** The items, each on a line of its own. */
  function PrintItems(items: seq<Value>, indent: nat): string
    decreases items
  {
    if items == [] then "" else Line(indent) + Body(items[0], indent) + PrintItems(items[1..], indent)
  }

  function PrintMembers(members: seq<Member>, indent: nat): string
    decreases members
  {
    if members == [] then ""
    else Line(indent + 2) + Opening("member") + Element("name", EscapeXml(members[0].name))
         + Line(indent + 4) + Body(members[0].value, indent + 4)
         + Line(indent) + Closing("member") + PrintMembers(members[1..], indent)
  }

  function PrintParams(params: seq<Value>): string {
    if params == [] then ""
    else Line(4) + Opening("param") + Body(params[0], 0) + Closing("param") + PrintParams(params[1..])
  }

  /** `XmlRpcRequest::to_xml`. */
  function PrintCall(call: MethodCall): string {
    Opening("?xml version=\"1.0\"?") + Line(0) + Opening("methodCall") + Line(2)
    + Element("methodName", call.name) + Line(2) + Opening("params")
    + PrintParams(call.params) + Line(2) + Closing("params") + Line(0) + Closing("methodCall")
  }

  // ---------- parsing ----------

  datatype ScalarKind = ShortInteger | WideInteger | Truth | Text | Date | Binary | Unknown

  function KindOf(tag: string): ScalarKind {
    match tag
    case "int" => ShortInteger
    case "i4" => ShortInteger
    case "i8" => WideInteger
    case "boolean" => Truth
    case "string" => Text
    case "double" => Text
    case "dateTime.iso8601" => Date
    case "base64" => Binary
    case _ => Unknown
  }

  /** `read_scalar`: out-of-range and malformed scalars are consumed but yield nothing. */
  function ScalarOf(kind: ScalarKind, text: string): Option<Value> {
    var trimmed := Trim(text);
    match kind
    case ShortInteger => IntOf(ParseSigned(trimmed, -0x8000_0000, 0x7FFF_FFFF))
    case WideInteger => IntOf(ParseSigned(trimmed, I64_MIN, I64_MAX))
    case Truth =>
      if trimmed == "1" || trimmed == "true" then Some(Boolean(true))
      else if trimmed == "0" || trimmed == "false" then Some(Boolean(false))
      else None
    case Text => Some(String(text))
    case Date => Some(DateTime(text))
    case Binary => Some(Base64(B64.DecodeAria2(text)))
    case Unknown => None
  }

  function Scalar(tag: string, text: string): Option<Value> { ScalarOf(KindOf(tag), text) }

  function IntOf(n: Option<int>): Option<Value> {
    match n
    case Some(i) => if I64_MIN <= i <= I64_MAX then Some(Int(i)) else None
    case None => None
  }

  /** The value of an element without content. */
  function EmptyScalar(tag: string): Option<Value> {
    match tag
    case "array" => Some(Array([]))
    case "struct" => Some(Struct([]))
    case "nil" => Some(Nil)
    case "string" => Some(String(""))
    case "double" => Some(String(""))
    case "dateTime.iso8601" => Some(String(""))
    case "base64" => Some(Base64([]))
    case _ => None
  }

  /** A value to push, if there is one. */
  function Kept<T>(v: Option<T>): seq<T> { if v.Some? then [v.value] else [] }

  type Parsed<T> = Result<(T, seq<Event>), XmlError>

  /** Skips to the end of the element `name` and answers `v`. */
  function Close<T>(v: T, es: seq<Event>, name: string): (r: Parsed<T>)
    ensures r.Ok? ==> |r.value.1| < |es|
  {
    match ReadText(es, name, [])
    case None => Err(ParseError)
    case Some((_, rest)) => Ok((v, rest))
  }

  /** The element whose start tag has just been read inside a value frame. */
  function ParseElement(es: seq<Event>, tag: string): (r: Parsed<Option<Value>>)
    ensures r.Ok? ==> |r.value.1| < |es|
    decreases |es|, 2
  {
    if tag == "array" then
      match ParseArray(es, []) case Err(e) => Err(e) case Ok((v, rest)) => Ok((Some(v), rest))
    else if tag == "struct" then
      match ParseStruct(es, []) case Err(e) => Err(e) case Ok((v, rest)) => Ok((Some(v), rest))
    else
      match ReadText(es, tag, [])
      case None => Err(ParseError)
      case Some((text, rest)) => Ok((if tag == "nil" then Some(Nil) else Scalar(tag, text), rest))
  }

  /** `parse_xml_value`: the frame opened by a value's start tag. */
  function ParseValue(es: seq<Event>, implicit: string): (r: Parsed<Option<Value>>)
    ensures r.Ok? ==> |r.value.1| < |es|
    decreases |es|, 1
  {
    if es == [] then Err(ParseError)
    else
      match es[0]
      case Start(tag) =>
        (match ParseElement(es[1..], tag)
         case Err(e) => Err(e)
         case Ok((Some(v), rest)) => Close(Some(v), rest, "value")
         case Ok((None, rest)) => ParseValue(rest, implicit))
      case EmptyTag(tag) =>
        (match EmptyScalar(tag)
         case Some(v) => Close(Some(v), es[1..], "value")
         case None => ParseValue(es[1..], implicit))
      case Chars(raw) =>
        (match Unescape(raw)
         case None => Err(ParseError)
         case Some(text) => ParseValue(es[1..], implicit + text))
      case CData(text) => ParseValue(es[1..], implicit + text)
      case End(name) =>
        if name == "value" then Ok((if implicit == "" then None else Some(String(implicit)), es[1..]))
        else ParseValue(es[1..], implicit)
      case Other(_) => ParseValue(es[1..], implicit)
      case Garbled => Err(ParseError)
  }

  /** `parse_xml_array`: values that yield nothing are left out. */
  function ParseArray(es: seq<Event>, values: seq<Value>): (r: Parsed<Value>)
    ensures r.Ok? ==> |r.value.1| < |es|
    decreases |es|, 0
  {
    if es == [] || es[0].Garbled? then Err(ParseError)
    else if es[0] == Start("value") then
      match ParseValue(es[1..], "")
      case Err(e) => Err(e)
      case Ok((v, rest)) => ParseArray(rest, values + Kept(v))
    else if es[0] == End("array") then Ok((Array(values), es[1..]))
    else ParseArray(es[1..], values)
  }

  /** One member, from after its start tag. */
  function ParseMember(es: seq<Event>, name: Option<string>, value: Option<Value>)
    : (r: Parsed<(Option<string>, Option<Value>)>)
    ensures r.Ok? ==> |r.value.1| < |es|
    decreases |es|, 0
  {
    if es == [] || es[0].Garbled? then Err(ParseError)
    else if es[0] == Start("name") then
      match ReadText(es[1..], "name", [])
      case None => Err(ParseError)
      case Some((text, rest)) => ParseMember(rest, Some(text), value)
    else if es[0] == Start("value") then
      match ParseValue(es[1..], "")
      case Err(e) => Err(e)
      case Ok((v, rest)) => ParseMember(rest, name, v)
    else if es[0].Start? then
      match ReadText(es[1..], es[0].name, [])
      case None => Err(ParseError)
      case Some((_, rest)) => ParseMember(rest, name, value)
    else if es[0] == End("member") then Ok(((name, value), es[1..]))
    else ParseMember(es[1..], name, value)
  }

  function Completed(m: (Option<string>, Option<Value>)): seq<Member> {
    if m.0.Some? && m.1.Some? && m.0.value != "" then [Member(m.0.value, m.1.value)] else []
  }

  /** `parse_xml_struct`: members without a name or a value are left out. */
  function ParseStruct(es: seq<Event>, members: seq<Member>): (r: Parsed<Value>)
    ensures r.Ok? ==> |r.value.1| < |es|
    decreases |es|, 0
  {
    if es == [] || es[0].Garbled? then Err(ParseError)
    else if es[0] == Start("member") then
      match ParseMember(es[1..], None, None)
      case Err(e) => Err(e)
      case Ok((m, rest)) => ParseStruct(rest, members + Completed(m))
    else if es[0] == End("struct") then Ok((Struct(members), es[1..]))
    else ParseStruct(es[1..], members)
  }

  /** The loop over one `param`, from after its start tag. */
  function ParseParam(es: seq<Event>): (r: Parsed<Option<Value>>)
    ensures r.Ok? ==> |r.value.1| < |es|
    decreases |es|
  {
    if es == [] || es[0].Garbled? then Err(ParseError)
    else if es[0] == Start("value") then
      match ParseValue(es[1..], "")
      case Err(e) => Err(e)
      case Ok((v, rest)) => Close(v, rest, "param")
    else if es[0] == End("param") then Ok((None, es[1..]))
    else ParseParam(es[1..])
  }

  function ParseCall(es: seq<Event>, name: Option<string>, params: seq<Value>): Result<MethodCall, XmlError>
    decreases |es|
  {
    if es == [] then
      if name.Some? && name.value != "" then Ok(MethodCall(name.value, params)) else Err(MethodNameRequired)
    else if es[0].Garbled? then Err(ParseError)
    else if es[0] == Start("methodName") then
      match ReadText(es[1..], "methodName", [])
      case None => Err(ParseError)
      case Some((text, rest)) => ParseCall(rest, Some(text), params)
    else if es[0] == Start("param") then
      match ParseParam(es[1..])
      case Err(e) => Err(e)
      case Ok((v, rest)) => ParseCall(rest, name, params + Kept(v))
    else ParseCall(es[1..], name, params)
  }

  /** `parse_request`. */
  function ParseRequest(document: string): Result<MethodCall, XmlError> { ParseCall(Lex(document), None, []) }
}
