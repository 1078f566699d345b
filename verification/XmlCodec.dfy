/**
  The printer's loops over lines and the parser's loops over a mutable reader, each proved equal
  to the function that specifies it.
 */
module XmlCodec {
  import opened Wrappers
  import opened Collections
  import opened XmlEscape
  import opened XmlEvents
  import opened XmlRpc
  import opened XmlRendering

  // ---------- printing ----------

  /** `parts.join("\n")`. */
  function JoinLines(parts: seq<string>): string {
    if parts == [] then ""
    else if |parts| == 1 then parts[0]
    else JoinLines(parts[..|parts| - 1]) + "\n" + parts[|parts| - 1]
  }

  lemma JoinPushed(parts: seq<string>, indent: nat, text: string)
    requires parts != []
    ensures JoinLines(parts + [Pad(indent) + text]) == JoinLines(parts) + Line(indent) + text
  {
    var all := parts + [Pad(indent) + text];
    assert all[..|all| - 1] == parts;
    Associative(JoinLines(parts), "\n", Pad(indent) + text);
    Associative("\n", Pad(indent), text);
    Associative(JoinLines(parts), Line(indent), text);
  }

  lemma NextItem(front: string, items: seq<Value>, i: nat, indent: nat)
    requires i < |items|
    ensures front + PrintItems(items[i..], indent)
            == front + Line(indent) + Body(items[i], indent) + PrintItems(items[i + 1..], indent)
  {
    assert items[i..][1..] == items[i + 1..];
    var rest := PrintItems(items[i + 1..], indent);
    Associative(front, Line(indent) + Body(items[i], indent), rest);
    Associative(front, Line(indent), Body(items[i], indent));
  }

  lemma NextMember(front: string, members: seq<Member>, i: nat, indent: nat)
    requires i < |members|
    ensures front + PrintMembers(members[i..], indent)
            == front + Line(indent + 2) + (Opening("member") + Element("name", EscapeXml(members[i].name)))
               + Line(indent + 4) + Body(members[i].value, indent + 4)
               + Line(indent) + Closing("member") + PrintMembers(members[i + 1..], indent)
  {
    assert members[i..][1..] == members[i + 1..];
    MemberText(front, Line(indent + 2), Opening("member"), Element("name", EscapeXml(members[i].name)),
               Line(indent + 4), Body(members[i].value, indent + 4), Line(indent), Closing("member"),
               PrintMembers(members[i + 1..], indent));
  }

  lemma MemberText(front: string, a: string, b: string, c: string, d: string, e: string, f: string, g: string,
                   h: string)
    ensures front + (a + b + c + d + e + f + g + h) == front + a + (b + c) + d + e + f + g + h
  {
  }

  lemma NextParam(front: string, params: seq<Value>, i: nat)
    requires i < |params|
    ensures front + PrintParams(params[i..])
            == front + Line(4) + (Opening("param") + Body(params[i], 0) + Closing("param"))
               + PrintParams(params[i + 1..])
  {
    assert params[i..][1..] == params[i + 1..];
    ParamText(front, Line(4), Opening("param"), Body(params[i], 0), Closing("param"), PrintParams(params[i + 1..]));
  }

  lemma ParamText(front: string, a: string, b: string, c: string, d: string, e: string)
    ensures front + (a + b + c + d + e) == front + a + (b + c + d) + e
  {
  }

  method ValueToXml(v: Value, indent: nat) returns (xml: string)
    ensures xml == Print(v, indent)
    decreases v
  {
    match v
    case Array(items) => xml := ArrayToXml(items, indent);
    case Struct(members) => xml := StructToXml(members, indent);
    case _ => xml := Pad(indent) + Body(v, indent);
  }

  function ArrayFront(): string { Opening("value") + Opening("array") + Opening("data") }

  function ArrayBack(): string { Closing("data") + Closing("array") + Closing("value") }

  /** The lines so far, with the items still to print, make up the whole. */
  ghost predicate JoinsWithItems(parts: seq<string>, front: string, items: seq<Value>, i: nat, indent: nat) {
    parts != [] && i <= |items| &&
    JoinLines(parts) + PrintItems(items[i..], indent) == front + PrintItems(items, indent)
  }

  method ArrayToXml(items: seq<Value>, indent: nat) returns (xml: string)
    ensures xml == Print(Array(items), indent)
    decreases items
  {
    ghost var front := Pad(indent) + ArrayFront();
    var parts := [Pad(indent) + ArrayFront()];
    ItemsToCome(front, items, indent + 2);
    for i := 0 to |items|
      invariant JoinsWithItems(parts, front, items, i, indent + 2)
    {
      var item := ValueToXml(items[i], indent + 2);
      NextItem(JoinLines(parts), items, i, indent + 2);
      JoinPushed(parts, indent + 2, Body(items[i], indent + 2));
      parts := parts + [item];
    }
    JoinPushed(parts, indent, ArrayBack());
    assert JoinLines(parts) + "" == JoinLines(parts);
    Enclosed(Pad(indent), ArrayFront(), PrintItems(items, indent + 2), Line(indent),
             Closing("data"), Closing("array"), Closing("value"));
    parts := parts + [Pad(indent) + ArrayBack()];
    xml := JoinLines(parts);
  }

  lemma ItemsToCome(front: string, items: seq<Value>, indent: nat)
    ensures JoinsWithItems([front], front, items, 0, indent)
  {
    assert items[0..] == items;
  }

  lemma Enclosed(pad: string, front: string, items: string, line: string, a: string, b: string, c: string)
    ensures pad + front + items + line + (a + b + c) == pad + (front + items + line + a + b + c)
  {
  }

  function StructFront(): string { Opening("value") + Opening("struct") }

  function StructBack(): string { Closing("struct") + Closing("value") }

  ghost predicate JoinsWithMembers(parts: seq<string>, front: string, members: seq<Member>, i: nat, indent: nat) {
    parts != [] && i <= |members| &&
    JoinLines(parts) + PrintMembers(members[i..], indent) == front + PrintMembers(members, indent)
  }

  method StructToXml(members: seq<Member>, indent: nat) returns (xml: string)
    ensures xml == Print(Struct(members), indent)
    decreases members
  {
    ghost var front := Pad(indent) + StructFront();
    var parts := [Pad(indent) + StructFront()];
    MembersToCome(front, members, indent);
    for i := 0 to |members|
      invariant JoinsWithMembers(parts, front, members, i, indent)
    {
      var value := ValueToXml(members[i].value, indent + 4);
      NextMember(JoinLines(parts), members, i, indent);
      parts := PushMember(parts, members[i], value, indent);
    }
    JoinPushed(parts, indent, StructBack());
    assert JoinLines(parts) + "" == JoinLines(parts);
    EnclosedInTwo(Pad(indent), StructFront(), PrintMembers(members, indent), Line(indent),
                  Closing("struct"), Closing("value"));
    parts := parts + [Pad(indent) + StructBack()];
    xml := JoinLines(parts);
  }

  lemma MembersToCome(front: string, members: seq<Member>, indent: nat)
    ensures JoinsWithMembers([front], front, members, 0, indent)
  {
    assert members[0..] == members;
  }

  /** The three lines of a member. */
  method PushMember(parts: seq<string>, m: Member, value: string, indent: nat) returns (after: seq<string>)
    requires parts != [] && value == Print(m.value, indent + 4)
    ensures after != []
    ensures JoinLines(after)
            == JoinLines(parts) + Line(indent + 2) + (Opening("member") + Element("name", EscapeXml(m.name)))
               + Line(indent + 4) + Body(m.value, indent + 4) + Line(indent) + Closing("member")
  {
    var name := Opening("member") + Element("name", EscapeXml(m.name));
    JoinPushed(parts, indent + 2, name);
    after := parts + [Pad(indent + 2) + name];
    JoinPushed(after, indent + 4, Body(m.value, indent + 4));
    after := after + [value];
    JoinPushed(after, indent, Closing("member"));
    after := after + [Pad(indent) + Closing("member")];
  }

  lemma EnclosedInTwo(pad: string, front: string, members: string, line: string, a: string, b: string)
    ensures pad + front + members + line + (a + b) == pad + (front + members + line + a + b)
  {
  }

  method RequestToXml(call: MethodCall) returns (xml: string)
    ensures xml == PrintCall(call)
  {
    var parts := [Opening(DECLARATION)];
    JoinPushed(parts, 0, Opening("methodCall"));
    parts := parts + [Pad(0) + Opening("methodCall")];
    JoinPushed(parts, 2, Element("methodName", call.name));
    parts := parts + [Pad(2) + Element("methodName", call.name)];
    JoinPushed(parts, 2, Opening("params"));
    parts := parts + [Pad(2) + Opening("params")];
    ghost var front := JoinLines(parts);
    for i := 0 to |call.params|
      invariant parts != []
      invariant JoinLines(parts) + PrintParams(call.params[i..]) == front + PrintParams(call.params)
    {
      var value := ValueToXml(call.params[i], 0);
      NextParam(JoinLines(parts), call.params, i);
      assert value == Body(call.params[i], 0);
      JoinPushed(parts, 4, Opening("param") + Body(call.params[i], 0) + Closing("param"));
      parts := parts + [Pad(4) + (Opening("param") + value + Closing("param"))];
    }
    assert JoinLines(parts) + "" == JoinLines(parts);
    JoinPushed(parts, 2, Closing("params"));
    parts := parts + [Pad(2) + Closing("params")];
    JoinPushed(parts, 0, Closing("methodCall"));
    parts := parts + [Pad(0) + Closing("methodCall")];
    xml := JoinLines(parts);
  }

  // ---------- parsing ----------

  /** The reader's position is the list of events still to come. */
  class Reader {
    var events: seq<Event>

    constructor (document: string)
      ensures events == Lex(document)
    {
      events := Lex(document);
    }

    /** `read_text`: the raw text up to the end tag `name`. */
    method ReadText(name: string) returns (r: Option<string>)
      modifies this
      ensures match XmlEvents.ReadText(old(events), name, [])
              case Some((text, rest)) => r == Some(text) && events == rest
              case None => r == None && events == old(events)
    {
      match XmlEvents.ReadText(events, name, [])
      case Some((text, rest)) => r := Some(text); events := rest;
      case None => r := None;
    }
  }

  /** A result, and the events it leaves unless it is an error. */
  ghost predicate Yields<T>(p: Parsed<T>, r: Result<T, XmlError>, left: seq<Event>) {
    match p
    case Ok((v, rest)) => r == Ok(v) && left == rest
    case Err(e) => r == Err(e)
  }

  method ParseXmlValue(reader: Reader) returns (r: Result<Option<Value>, XmlError>)
    modifies reader
    ensures Yields(ParseValue(old(reader.events), ""), r, reader.events)
    decreases |reader.events|, 1
  {
    var implicit := "";
    while reader.events != [] && !reader.events[0].Garbled?
      invariant |reader.events| <= |old(reader.events)|
      invariant ParseValue(old(reader.events), "") == ParseValue(reader.events, implicit)
      decreases |reader.events|
    {
      var event := reader.events[0];
      reader.events := reader.events[1..];
      match event
      case Start(tag) =>
        var element := ParseXmlElement(reader, tag);
        match element {
          case Err(e) => return Err(e);
          case Ok(Some(v)) =>
            var end := reader.ReadText("value");
            return if end.Some? then Ok(Some(v)) else Err(ParseError);
          case Ok(None) =>
        }
      case EmptyTag(tag) =>
        var v := EmptyScalar(tag);
        if v.Some? {
          var end := reader.ReadText("value");
          return if end.Some? then Ok(v) else Err(ParseError);
        }
      case Chars(raw) =>
        match Unescape(raw) {
          case Some(text) => implicit := implicit + text;
          case None => return Err(ParseError);
        }
      case CData(text) => implicit := implicit + text;
      case End(name) =>
        if name == "value" { return Ok(if implicit == "" then None else Some(String(implicit))); }
      case _ =>
    }
    return Err(ParseError);
  }

  method ParseXmlElement(reader: Reader, tag: string) returns (r: Result<Option<Value>, XmlError>)
    modifies reader
    ensures Yields(ParseElement(old(reader.events), tag), r, reader.events)
    decreases |reader.events|, 2
  {
    if tag == "array" {
      var a := ParseXmlArray(reader);
      match a { case Ok(v) => r := Ok(Some(v)); case Err(e) => r := Err(e); }
    } else if tag == "struct" {
      var s := ParseXmlStruct(reader);
      match s { case Ok(v) => r := Ok(Some(v)); case Err(e) => r := Err(e); }
    } else {
      var text := reader.ReadText(tag);
      match text {
        case Some(t) => r := Ok(if tag == "nil" then Some(Nil) else Scalar(tag, t));
        case None => r := Err(ParseError);
      }
    }
  }

  method ParseXmlArray(reader: Reader) returns (r: Result<Value, XmlError>)
    modifies reader
    ensures Yields(ParseArray(old(reader.events), []), r, reader.events)
    decreases |reader.events|, 0
  {
    var values := [];
    while reader.events != [] && !reader.events[0].Garbled?
      invariant |reader.events| <= |old(reader.events)|
      invariant ParseArray(old(reader.events), []) == ParseArray(reader.events, values)
      decreases |reader.events|
    {
      var event := reader.events[0];
      reader.events := reader.events[1..];
      if event == Start("value") {
        var v := ParseXmlValue(reader);
        match v {
          case Ok(v) => values := values + Kept(v);
          case Err(e) => return Err(e);
        }
      } else if event == End("array") {
        return Ok(Array(values));
      }
    }
    return Err(ParseError);
  }

  method ParseXmlMember(reader: Reader) returns (r: Result<(Option<string>, Option<Value>), XmlError>)
    modifies reader
    ensures Yields(ParseMember(old(reader.events), None, None), r, reader.events)
    decreases |reader.events|, 0
  {
    var name, value := None, None;
    while reader.events != [] && !reader.events[0].Garbled?
      invariant |reader.events| <= |old(reader.events)|
      invariant ParseMember(old(reader.events), None, None) == ParseMember(reader.events, name, value)
      decreases |reader.events|
    {
      var event := reader.events[0];
      reader.events := reader.events[1..];
      if event == Start("value") {
        var v := ParseXmlValue(reader);
        match v {
          case Ok(v) => value := v;
          case Err(e) => return Err(e);
        }
      } else if event.Start? {
        var text := reader.ReadText(event.name);
        match text {
          case Some(t) => if event.name == "name" { name := Some(t); }
          case None => return Err(ParseError);
        }
      } else if event == End("member") {
        return Ok((name, value));
      }
    }
    return Err(ParseError);
  }

  method ParseXmlStruct(reader: Reader) returns (r: Result<Value, XmlError>)
    modifies reader
    ensures Yields(ParseStruct(old(reader.events), []), r, reader.events)
    decreases |reader.events|, 1
  {
    var members := [];
    while reader.events != [] && !reader.events[0].Garbled?
      invariant |reader.events| <= |old(reader.events)|
      invariant ParseStruct(old(reader.events), []) == ParseStruct(reader.events, members)
      decreases |reader.events|
    {
      var event := reader.events[0];
      reader.events := reader.events[1..];
      if event == Start("member") {
        var m := ParseXmlMember(reader);
        match m {
          case Ok(m) => members := members + Completed(m);
          case Err(e) => return Err(e);
        }
      } else if event == End("struct") {
        return Ok(Struct(members));
      }
    }
    return Err(ParseError);
  }

  method ParseXmlParam(reader: Reader) returns (r: Result<Option<Value>, XmlError>)
    modifies reader
    ensures Yields(ParseParam(old(reader.events)), r, reader.events)
  {
    while reader.events != [] && !reader.events[0].Garbled?
      invariant ParseParam(old(reader.events)) == ParseParam(reader.events)
      decreases |reader.events|
    {
      var event := reader.events[0];
      reader.events := reader.events[1..];
      if event == Start("value") {
        var v := ParseXmlValue(reader);
        match v {
          case Ok(v) =>
            var end := reader.ReadText("param");
            return if end.Some? then Ok(v) else Err(ParseError);
          case Err(e) => return Err(e);
        }
      } else if event == End("param") {
        return Ok(None);
      }
    }
    return Err(ParseError);
  }

  method ParseXmlRequest(document: string) returns (r: Result<MethodCall, XmlError>)
    ensures r == ParseRequest(document)
  {
    var reader := new Reader(document);
    var name, params := None, [];
    while reader.events != []
      invariant ParseCall(Lex(document), None, []) == ParseCall(reader.events, name, params)
      decreases |reader.events|
    {
      var event := reader.events[0];
      reader.events := reader.events[1..];
      if event.Garbled? { return Err(ParseError); }
      if event == Start("methodName") {
        var text := reader.ReadText("methodName");
        match text {
          case Some(t) => name := Some(t);
          case None => return Err(ParseError);
        }
      } else if event == Start("param") {
        var v := ParseXmlParam(reader);
        match v {
          case Ok(v) => params := params + Kept(v);
          case Err(e) => return Err(e);
        }
      }
    }
    return if name.Some? && name.value != "" then Ok(MethodCall(name.value, params)) else Err(MethodNameRequired);
  }
}
