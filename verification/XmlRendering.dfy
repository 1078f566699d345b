/**
  The printed form of a request as events, and how an XML reader gets them back. The events of
  a value are defined by recursion on the value, like its text; it is then shown that the text
  is the rendering of the events and that the events are tidy, so that lexing the text yields
  the events. That holds of every request, whatever markup its unescaped texts contain, as the
  printer puts an end tag behind each of them.
 */
module XmlRendering {
  import opened Collections
  import opened Numerals
  import opened XmlEscape
  import opened XmlEvents
  import opened XmlRpc
  import opened XmlText
  import B64 = Base64

  // ---------- the events of the printer ----------

  function Break(indent: nat): Event { Chars(Line(indent)) }

  /** The events of a printed value. */
  function ValueEvents(v: Value, indent: nat): seq<Event>
    decreases v
  {
    match v
    case Array(items) =>
      [Start("value")] + [Start("array")] + [Start("data")] + ItemEvents(items, indent + 2)
      + [Break(indent)] + [End("data")] + [End("array")] + [End("value")]
    case Struct(members) =>
      [Start("value")] + [Start("struct")] + MemberEvents(members, indent)
      + [Break(indent)] + [End("struct")] + [End("value")]
    case Nil => [Start("value")] + [EmptyTag("nil")] + [End("value")]
    case _ => [Start("value")] + ElementEvents(ScalarTag(v), ScalarText(v)) + [End("value")]
  }

  function ItemEvents(items: seq<Value>, indent: nat): seq<Event>
    decreases items
  {
    if items == [] then [] else [Break(indent)] + ValueEvents(items[0], indent) + ItemEvents(items[1..], indent)
  }

  function MemberEvents(members: seq<Member>, indent: nat): seq<Event>
    decreases members
  {
    if members == [] then []
    else [Break(indent + 2)] + [Start("member")] + ElementEvents("name", EscapeXml(members[0].name))
         + [Break(indent + 4)] + ValueEvents(members[0].value, indent + 4)
         + [Break(indent)] + [End("member")] + MemberEvents(members[1..], indent)
  }

  function ParamEvents(params: seq<Value>): seq<Event> {
    if params == [] then []
    else [Break(4)] + [Start("param")] + ValueEvents(params[0], 0) + [End("param")] + ParamEvents(params[1..])
  }

  const DECLARATION := "?xml version=\"1.0\"?"

  /** The events of a request whose name element has the given events. */
  function CallAround(element: seq<Event>, params: seq<Value>): seq<Event> {
    [Other(DECLARATION)] + [Break(0)] + [Start("methodCall")] + [Break(2)]
    + element + [Break(2)] + [Start("params")]
    + ParamEvents(params) + [Break(2)] + [End("params")] + [Break(0)] + [End("methodCall")]
  }

  function CallEvents(call: MethodCall): seq<Event> {
    CallAround(ElementEvents("methodName", call.name), call.params)
  }

  // ---------- text that may be printed unescaped ----------

  /** The markup in text that is printed unescaped is complete; text without `<` has none. */
  predicate Printable(v: Value)
    decreases v
  {
    match v
    case Double(text) => WellNested(text)
    case DateTime(text) => WellNested(text)
    case Array(items) => forall i | 0 <= i < |items| :: Printable(items[i])
    case Struct(members) => forall i | 0 <= i < |members| :: Printable(members[i].value)
    case _ => true
  }

  predicate AllPrintable(items: seq<Value>) { forall i | 0 <= i < |items| :: Printable(items[i]) }

  predicate MembersPrintable(members: seq<Member>) { forall i | 0 <= i < |members| :: Printable(members[i].value) }

  predicate PrintableCall(call: MethodCall) { WellNested(call.name) && AllPrintable(call.params) }

  lemma ValueTagsAreReadable()
    ensures Usable("value") && Usable("array") && Usable("data") && Readable(EmptyTag("nil"))
  {
    TagNameIsReadable("value");
    TagNameIsReadable("array");
    TagNameIsReadable("data");
    TagNameIsReadable("nil");
  }

  lemma TagsAreReadable()
    ensures Usable("value") && Usable("array") && Usable("data")
    ensures Usable("struct") && Usable("member") && Usable("name")
    ensures Readable(EmptyTag("nil"))
  {
    ValueTagsAreReadable();
    TagNameIsReadable("struct");
    TagNameIsReadable("member");
    TagNameIsReadable("name");
  }

  lemma DeclarationIsReadable()
    ensures Readable(Other(DECLARATION))
  {
    assert DECLARATION[0] == '?';
  }

  lemma CallTagsAreReadable()
    ensures Usable("methodCall") && Usable("methodName") && Usable("params") && Usable("param")
    ensures Readable(Other(DECLARATION))
  {
    DeclarationIsReadable();
    TagNameIsReadable("methodCall");
    TagNameIsReadable("methodName");
    TagNameIsReadable("params");
    TagNameIsReadable("param");
  }

  lemma NoMarkupInEscaped(s: string)
    ensures '<' !in EscapeXml(s)
  {
    EscapedHasNoMarkup(s);
  }

  lemma NoMarkupInNumeral(n: int)
    ensures '<' !in Signed(n)
  {
    var magnitude := if n < 0 then -n else n;
    assert forall i | 0 <= i < |Decimal(magnitude)| :: IsDigit(Decimal(magnitude)[i]);
  }

  lemma NoMarkupInEncoding(data: seq<byte>)
    ensures '<' !in B64.Encode(data)
  {
    B64.EncodingIsInAlphabet(data);
  }

  lemma NoMarkupInScalar(v: Value)
    requires IsScalar(v) && !v.Nil? && !v.DateTime? && !v.Double?
    ensures '<' !in ScalarText(v)
  {
    match v
    case Int(n) => NoMarkupInNumeral(n);
    case String(s) => NoMarkupInEscaped(s);
    case Base64(data) => NoMarkupInEncoding(data);
    case _ =>
  }

  lemma ScalarTagIsReadable(v: Value)
    requires IsScalar(v) && !v.Nil?
    ensures IsTagName(ScalarTag(v))
  {
  }

  lemma ScalarIsWellNested(v: Value)
    requires IsScalar(v) && !v.Nil? && Printable(v)
    ensures WellNested(ScalarText(v))
  {
    if !v.DateTime? && !v.Double? {
      NoMarkupInScalar(v);
      PlainTextIsWellNested(ScalarText(v));
    }
  }

  lemma NameIsWellNested(name: string)
    ensures WellNested(EscapeXml(name))
  {
    NoMarkupInEscaped(name);
    PlainTextIsWellNested(EscapeXml(name));
  }

  // ---------- the printed text is the rendering of its events ----------

  /** Appending an event appends its text. */
  lemma RenderSnoc(es: seq<Event>, e: Event)
    ensures Render(es + [e]) == Render(es) + Raw(e)
  {
    RenderAppend(es, [e]);
    RenderOne(e);
  }

  lemma {:induction false} RenderValue(v: Value, indent: nat)
    ensures Render(ValueEvents(v, indent)) == Body(v, indent)
    decreases v, 0
  {
    RenderOne(Start("value"));
    match v
    case Array(items) =>
      RenderItems(items, indent + 2);
      RenderArrayFront(ItemEvents(items, indent + 2));
      RenderArrayBack([Start("value")] + [Start("array")] + [Start("data")] + ItemEvents(items, indent + 2), indent);
    case Struct(members) =>
      RenderMembers(members, indent);
      RenderStructFront(MemberEvents(members, indent));
      RenderStructBack([Start("value")] + [Start("struct")] + MemberEvents(members, indent), indent);
    case Nil =>
      RenderSnoc([Start("value")], EmptyTag("nil"));
      RenderSnoc([Start("value")] + [EmptyTag("nil")], End("value"));
    case _ =>
      var element := ElementEvents(ScalarTag(v), ScalarText(v));
      ScalarTagIsReadable(v);
      ElementIsClosed(ScalarTag(v), ScalarText(v));
      RenderAppend([Start("value")], element);
      RenderSnoc([Start("value")] + element, End("value"));
  }

  lemma RenderArrayFront(inner: seq<Event>)
    ensures Render([Start("value")] + [Start("array")] + [Start("data")] + inner)
            == Opening("value") + Opening("array") + Opening("data") + Render(inner)
  {
    RenderOne(Start("value"));
    RenderSnoc([Start("value")], Start("array"));
    RenderSnoc([Start("value")] + [Start("array")], Start("data"));
    RenderAppend([Start("value")] + [Start("array")] + [Start("data")], inner);
  }

  lemma RenderArrayBack(front: seq<Event>, indent: nat)
    ensures Render(front + [Break(indent)] + [End("data")] + [End("array")] + [End("value")])
            == Render(front) + Line(indent) + Closing("data") + Closing("array") + Closing("value")
  {
    RenderSnoc(front, Break(indent));
    RenderSnoc(front + [Break(indent)], End("data"));
    RenderSnoc(front + [Break(indent)] + [End("data")], End("array"));
    RenderSnoc(front + [Break(indent)] + [End("data")] + [End("array")], End("value"));
  }

  lemma RenderStructFront(inner: seq<Event>)
    ensures Render([Start("value")] + [Start("struct")] + inner) == Opening("value") + Opening("struct") + Render(inner)
  {
    RenderOne(Start("value"));
    RenderSnoc([Start("value")], Start("struct"));
    RenderAppend([Start("value")] + [Start("struct")], inner);
  }

  lemma RenderStructBack(front: seq<Event>, indent: nat)
    ensures Render(front + [Break(indent)] + [End("struct")] + [End("value")])
            == Render(front) + Line(indent) + Closing("struct") + Closing("value")
  {
    RenderSnoc(front, Break(indent));
    RenderSnoc(front + [Break(indent)], End("struct"));
    RenderSnoc(front + [Break(indent)] + [End("struct")], End("value"));
  }

  lemma {:induction false} RenderItems(items: seq<Value>, indent: nat)
    ensures Render(ItemEvents(items, indent)) == PrintItems(items, indent)
    decreases items, 1
  {
    if items == [] {
    } else {
      RenderValue(items[0], indent);
      RenderItems(items[1..], indent);
      var front, value := [Break(indent)], ValueEvents(items[0], indent);
      RenderOne(Break(indent));
      RenderAppend(front, value);
      RenderAppend(front + value, ItemEvents(items[1..], indent));
    }
  }

  lemma {:induction false} RenderMembers(members: seq<Member>, indent: nat)
    ensures Render(MemberEvents(members, indent)) == PrintMembers(members, indent)
    decreases members, 1
  {
    if members == [] {
    } else {
      var name := EscapeXml(members[0].name);
      var element, value := ElementEvents("name", name), ValueEvents(members[0].value, indent + 4);
      TagsAreReadable();
      ElementIsClosed("name", name);
      RenderValue(members[0].value, indent + 4);
      RenderMembers(members[1..], indent);
      var front := [Break(indent + 2)];
      RenderOne(Break(indent + 2));
      RenderSnoc(front, Start("member"));
      front := front + [Start("member")];
      RenderAppend(front, element);
      front := front + element;
      RenderSnoc(front, Break(indent + 4));
      front := front + [Break(indent + 4)];
      RenderAppend(front, value);
      front := front + value;
      RenderSnoc(front, Break(indent));
      front := front + [Break(indent)];
      RenderSnoc(front, End("member"));
      RenderAppend(front + [End("member")], MemberEvents(members[1..], indent));
    }
  }

  lemma {:induction false} RenderParams(params: seq<Value>)
    ensures Render(ParamEvents(params)) == PrintParams(params)
  {
    if params == [] {
    } else {
      RenderValue(params[0], 0);
      RenderParams(params[1..]);
      var front, value := [Break(4)], ValueEvents(params[0], 0);
      RenderOne(Break(4));
      RenderSnoc(front, Start("param"));
      front := front + [Start("param")];
      RenderAppend(front, value);
      front := front + value;
      RenderSnoc(front, End("param"));
      RenderAppend(front + [End("param")], ParamEvents(params[1..]));
    }
  }

  lemma RenderCallHead()
    ensures Render([Other(DECLARATION)] + [Break(0)] + [Start("methodCall")] + [Break(2)])
            == Opening(DECLARATION) + Line(0) + Opening("methodCall") + Line(2)
  {
    RenderOne(Other(DECLARATION));
    RenderSnoc([Other(DECLARATION)], Break(0));
    RenderSnoc([Other(DECLARATION)] + [Break(0)], Start("methodCall"));
    RenderSnoc([Other(DECLARATION)] + [Break(0)] + [Start("methodCall")], Break(2));
  }

  lemma RenderCallEnd(front: seq<Event>)
    ensures Render(front + [Break(2)] + [End("params")] + [Break(0)] + [End("methodCall")])
            == Render(front) + Line(2) + Closing("params") + Line(0) + Closing("methodCall")
  {
    RenderSnoc(front, Break(2));
    RenderSnoc(front + [Break(2)], End("params"));
    RenderSnoc(front + [Break(2)] + [End("params")], Break(0));
    RenderSnoc(front + [Break(2)] + [End("params")] + [Break(0)], End("methodCall"));
  }

  lemma RenderCallBody(head: seq<Event>, call: MethodCall, element: seq<Event>)
    requires Render(element) == Element("methodName", call.name)
    ensures Render(head + element + [Break(2)] + [Start("params")]
                   + ParamEvents(call.params) + [Break(2)] + [End("params")] + [Break(0)] + [End("methodCall")])
            == Render(head) + Element("methodName", call.name) + Line(2) + Opening("params")
               + PrintParams(call.params) + Line(2) + Closing("params") + Line(0) + Closing("methodCall")
  {
    RenderAppend(head, element);
    RenderSnoc(head + element, Break(2));
    RenderSnoc(head + element + [Break(2)], Start("params"));
    RenderParams(call.params);
    RenderAppend(head + element + [Break(2)] + [Start("params")], ParamEvents(call.params));
    RenderCallEnd(head + element + [Break(2)] + [Start("params")] + ParamEvents(call.params));
  }

  // ---------- the events of a printed request can be told apart ----------

  lemma {:induction false} ValueIsClosed(v: Value, indent: nat)
    ensures Closed(ValueEvents(v, indent))
    ensures ValueEvents(v, indent) != [] && ValueEvents(v, indent)[0] == Start("value")
    decreases v, 0
  {
    TagsAreReadable();
    OneTag(Start("value"));
    match v
    case Array(items) => ArrayIsClosed(items, indent);
    case Struct(members) => StructIsClosed(members, indent);
    case Nil =>
      TidyAdd([Start("value")], EmptyTag("nil"));
      TidyAdd([Start("value")] + [EmptyTag("nil")], End("value"));
    case _ =>
      var element := ElementEvents(ScalarTag(v), ScalarText(v));
      ScalarTagIsReadable(v);
      ElementIsClosed(ScalarTag(v), ScalarText(v));
      TidyJoin([Start("value")], element);
      TidyAdd([Start("value")] + element, End("value"));
  }

  lemma {:induction false} ArrayIsClosed(items: seq<Value>, indent: nat)
    ensures Closed(ValueEvents(Array(items), indent)) && ValueEvents(Array(items), indent)[0] == Start("value")
    decreases items, 2
  {
    TagsAreReadable();
    OneTag(Start("value"));
    var front := [Start("value")];
    TidyAdd(front, Start("array"));
    front := front + [Start("array")];
    TidyAdd(front, Start("data"));
    front := front + [Start("data")];
    ItemsAreClosed(items, indent + 2);
    TidyJoin(front, ItemEvents(items, indent + 2));
    front := front + ItemEvents(items, indent + 2);
    OneBreak(indent);
    TidyAdd(front, Break(indent));
    front := front + [Break(indent)];
    TidyAdd(front, End("data"));
    front := front + [End("data")];
    TidyAdd(front, End("array"));
    TidyAdd(front + [End("array")], End("value"));
  }

  lemma {:induction false} StructIsClosed(members: seq<Member>, indent: nat)
    ensures Closed(ValueEvents(Struct(members), indent)) && ValueEvents(Struct(members), indent)[0] == Start("value")
    decreases members, 2
  {
    TagsAreReadable();
    OneTag(Start("value"));
    var front := [Start("value")];
    TidyAdd(front, Start("struct"));
    front := front + [Start("struct")];
    MembersAreClosed(members, indent);
    TidyJoin(front, MemberEvents(members, indent));
    front := front + MemberEvents(members, indent);
    OneBreak(indent);
    TidyAdd(front, Break(indent));
    front := front + [Break(indent)];
    TidyAdd(front, End("struct"));
    TidyAdd(front + [End("struct")], End("value"));
  }

  lemma {:induction false} ItemsAreClosed(items: seq<Value>, indent: nat)
    ensures Closed(ItemEvents(items, indent))
    decreases items, 1
  {
    if items == [] {
    } else {
      var value := ValueEvents(items[0], indent);
      ValueIsClosed(items[0], indent);
      ItemsAreClosed(items[1..], indent);
      OneBreak(indent);
      TidyJoin([Break(indent)], value);
      TidyJoin([Break(indent)] + value, ItemEvents(items[1..], indent));
    }
  }

  lemma OneBreak(indent: nat)
    ensures Tidy([Break(indent)]) && Readable(Break(indent))
  {
    NoMarkupInLine(indent);
    assert TidyAt([Break(indent)], 0) ==> Tidy([Break(indent)]);
  }

  lemma NoMarkupInLine(indent: nat)
    ensures '<' !in Line(indent)
  {
    if indent > 0 { NoMarkupInLine(indent - 1); }
  }

  lemma {:induction false} MembersAreClosed(members: seq<Member>, indent: nat)
    ensures Closed(MemberEvents(members, indent))
    decreases members, 1
  {
    if members == [] {
    } else {
      TagsAreReadable();
      var name := EscapeXml(members[0].name);
      var element, value := ElementEvents("name", name), ValueEvents(members[0].value, indent + 4);
      ElementIsClosed("name", name);
      ValueIsClosed(members[0].value, indent + 4);
      MembersAreClosed(members[1..], indent);
      OneBreak(indent + 2);
      var front := [Break(indent + 2)];
      TidyAdd(front, Start("member"));
      front := front + [Start("member")];
      TidyJoin(front, element);
      front := front + element;
      OneBreak(indent + 4);
      TidyAdd(front, Break(indent + 4));
      front := front + [Break(indent + 4)];
      TidyJoin(front, value);
      front := front + value;
      OneBreak(indent);
      TidyAdd(front, Break(indent));
      front := front + [Break(indent)];
      TidyAdd(front, End("member"));
      TidyJoin(front + [End("member")], MemberEvents(members[1..], indent));
    }
  }

  lemma {:induction false} ParamsAreClosed(params: seq<Value>)
    ensures Closed(ParamEvents(params))
  {
    if params == [] {
    } else {
      CallTagsAreReadable();
      var value := ValueEvents(params[0], 0);
      ValueIsClosed(params[0], 0);
      ParamsAreClosed(params[1..]);
      OneBreak(4);
      var front := [Break(4)];
      TidyAdd(front, Start("param"));
      front := front + [Start("param")];
      TidyJoin(front, value);
      front := front + value;
      TidyAdd(front, End("param"));
      TidyJoin(front + [End("param")], ParamEvents(params[1..]));
    }
  }

  lemma CallIsClosed(element: seq<Event>, params: seq<Value>)
    requires Closed(element) && element != [] && !element[0].Chars?
    ensures Closed(CallAround(element, params))
  {
    CallTagsAreReadable();
    OneBreak(0);
    OneBreak(2);
    OneTag(Other(DECLARATION));
    var front := [Other(DECLARATION)];
    TidyAdd(front, Break(0));
    front := front + [Break(0)];
    TidyAdd(front, Start("methodCall"));
    front := front + [Start("methodCall")];
    TidyAdd(front, Break(2));
    front := front + [Break(2)];
    TidyJoin(front, element);
    front := front + element;
    TidyAdd(front, Break(2));
    front := front + [Break(2)];
    TidyAdd(front, Start("params"));
    front := front + [Start("params")];
    ParamsAreClosed(params);
    TidyJoin(front, ParamEvents(params));
    front := front + ParamEvents(params);
    TidyAdd(front, Break(2));
    front := front + [Break(2)];
    TidyAdd(front, End("params"));
    front := front + [End("params")];
    TidyAdd(front, Break(0));
    TidyAdd(front + [Break(0)], End("methodCall"));
  }

  /** A reader gets back exactly the events the printer had in mind. */
  lemma PrintedCallIsRead(call: MethodCall)
    ensures Lex(PrintCall(call)) == CallEvents(call)
  {
    CallTagsAreReadable();
    ElementIsClosed("methodName", call.name);
    var element := ElementEvents("methodName", call.name);
    CallIsClosed(element, call.params);
    RenderCallHead();
    RenderCallBody([Other(DECLARATION)] + [Break(0)] + [Start("methodCall")] + [Break(2)], call, element);
    LexInvertsRender(CallEvents(call), "");
    assert PrintCall(call) + "" == PrintCall(call);
    assert CallEvents(call) + [] == CallEvents(call);
  }
}
