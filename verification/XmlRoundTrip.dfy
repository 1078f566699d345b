/**
  What a printed XML-RPC request is parsed back to, and when that is the request itself. Text is
  read back raw, so escaped characters stay escaped; integers outside 32 bits and members without
  a name are lost. The proofs follow the printer: each kind of value leaves the reader right
  behind its own events, so that what comes next is read as if it stood alone.
 */
module XmlRoundTrip {
  import opened Wrappers
  import opened Collections
  import opened Numerals
  import opened JsonValue
  import opened Strings
  import opened XmlEscape
  import opened XmlEvents
  import opened XmlRpc
  import opened XmlOrigin
  import opened XmlRendering
  import opened XmlText
  import B64 = Base64

  /** The value a printed value is parsed to, if any. */
  function Norm(v: Value): Option<Value>
    decreases v
  {
    match v
    case Int(n) => if -0x8000_0000 <= n <= 0x7FFF_FFFF then Some(v) else None
    case String(s) => Some(String(EscapeXml(s)))
    case Double(text) => Some(String(text))
    case Array(items) => Some(Array(NormAll(items)))
    case Struct(members) => Some(Struct(NormMembers(members)))
    case _ => Some(v)
  }

  function NormAll(items: seq<Value>): (r: seq<Value>)
    ensures |r| <= |items|
    decreases items
  {
    if items == [] then [] else Kept(Norm(items[0])) + NormAll(items[1..])
  }

  function NormMembers(members: seq<Member>): (r: seq<Member>)
    ensures |r| <= |members|
    decreases members
  {
    if members == [] then []
    else Completed((Some(EscapeXml(members[0].name)), Norm(members[0].value))) + NormMembers(members[1..])
  }

  // ---------- scalars ----------

  lemma NoWhitespaceInNumeral(n: int)
    ensures IsTrimmed(Signed(n))
  {
    var magnitude := if n < 0 then -n else n;
    assert forall i | 0 <= i < |Decimal(magnitude)| :: IsDigit(Decimal(magnitude)[i]);
  }

  lemma IntIsRead(n: i64)
    ensures Scalar("int", Signed(n)) == Norm(Int(n))
  {
    NoWhitespaceInNumeral(n);
    SignedRoundTrip(n, -0x8000_0000, 0x7FFF_FFFF);
  }

  lemma BooleanIsRead(b: bool)
    ensures Scalar("boolean", if b then "true" else "false") == Some(Boolean(b))
  {
    if b { TrueIsRead(); } else { FalseIsRead(); }
  }

  lemma TrueIsRead()
    ensures Scalar("boolean", "true") == Some(Boolean(true))
  {
  }

  lemma FalseIsRead()
    ensures Scalar("boolean", "false") == Some(Boolean(false))
  {
    assert "false"[0] == 'f';
  }

  lemma BinaryIsDecoded(text: string)
    ensures Scalar("base64", text) == Some(Base64(B64.DecodeAria2(text)))
  {
  }

  lemma Base64IsRead(data: seq<byte>)
    ensures Scalar("base64", B64.Encode(data)) == Some(Base64(data))
  {
    BinaryIsDecoded(B64.Encode(data));
    B64.EncodedRoundTrip(data);
  }

  lemma StringIsRead(text: string)
    ensures Scalar("string", text) == Some(String(text))
  {
  }

  lemma DoubleIsRead(text: string)
    ensures Scalar("double", text) == Some(String(text))
  {
  }

  lemma DateTimeIsRead(text: string)
    ensures Scalar("dateTime.iso8601", text) == Some(DateTime(text))
  {
  }

  lemma ScalarIsRead(v: Value)
    requires IsScalar(v) && !v.Nil?
    ensures Scalar(ScalarTag(v), ScalarText(v)) == Norm(v)
  {
    match v
    case Int(n) => IntIsRead(n);
    case Boolean(b) => BooleanIsRead(b);
    case String(s) => StringIsRead(EscapeXml(s));
    case Double(text) => DoubleIsRead(text);
    case DateTime(text) => DateTimeIsRead(text);
    case Base64(data) => Base64IsRead(data);
  }

  // ---------- single steps of the parser ----------

  lemma CloseAtOnce<T>(v: T, name: string, rest: seq<Event>)
    ensures Close(v, [End(name)] + rest, name) == Ok((v, rest))
  {
    Uncons(End(name), rest);
  }

  lemma ArraySkips(e: Event, es: seq<Event>, values: seq<Value>)
    requires !e.Garbled? && e != Start("value") && e != End("array")
    ensures ParseArray([e] + es, values) == ParseArray(es, values)
  {
    Uncons(e, es);
  }

  lemma StructSkips(e: Event, es: seq<Event>, members: seq<Member>)
    requires !e.Garbled? && e != Start("member") && e != End("struct")
    ensures ParseStruct([e] + es, members) == ParseStruct(es, members)
  {
    Uncons(e, es);
  }

  lemma MemberSkips(e: Event, es: seq<Event>, name: Option<string>, value: Option<Value>)
    requires !e.Garbled? && !e.Start? && e != End("member")
    ensures ParseMember([e] + es, name, value) == ParseMember(es, name, value)
  {
    Uncons(e, es);
  }

  lemma MemberTakesName(text: string, es: seq<Event>, name: Option<string>, value: Option<Value>)
    requires WellNested(text)
    ensures ParseMember(ElementEvents("name", text) + es, name, value) == ParseMember(es, Some(text), value)
  {
    ElementIsRead("name", text, es);
  }

  lemma CallSkips(e: Event, es: seq<Event>, name: Option<string>, params: seq<Value>)
    requires !e.Garbled? && e != Start("methodName") && e != Start("param")
    ensures ParseCall([e] + es, name, params) == ParseCall(es, name, params)
  {
    Uncons(e, es);
  }

  // ---------- values ----------

  lemma ValueOpens(v: Value, indent: nat, rest: seq<Event>)
    ensures ValueEvents(v, indent) != [] && (ValueEvents(v, indent) + rest)[0] == Start("value")
  {
  }

  lemma {:induction false} ValueIsRead(v: Value, indent: nat, rest: seq<Event>)
    requires Printable(v)
    ensures ParseValue((ValueEvents(v, indent) + rest)[1..], "") == Ok((Norm(v), rest))
    decreases v, 0
  {
    match v
    case Array(items) => ArrayIsRead(items, indent, rest);
    case Struct(members) => StructIsRead(members, indent, rest);
    case _ => ScalarValueIsRead(v, indent, rest);
  }

  lemma ValueTakesElement(tag: string, v: Option<Value>, es: seq<Event>, rest: seq<Event>)
    requires es != [] && es[0] == Start(tag) && ParseElement(es[1..], tag) == Ok((v, [End("value")] + rest))
    ensures ParseValue(es, "") == Ok((v, rest))
  {
    Uncons(End("value"), rest);
    CloseAtOnce(v, "value", rest);
  }

  lemma NilIsRead(rest: seq<Event>)
    ensures ParseValue([EmptyTag("nil")] + ([End("value")] + rest), "") == Ok((Some(Nil), rest))
  {
    Uncons(EmptyTag("nil"), [End("value")] + rest);
    CloseAtOnce(Some(Nil), "value", rest);
    assert EmptyScalar("nil") == Some(Nil);
  }

  lemma ScalarShape(element: seq<Event>, rest: seq<Event>)
    ensures ([Start("value")] + element + [End("value")] + rest)[1..] == element + ([End("value")] + rest)
  {
  }

  lemma NilValueIsRead(indent: nat, rest: seq<Event>)
    ensures ParseValue((ValueEvents(Nil, indent) + rest)[1..], "") == Ok((Some(Nil), rest))
  {
    ScalarShape([EmptyTag("nil")], rest);
    NilIsRead(rest);
  }

  lemma ScalarElementIsRead(v: Value, es: seq<Event>)
    requires IsScalar(v) && !v.Nil? && Printable(v)
    ensures ParseElement((ElementEvents(ScalarTag(v), ScalarText(v)) + es)[1..], ScalarTag(v)) == Ok((Norm(v), es))
  {
    ScalarIsRead(v);
    ScalarTagIsReadable(v);
    ScalarIsWellNested(v);
    ElementIsRead(ScalarTag(v), ScalarText(v), es);
  }

  lemma ScalarValueIsRead(v: Value, indent: nat, rest: seq<Event>)
    requires IsScalar(v)
    requires Printable(v)
    ensures ParseValue((ValueEvents(v, indent) + rest)[1..], "") == Ok((Norm(v), rest))
  {
    if v.Nil? {
      NilValueIsRead(indent, rest);
    } else {
      var element, closing := ElementEvents(ScalarTag(v), ScalarText(v)), [End("value")] + rest;
      ScalarShape(element, rest);
      ScalarElementIsRead(v, closing);
      assert (element + closing)[0] == Start(ScalarTag(v));
      ValueTakesElement(ScalarTag(v), Norm(v), element + closing, rest);
    }
  }

  lemma {:induction false} ArrayIsRead(items: seq<Value>, indent: nat, rest: seq<Event>)
    requires AllPrintable(items)
    ensures ParseValue((ValueEvents(Array(items), indent) + rest)[1..], "") == Ok((Norm(Array(items)), rest))
    decreases items, 3
  {
    ArrayShape(ItemEvents(items, indent + 2), indent, rest);
    DataIsRead(items, indent, [End("value")] + rest);
    ArrayElementIsTaken([Start("data")] + (ItemEvents(items, indent + 2) + ArrayEnd(indent, [End("value")] + rest)),
                        Array(NormAll(items)), rest);
  }

  function ArrayEnd(indent: nat, rest: seq<Event>): seq<Event> {
    [Break(indent)] + ([End("data")] + ([End("array")] + rest))
  }

  lemma {:induction false} DataIsRead(items: seq<Value>, indent: nat, rest: seq<Event>)
    requires AllPrintable(items)
    ensures ParseArray([Start("data")] + (ItemEvents(items, indent + 2) + ArrayEnd(indent, rest)), [])
            == Ok((Array(NormAll(items)), rest))
    decreases items, 2
  {
    ArraySkips(Start("data"), ItemEvents(items, indent + 2) + ArrayEnd(indent, rest), []);
    ItemsAreRead(items, indent + 2, ArrayEnd(indent, rest), []);
    Concatenated(NormAll(items));
    ArrayEndIsRead(NormAll(items), indent, rest);
  }

  lemma ArrayEndIsRead(values: seq<Value>, indent: nat, rest: seq<Event>)
    ensures ParseArray(ArrayEnd(indent, rest), values) == Ok((Array(values), rest))
  {
    ArraySkips(Break(indent), [End("data")] + ([End("array")] + rest), values);
    ArraySkips(End("data"), [End("array")] + rest, values);
    Uncons(End("array"), rest);
  }

  lemma ArrayElementIsTaken(es: seq<Event>, v: Value, rest: seq<Event>)
    requires ParseArray(es, []) == Ok((v, [End("value")] + rest))
    ensures ParseValue([Start("array")] + es, "") == Ok((Some(v), rest))
  {
    Uncons(Start("array"), es);
    ValueTakesElement("array", Some(v), [Start("array")] + es, rest);
  }

  lemma ArrayShape(items: seq<Event>, indent: nat, rest: seq<Event>)
    ensures ([Start("value")] + [Start("array")] + [Start("data")] + items
             + [Break(indent)] + [End("data")] + [End("array")] + [End("value")] + rest)[1..]
            == [Start("array")] + ([Start("data")] + (items
               + ([Break(indent)] + ([End("data")] + ([End("array")] + ([End("value")] + rest))))))
  {
  }

  lemma ItemShape(value: seq<Event>, others: seq<Event>, indent: nat, rest: seq<Event>)
    ensures [Break(indent)] + value + others + rest == [Break(indent)] + (value + (others + rest))
  {
  }

  lemma {:induction false} ItemsAreRead(items: seq<Value>, indent: nat, rest: seq<Event>, values: seq<Value>)
    requires AllPrintable(items)
    ensures ParseArray(ItemEvents(items, indent) + rest, values) == ParseArray(rest, values + NormAll(items))
    decreases items, 1
  {
    if items == [] {
      Concatenated(rest);
      assert values + NormAll(items) == values;
    } else {
      var others := ItemEvents(items[1..], indent) + rest;
      ItemShape(ValueEvents(items[0], indent), ItemEvents(items[1..], indent), indent, rest);
      ValueOpens(items[0], indent, others);
      ValueIsRead(items[0], indent, others);
      ItemsAreRead(items[1..], indent, rest, values + Kept(Norm(items[0])));
      Associative(values, Kept(Norm(items[0])), NormAll(items[1..]));
    }
  }

  lemma {:induction false} StructIsRead(members: seq<Member>, indent: nat, rest: seq<Event>)
    requires MembersPrintable(members)
    ensures ParseValue((ValueEvents(Struct(members), indent) + rest)[1..], "") == Ok((Norm(Struct(members)), rest))
    decreases members, 2
  {
    var afterMembers := [Break(indent)] + ([End("struct")] + ([End("value")] + rest));
    StructShape(MemberEvents(members, indent), indent, rest);
    MembersAreRead(members, indent, afterMembers, []);
    Concatenated(NormMembers(members));
    StructEndIsRead(NormMembers(members), indent, [End("value")] + rest);
    var es := MemberEvents(members, indent) + afterMembers;
    Uncons(Start("struct"), es);
    ValueTakesElement("struct", Some(Struct(NormMembers(members))), [Start("struct")] + es, rest);
  }

  lemma StructEndIsRead(members: seq<Member>, indent: nat, rest: seq<Event>)
    ensures ParseStruct([Break(indent)] + ([End("struct")] + rest), members) == Ok((Struct(members), rest))
  {
    StructSkips(Break(indent), [End("struct")] + rest, members);
    Uncons(End("struct"), rest);
  }

  lemma StructShape(members: seq<Event>, indent: nat, rest: seq<Event>)
    ensures ([Start("value")] + [Start("struct")] + members + [Break(indent)] + [End("struct")]
             + [End("value")] + rest)[1..]
            == [Start("struct")] + (members + ([Break(indent)] + ([End("struct")] + ([End("value")] + rest))))
  {
  }

  lemma MemberShape(name: seq<Event>, value: seq<Event>, others: seq<Event>, indent: nat, rest: seq<Event>)
    ensures [Break(indent + 2)] + [Start("member")] + name + [Break(indent + 4)] + value
            + [Break(indent)] + [End("member")] + others + rest
            == [Break(indent + 2)] + ([Start("member")] + (name + ([Break(indent + 4)] + (value
               + ([Break(indent)] + ([End("member")] + (others + rest)))))))
  {
  }

  lemma {:induction false} MembersAreRead(members: seq<Member>, indent: nat, rest: seq<Event>, before: seq<Member>)
    requires MembersPrintable(members)
    ensures ParseStruct(MemberEvents(members, indent) + rest, before)
              == ParseStruct(rest, before + NormMembers(members))
    decreases members, 1
  {
    if members == [] {
      assert MemberEvents(members, indent) + rest == rest && before + NormMembers(members) == before;
    } else {
      var name := EscapeXml(members[0].name);
      var value := Norm(members[0].value);
      var others := MemberEvents(members[1..], indent) + rest;
      var valueAndEnd := ValueEvents(members[0].value, indent + 4) + ([Break(indent)] + ([End("member")] + others));
      var inMember := ElementEvents("name", name) + ([Break(indent + 4)] + valueAndEnd);
      MemberShape(ElementEvents("name", name), ValueEvents(members[0].value, indent + 4),
                  MemberEvents(members[1..], indent), indent, rest);
      StructSkips(Break(indent + 2), [Start("member")] + inMember, before);
      Uncons(Start("member"), inMember);
      ValueOpens(members[0].value, indent + 4, [Break(indent)] + ([End("member")] + others));
      ValueIsRead(members[0].value, indent + 4, [Break(indent)] + ([End("member")] + others));
      NameIsWellNested(members[0].name);
      MemberIsRead(name, value, indent, valueAndEnd, others);
      MembersAreRead(members[1..], indent, rest, before + Completed((Some(name), value)));
      Associative(before, Completed((Some(name), value)), NormMembers(members[1..]));
    }
  }

  lemma MemberIsRead(name: string, value: Option<Value>, indent: nat, valueAndEnd: seq<Event>, others: seq<Event>)
    requires valueAndEnd != [] && valueAndEnd[0] == Start("value")
    requires ParseValue(valueAndEnd[1..], "") == Ok((value, [Break(indent)] + ([End("member")] + others)))
    requires WellNested(name)
    ensures ParseMember(ElementEvents("name", name) + ([Break(indent + 4)] + valueAndEnd), None, None)
            == Ok(((Some(name), value), others))
  {
    MemberTakesName(name, [Break(indent + 4)] + valueAndEnd, None, None);
    MemberSkips(Break(indent + 4), valueAndEnd, Some(name), None);
    MemberSkips(Break(indent), [End("member")] + others, Some(name), value);
    Uncons(End("member"), others);
  }

  // ---------- requests ----------

  lemma ParamShape(value: seq<Event>, others: seq<Event>, rest: seq<Event>)
    ensures [Break(4)] + [Start("param")] + value + [End("param")] + others + rest
            == [Break(4)] + ([Start("param")] + (value + ([End("param")] + (others + rest))))
  {
  }

  lemma {:induction false} ParamsAreRead(params: seq<Value>, rest: seq<Event>, name: Option<string>, before: seq<Value>)
    requires AllPrintable(params)
    ensures ParseCall(ParamEvents(params) + rest, name, before) == ParseCall(rest, name, before + NormAll(params))
  {
    if params == [] {
      assert ParamEvents(params) + rest == rest && before + NormAll(params) == before;
    } else {
      var others := ParamEvents(params[1..]) + rest;
      var inParam := ValueEvents(params[0], 0) + ([End("param")] + others);
      ParamShape(ValueEvents(params[0], 0), ParamEvents(params[1..]), rest);
      CallSkips(Break(4), [Start("param")] + inParam, name, before);
      Uncons(Start("param"), inParam);
      ValueOpens(params[0], 0, [End("param")] + others);
      ValueIsRead(params[0], 0, [End("param")] + others);
      CloseAtOnce(Norm(params[0]), "param", others);
      ParamsAreRead(params[1..], rest, name, before + Kept(Norm(params[0])));
      Associative(before, Kept(Norm(params[0])), NormAll(params[1..]));
    }
  }

  lemma CallShape(name: seq<Event>, params: seq<Event>)
    ensures [Other(DECLARATION)] + [Break(0)] + [Start("methodCall")] + [Break(2)] + name + [Break(2)]
            + [Start("params")]
            + params + [Break(2)] + [End("params")] + [Break(0)] + [End("methodCall")]
            == [Other(DECLARATION)] + ([Break(0)] + ([Start("methodCall")] + ([Break(2)] + (name + ([Break(2)]
               + ([Start("params")] + (params + CallEnd())))))))
  {
  }

  function CallEnd(): seq<Event> { [Break(2), End("params"), Break(0), End("methodCall")] }

  lemma CallEndIsSkipped(name: string, params: seq<Value>)
    ensures ParseCall(CallEnd(), Some(name), params)
            == if name != "" then Ok(MethodCall(name, params)) else Err(MethodNameRequired)
  {
    var tail := [Break(0), End("methodCall")];
    assert CallEnd() == [Break(2)] + ([End("params")] + tail) && tail == [Break(0)] + ([End("methodCall")] + []);
    CallSkips(Break(2), [End("params")] + tail, Some(name), params);
    CallSkips(End("params"), tail, Some(name), params);
    CallSkips(Break(0), [End("methodCall")] + [], Some(name), params);
    CallSkips(End("methodCall"), [], Some(name), params);
  }

  /** Up to the method name nothing is read that counts. */
  lemma CallStartIsSkipped(es: seq<Event>)
    ensures ParseCall([Other(DECLARATION)] + ([Break(0)] + ([Start("methodCall")] + ([Break(2)] + es))), None, [])
            == ParseCall(es, None, [])
  {
    CallSkips(Other(DECLARATION), [Break(0)] + ([Start("methodCall")] + ([Break(2)] + es)), None, []);
    CallSkips(Break(0), [Start("methodCall")] + ([Break(2)] + es), None, []);
    CallSkips(Start("methodCall"), [Break(2)] + es, None, []);
    CallSkips(Break(2), es, None, []);
  }

  lemma CallEventsAreRead(call: MethodCall)
    requires PrintableCall(call)
    ensures ParseCall(CallEvents(call), None, []) == ParseCall(CallEnd(), Some(call.name), NormAll(call.params))
  {
    var name, params := ElementEvents("methodName", call.name), ParamEvents(call.params);
    CallShape(name, params);
    CallStartIsSkipped(name + ([Break(2)] + ([Start("params")] + (params + CallEnd()))));
    ElementIsRead("methodName", call.name, [Break(2)] + ([Start("params")] + (params + CallEnd())));
    CallSkips(Break(2), [Start("params")] + (params + CallEnd()), Some(call.name), []);
    CallSkips(Start("params"), params + CallEnd(), Some(call.name), []);
    ParamsAreRead(call.params, CallEnd(), Some(call.name), []);
    Concatenated(NormAll(call.params));
  }

  /** What any printed request is parsed to. */
  lemma PrintedCallParses(call: MethodCall)
    requires PrintableCall(call)
    ensures ParseRequest(PrintCall(call))
            == if call.name != "" then Ok(MethodCall(call.name, NormAll(call.params))) else Err(MethodNameRequired)
  {
    PrintedCallIsRead(call);
    CallEventsAreRead(call);
    CallEndIsSkipped(call.name, NormAll(call.params));
  }

  // ---------- when the round trip is exact ----------

  predicate Faithful(v: Value)
    decreases v
  {
    match v
    case Int(n) => -0x8000_0000 <= n <= 0x7FFF_FFFF
    case String(s) => Plain(s)
    case Double(_) => false
    case DateTime(text) => WellNested(text)
    case Array(items) => forall i | 0 <= i < |items| :: Faithful(items[i])
    case Struct(members) => forall i | 0 <= i < |members| :: FaithfulMember(members[i])
    case _ => true
  }

  predicate FaithfulMember(m: Member)
    decreases m
  {
    m.name != "" && Plain(m.name) && Faithful(m.value)
  }

  predicate AllFaithful(items: seq<Value>) { forall i | 0 <= i < |items| :: Faithful(items[i]) }

  lemma {:induction false} NormIsExact(v: Value)
    ensures FromWire(v) && Norm(v) == Some(v) <==> Faithful(v)
    decreases v, 0
  {
    match v
    case String(s) => EscapeIsIdentityOnPlain(s);
    case Array(items) => NormAllIsExact(items);
    case Struct(members) => NormMembersIsExact(members);
    case _ =>
  }

  lemma {:induction false} NormAllIsExact(items: seq<Value>)
    ensures AllFromWire(items) && NormAll(items) == items <==> AllFaithful(items)
    decreases items, 1
  {
    if items == [] {
    } else {
      NormIsExact(items[0]);
      NormAllIsExact(items[1..]);
      assert AllFaithful(items) <==> Faithful(items[0]) && AllFaithful(items[1..]);
      assert AllFromWire(items) <==> FromWire(items[0]) && AllFromWire(items[1..]);
    }
  }

  predicate AllFaithfulMembers(members: seq<Member>) { forall i | 0 <= i < |members| :: FaithfulMember(members[i]) }

  lemma {:induction false} NormMembersIsExact(members: seq<Member>)
    ensures MembersFromWire(members) && NormMembers(members) == members <==> AllFaithfulMembers(members)
    decreases members, 1
  {
    if members == [] {
    } else {
      var head := Completed((Some(EscapeXml(members[0].name)), Norm(members[0].value)));
      NormIsExact(members[0].value);
      EscapeIsIdentityOnPlain(members[0].name);
      NormMembersIsExact(members[1..]);
      FirstFaithful(members);
      FirstFromWire(members);
    }
  }

  lemma FirstFaithful(members: seq<Member>)
    ensures members != [] ==>
              (AllFaithfulMembers(members) <==> FaithfulMember(members[0]) && AllFaithfulMembers(members[1..]))
  {
  }

  lemma FirstFromWire(members: seq<Member>)
    ensures members != [] ==>
              (MembersFromWire(members) <==> FromWire(members[0].value) && MembersFromWire(members[1..]))
  {
  }

  lemma {:induction false} FromWireIsPrintable(v: Value)
    requires FromWire(v)
    ensures Printable(v)
  {
    match v
    case Array(items) =>
      forall i | 0 <= i < |items| ensures Printable(items[i]) { FromWireIsPrintable(items[i]); }
    case Struct(members) =>
      forall i | 0 <= i < |members| ensures Printable(members[i].value) { FromWireIsPrintable(members[i].value); }
    case _ =>
  }

  lemma AllFromWireIsPrintable(items: seq<Value>)
    requires AllFromWire(items)
    ensures AllPrintable(items)
  {
    forall i | 0 <= i < |items| ensures Printable(items[i]) { FromWireIsPrintable(items[i]); }
  }

  /**
    When any request at all is read back unchanged from its printed form: its name is not empty
    and stays inside its element, and all its parameters are faithful.
   */
  lemma RequestRoundTrip(call: MethodCall)
    ensures ParseRequest(PrintCall(call)) == Ok(call)
            <==> call.name != "" && WellNested(call.name) && AllFaithful(call.params)
  {
    NormAllIsExact(call.params);
    if ParseRequest(PrintCall(call)) == Ok(call) {
      ParsedIsFromWire(PrintCall(call));
      AllFromWireIsPrintable(call.params);
      PrintedCallParses(call);
    } else if WellNested(call.name) && AllFaithful(call.params) {
      AllFromWireIsPrintable(call.params);
      PrintedCallParses(call);
    }
  }

  // ---------- what other clients may write ----------

  /** The numeral of any 64-bit integer, white space around it or not, under the tag `i8`. */
  lemma WideIntegerIsRead(front: string, n: i64, back: string)
    requires AllWhitespace(front) && AllWhitespace(back)
    ensures Scalar("i8", front + Signed(n) + back) == Some(Int(n))
  {
    NoWhitespaceInNumeral(n);
    TrimForgetsPadding(front, Signed(n), back);
    SignedRoundTrip(n, I64_MIN, I64_MAX);
  }

  /** Under the tags `int` and `i4` only what fits 32 bits is a value. */
  lemma ShortIntegerIsRead(front: string, n: i64, back: string)
    requires AllWhitespace(front) && AllWhitespace(back)
    ensures Scalar("i4", front + Signed(n) + back) == Scalar("int", front + Signed(n) + back) == Norm(Int(n))
  {
    NoWhitespaceInNumeral(n);
    TrimForgetsPadding(front, Signed(n), back);
    SignedRoundTrip(n, -0x8000_0000, 0x7FFF_FFFF);
  }

  /** Text without an element of its own is unescaped, unlike the text of a `string` element. */
  lemma ImplicitStringIsUnescaped(s: string, rest: seq<Event>)
    requires s != ""
    ensures ParseValue([Chars(EscapeXml(s))] + ([End("value")] + rest), "") == Ok((Some(String(s)), rest))
  {
    Uncons(Chars(EscapeXml(s)), [End("value")] + rest);
    Uncons(End("value"), rest);
    UnescapeInvertsEscape(s);
    Concatenated(s);
  }

  // ---------- what is lost ----------

  lemma NormOfOne(v: Value)
    ensures NormAll([v]) == Kept(Norm(v))
  {
    assert [v][1..] == [];
    assert NormAll([v]) == Kept(Norm(v)) + NormAll([v][1..]);
  }

  /** A parameter that yields nothing leaves its place to the next. */
  lemma NormOfTwo(v: Value, w: Value)
    ensures NormAll([v, w]) == Kept(Norm(v)) + Kept(Norm(w))
  {
    NormOfOne(w);
    assert [v, w][1..] == [w];
  }

  lemma OneParameterReturns(name: string, v: Value)
    requires name != "" && WellNested(name) && Printable(v)
    ensures ParseRequest(PrintCall(MethodCall(name, [v]))) == Ok(MethodCall(name, Kept(Norm(v))))
  {
    assert AllPrintable([v]);
    PrintedCallParses(MethodCall(name, [v]));
    NormOfOne(v);
  }

  /** Text is escaped on the way out but not unescaped on the way in: an ampersand comes back as its entity. */
  lemma AmpersandStaysEscaped(name: string)
    requires name != "" && WellNested(name)
    ensures ParseRequest(PrintCall(MethodCall(name, [String("&")]))) == Ok(MethodCall(name, [String("&amp;")]))
  {
    OneParameterReturns(name, String("&"));
    EscapeOne('&');
  }

  /** An integer outside 32 bits vanishes, and the parameter after it takes its place. */
  lemma LargeIntegerShiftsParameters(name: string, n: i64, v: Value)
    requires name != "" && WellNested(name) && Printable(v)
    requires n < -0x8000_0000 || 0x7FFF_FFFF < n
    ensures ParseRequest(PrintCall(MethodCall(name, [Int(n), v]))) == ParseRequest(PrintCall(MethodCall(name, [v])))
  {
    assert AllPrintable([Int(n), v]);
    PrintedCallParses(MethodCall(name, [Int(n), v]));
    NormOfTwo(Int(n), v);
    OneParameterReturns(name, v);
    Vanished(Kept(Norm(v)));
  }

  lemma Vanished(kept: seq<Value>)
    ensures Kept<Value>(None) + kept == kept
  {
  }
}
