/**
  What every value has in common that the parser reads from any document: no doubles, and
  dates whose text has complete markup, if any. The same holds of the method name. Every
  function of the parser hands on the events that a reader has still to yield, so the proofs
  follow the parser, function by function, with the document itself forgotten but for that.
 */
module XmlOrigin {
  import opened Wrappers
  import opened XmlEscape
  import opened XmlEvents
  import opened XmlRpc
  import opened XmlText

  predicate FromWire(v: Value)
    decreases v
  {
    match v
    case Double(_) => false
    case DateTime(text) => WellNested(text)
    case Array(items) => forall i | 0 <= i < |items| :: FromWire(items[i])
    case Struct(members) => forall i | 0 <= i < |members| :: FromWire(members[i].value)
    case _ => true
  }

  predicate AllFromWire(items: seq<Value>) { forall i | 0 <= i < |items| :: FromWire(items[i]) }

  predicate MembersFromWire(members: seq<Member>) { forall i | 0 <= i < |members| :: FromWire(members[i].value) }

  predicate MaybeFromWire(v: Option<Value>) { v.Some? ==> FromWire(v.value) }

  /** Events that a reader has still to yield. */
  ghost predicate IsLexed(es: seq<Event>) { exists s :: es == Lex(s) }

  lemma TailIsLexed(es: seq<Event>)
    requires IsLexed(es) && es != [] && !es[0].Garbled?
    ensures IsLexed(es[1..])
  {
    var s :| es == Lex(s);
    LexedFirst(s);
    assert es[1..] == Lex(s[|Raw(es[0])|..]);
  }

  lemma RestIsLexed(es: seq<Event>, tag: string)
    requires IsLexed(es) && ReadText(es, tag, []).Some?
    ensures IsLexed(ReadText(es, tag, []).value.1) && WellNested(ReadText(es, tag, []).value.0)
  {
    var s :| es == Lex(s);
    ReadTextStands(s, tag, []);
    SelfContainedIsWellNested(tag, ReadText(es, tag, []).value.0);
  }

  lemma ScalarFromWire(tag: string, text: string)
    requires WellNested(text)
    ensures MaybeFromWire(Scalar(tag, text))
  {
  }

  lemma {:induction false} ElementFromWire(es: seq<Event>, tag: string)
    requires IsLexed(es) && ParseElement(es, tag).Ok?
    ensures IsLexed(ParseElement(es, tag).value.1) && MaybeFromWire(ParseElement(es, tag).value.0)
    decreases |es|, 2
  {
    if tag == "array" {
      ArrayFromWire(es, []);
    } else if tag == "struct" {
      StructFromWire(es, []);
    } else {
      RestIsLexed(es, tag);
      ScalarFromWire(tag, ReadText(es, tag, []).value.0);
    }
  }

  lemma EmptyScalarFromWire(tag: string)
    ensures MaybeFromWire(EmptyScalar(tag))
  {
  }

  lemma {:induction false} ValueFromWire(es: seq<Event>, implicit: string)
    requires IsLexed(es) && ParseValue(es, implicit).Ok?
    ensures IsLexed(ParseValue(es, implicit).value.1) && MaybeFromWire(ParseValue(es, implicit).value.0)
    decreases |es|, 1
  {
    TailIsLexed(es);
    match es[0]
    case Start(tag) =>
      ElementFromWire(es[1..], tag);
      var (v, rest) := ParseElement(es[1..], tag).value;
      if v.Some? { RestIsLexed(rest, "value"); } else { ValueFromWire(rest, implicit); }
    case EmptyTag(tag) =>
      EmptyScalarFromWire(tag);
      if EmptyScalar(tag).Some? { RestIsLexed(es[1..], "value"); } else { ValueFromWire(es[1..], implicit); }
    case Chars(raw) => ValueFromWire(es[1..], implicit + Unescape(raw).value);
    case CData(text) => ValueFromWire(es[1..], implicit + text);
    case End(name) => if name != "value" { ValueFromWire(es[1..], implicit); }
    case Other(_) => ValueFromWire(es[1..], implicit);
  }

  lemma {:induction false} ArrayFromWire(es: seq<Event>, values: seq<Value>)
    requires IsLexed(es) && AllFromWire(values) && ParseArray(es, values).Ok?
    ensures IsLexed(ParseArray(es, values).value.1) && FromWire(ParseArray(es, values).value.0)
    decreases |es|, 0
  {
    TailIsLexed(es);
    if es[0] == Start("value") {
      ValueFromWire(es[1..], "");
      var (v, rest) := ParseValue(es[1..], "").value;
      ArrayFromWire(rest, values + Kept(v));
    } else if es[0] != End("array") {
      ArrayFromWire(es[1..], values);
    }
  }

  lemma {:induction false} MemberFromWire(es: seq<Event>, name: Option<string>, value: Option<Value>)
    requires IsLexed(es) && MaybeFromWire(value) && ParseMember(es, name, value).Ok?
    ensures IsLexed(ParseMember(es, name, value).value.1) && MaybeFromWire(ParseMember(es, name, value).value.0.1)
    decreases |es|, 0
  {
    TailIsLexed(es);
    if es[0] == Start("value") {
      ValueFromWire(es[1..], "");
      var (v, rest) := ParseValue(es[1..], "").value;
      MemberFromWire(rest, name, v);
    } else if es[0].Start? {
      RestIsLexed(es[1..], es[0].name);
      var (text, rest) := ReadText(es[1..], es[0].name, []).value;
      MemberFromWire(rest, if es[0].name == "name" then Some(text) else name, value);
    } else if es[0] != End("member") {
      MemberFromWire(es[1..], name, value);
    }
  }

  lemma {:induction false} StructFromWire(es: seq<Event>, members: seq<Member>)
    requires IsLexed(es) && MembersFromWire(members) && ParseStruct(es, members).Ok?
    ensures IsLexed(ParseStruct(es, members).value.1) && FromWire(ParseStruct(es, members).value.0)
    decreases |es|, 0
  {
    TailIsLexed(es);
    if es[0] == Start("member") {
      MemberFromWire(es[1..], None, None);
      var (m, rest) := ParseMember(es[1..], None, None).value;
      StructFromWire(rest, members + Completed(m));
    } else if es[0] != End("struct") {
      StructFromWire(es[1..], members);
    }
  }

  lemma {:induction false} ParamFromWire(es: seq<Event>)
    requires IsLexed(es) && ParseParam(es).Ok?
    ensures IsLexed(ParseParam(es).value.1) && MaybeFromWire(ParseParam(es).value.0)
    decreases |es|
  {
    TailIsLexed(es);
    if es[0] == Start("value") {
      ValueFromWire(es[1..], "");
      RestIsLexed(ParseValue(es[1..], "").value.1, "param");
    } else if es[0] != End("param") {
      ParamFromWire(es[1..]);
    }
  }

  lemma {:induction false} CallFromWire(es: seq<Event>, name: Option<string>, params: seq<Value>)
    requires IsLexed(es) && AllFromWire(params) && (name.Some? ==> WellNested(name.value))
    requires ParseCall(es, name, params).Ok?
    ensures var call := ParseCall(es, name, params).value;
            WellNested(call.name) && AllFromWire(call.params)
    decreases |es|
  {
    if es == [] {
    } else {
      TailIsLexed(es);
      if es[0] == Start("methodName") {
        RestIsLexed(es[1..], "methodName");
        var (text, rest) := ReadText(es[1..], "methodName", []).value;
        CallFromWire(rest, Some(text), params);
      } else if es[0] == Start("param") {
        ParamFromWire(es[1..]);
        var (v, rest) := ParseParam(es[1..]).value;
        CallFromWire(rest, name, params + Kept(v));
      } else {
        CallFromWire(es[1..], name, params);
      }
    }
  }

  /** Whatever document it comes from, a request has a name and dates that survive being printed. */
  lemma ParsedIsFromWire(document: string)
    requires ParseRequest(document).Ok?
    ensures var call := ParseRequest(document).value;
            WellNested(call.name) && AllFromWire(call.params)
  {
    CallFromWire(Lex(document), None, []);
  }
}
