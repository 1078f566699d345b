/**
  Events as text: how a list of them is written, and which text a reader gives back unchanged.
  Rendering and lexing undo each other on tidy events, those without empty or adjacent texts.
  A text that is printed unescaped comes back whole from its element exactly when its own
  markup is complete, which does not depend on the tag; and every text that is ever read from
  an element, of any document, is such a text.
 */
module XmlText {
  import opened Collections
  import opened Strings
  import opened Wrappers
  import opened XmlEvents

  // ---------- reading a rendered list of events ----------

  function Render(es: seq<Event>): string { if es == [] then "" else Raw(es[0]) + Render(es[1..]) }

  predicate IsTagName(name: string) {
    name != "" && '>' !in name && name[0] != '/' && name[0] != '?' && name[0] != '!' && name[|name| - 1] != '/'
  }

  predicate IsMarkup(e: Event) { e.Start? || e.End? || e.EmptyTag? || e.Other? }

  /** What stands between the angle brackets. */
  function Inside(e: Event): string
    requires IsMarkup(e)
  {
    match e
    case Start(name) => name
    case End(name) => "/" + name
    case EmptyTag(name) => name + "/"
    case Other(raw) => raw
  }

  /** Events a reader yields: text without markup, and tags that mean what they contain. */
  predicate Readable(e: Event) {
    if IsMarkup(e) then '>' !in Inside(e) && Tag(Inside(e)) == e else e.Chars? && e.raw != "" && '<' !in e.raw
  }

  predicate Usable(tag: string) { IsTagName(tag) && Readable(Start(tag)) && Readable(End(tag)) }

  lemma TagNameIsReadable(name: string)
    requires IsTagName(name)
    ensures Usable(name) && Readable(EmptyTag(name))
  {
    var closing, alone := "/" + name, name + "/";
    assert closing[0] == '/' && closing[1..] == name;
    assert alone[0] == name[0] && alone[|alone| - 1] == '/' && alone[..|alone| - 1] == name;
  }

  predicate EndsInTag(es: seq<Event>) { es != [] && !es[|es| - 1].Chars? }

  ghost predicate TidyAt(es: seq<Event>, i: nat)
    requires i < |es|
  {
    Readable(es[i]) && (es[i].Chars? && i + 1 < |es| ==> !es[i + 1].Chars?)
  }

  /** Events a reader can tell apart: no empty text and no two texts in a row. */
  ghost predicate Tidy(es: seq<Event>) { forall i | 0 <= i < |es| :: TidyAt(es, i) }

  /** Tidy events that can be followed by anything. */
  ghost predicate Closed(es: seq<Event>) { Tidy(es) && (es != [] ==> EndsInTag(es)) }

  lemma {:induction false} RenderAppend(a: seq<Event>, b: seq<Event>)
    ensures Render(a + b) == Render(a) + Render(b)
  {
    if a == [] {
      assert a + b == b;
    } else {
      assert (a + b)[1..] == a[1..] + b;
      RenderAppend(a[1..], b);
    }
  }

  lemma TidyJoin(a: seq<Event>, b: seq<Event>)
    requires Tidy(a) && Tidy(b) && (Closed(a) || (b != [] && !b[0].Chars?))
    ensures Tidy(a + b) && (Closed(b) && (Closed(a) || b != []) ==> Closed(a + b))
  {
    forall i | 0 <= i < |a + b| ensures TidyAt(a + b, i) {
      if i < |a| { assert TidyAt(a, i); } else { assert TidyAt(b, i - |a|); }
    }
  }

  lemma TidyAdd(es: seq<Event>, e: Event)
    requires Tidy(es) && Readable(e) && (e.Chars? ==> Closed(es))
    ensures Tidy(es + [e]) && (!e.Chars? ==> Closed(es + [e]))
  {
    forall i | 0 <= i < |es + [e]| ensures TidyAt(es + [e], i) {
      if i < |es| { assert TidyAt(es, i); }
    }
  }

  lemma RawOfTag(e: Event)
    requires IsMarkup(e)
    ensures Raw(e) == "<" + Inside(e) + ">"
  {
    match e
    case End(name) => assert "</" == "<" + "/"; assert "<" + ("/" + name) == "</" + name;
    case EmptyTag(name) => assert "/>" == "/" + ">"; assert "<" + (name + "/") + ">" == "<" + name + "/>";
    case _ =>
  }

  /** The raw text of an event is read back as that event. */
  lemma EventIsRead(e: Event, rest: string)
    requires Readable(e) && (e.Chars? ==> rest != "" && rest[0] == '<')
    ensures Lex(Raw(e) + rest) == [e] + Lex(rest)
  {
    if e.Chars? {
      LexText(e.raw, rest);
    } else {
      RawOfTag(e);
      LexTag(Inside(e), rest);
    }
  }

  lemma {:induction false} LexInvertsRender(es: seq<Event>, rest: string)
    requires Closed(es)
    ensures Lex(Render(es) + rest) == es + Lex(rest)
  {
    if es == [] {
      assert Render(es) + rest == rest && es + Lex(rest) == Lex(rest);
    } else {
      ClosedTail(es);
      LexInvertsRender(es[1..], rest);
      if es[0].Chars? {
        assert TidyAt(es[1..], 0);
        RawOfTag(es[1]);
      }
      EventIsRead(es[0], Render(es[1..]) + rest);
      Associative(Raw(es[0]), Render(es[1..]), rest);
      Associative([es[0]], es[1..], Lex(rest));
      assert [es[0]] + es[1..] == es;
    }
  }

  lemma ClosedTail(es: seq<Event>)
    requires Closed(es) && es != []
    ensures Closed(es[1..]) && Readable(es[0]) && (es[0].Chars? ==> es[1..] != [] && !es[1..][0].Chars?)
  {
    assert TidyAt(es, 0);
    forall i | 0 <= i < |es[1..]| ensures TidyAt(es[1..], i) { assert TidyAt(es, i + 1); }
  }

  // ---------- what a reader yields ----------

  lemma InsideOfTag(inner: string)
    ensures IsMarkup(Tag(inner)) && Inside(Tag(inner)) == inner
  {
    match Tag(inner)
    case End(name) => assert inner == [inner[0]] + inner[1..] && "/" == [inner[0]];
    case EmptyTag(name) => assert inner == name + [inner[|inner| - 1]] && "/" == [inner[|inner| - 1]];
    case _ =>
  }

  lemma TagStands(s: string, n: nat)
    requires 0 < n < |s| && s[0] == '<' && s[n] == '>' && '>' !in s[1..n]
    ensures Readable(Tag(s[1..n])) && IsMarkup(Tag(s[1..n])) && Raw(Tag(s[1..n])) == s[..n + 1]
  {
    InsideOfTag(s[1..n]);
    RawOfTag(Tag(s[1..n]));
    assert "<" + s[1..n] + ">" == s[..n + 1];
  }

  /** The first event of a text is readable and stands at its beginning; text reaches up to the next tag. */
  lemma LexedFirst(s: string)
    requires s != "" && !Lex(s)[0].Garbled?
    ensures var e := Lex(s)[0];
            Readable(e) && Raw(e) != "" && Raw(e) <= s && Lex(s) == [e] + Lex(s[|Raw(e)|..])
            && (e.Chars? && s[|Raw(e)|..] != "" ==> s[|Raw(e)|..][0] == '<')
  {
    if s[0] == '<' {
      var n := Find(s, '>');
      TagStands(s, n);
    }
  }

  predicate Sound(es: seq<Event>) { forall i | 0 <= i < |es| :: !es[i].Garbled? }

  lemma AfterFirst(s: string)
    requires s != "" && Sound(Lex(s))
    ensures var rest := s[|Raw(Lex(s)[0])|..];
            && Raw(Lex(s)[0]) != "" && |rest| < |s| && s == Raw(Lex(s)[0]) + rest
            && Lex(s)[1..] == Lex(rest) && Sound(Lex(rest))
  {
    LexedFirst(s);
    var e, rest := Lex(s)[0], s[|Raw(Lex(s)[0])|..];
    Uncons(e, Lex(rest));
    forall i | 0 <= i < |Lex(rest)| ensures !Lex(rest)[i].Garbled? { assert Lex(rest)[i] == Lex(s)[i + 1]; }
  }

  /** Writing down what was read gives the text again, and the events are tidy. */
  lemma {:induction false} RenderInvertsLex(s: string)
    requires Sound(Lex(s))
    ensures Render(Lex(s)) == s && Tidy(Lex(s))
    decreases |s|
  {
    if s == "" {
    } else {
      var e := Lex(s)[0];
      LexedFirst(s);
      AfterFirst(s);
      var rest := s[|Raw(e)|..];
      RenderInvertsLex(rest);
      forall i | 0 <= i < |Lex(s)| ensures TidyAt(Lex(s), i) {
        if i > 0 {
          assert Lex(s)[i] == Lex(rest)[i - 1] && TidyAt(Lex(rest), i - 1);
        } else if |Lex(s)| > 1 {
          assert Lex(s)[1] == Lex(rest)[0];
        }
      }
    }
  }

  // ---------- text that stays inside its element ----------

  /** Every end tag closes the innermost element that is open, and in the end none is. */
  predicate Nested(es: seq<Event>, open: seq<string>) {
    if es == [] then open == []
    else match Opened(es[0], open) case None => false case Some(inner) => Nested(es[1..], inner)
  }

  /** The markup in the text, if there is any, is complete. */
  predicate WellNested(text: string) { Nested(Lex(text), []) }

  /** Put between the tags of an element, the text is read back unchanged, and nothing is left over. */
  predicate SelfContained(tag: string, text: string) {
    ReadText(Lex(text + Closing(tag)), tag, []) == Some((text, []))
  }

  /** An element with its tags; text without markup is one event. */
  function ElementEvents(tag: string, text: string): seq<Event> { [Start(tag)] + Lex(text + Closing(tag)) }

  lemma {:induction false} ReadTextExtends(es: seq<Event>, tag: string, open: seq<string>, rest: seq<Event>)
    requires ReadText(es, tag, open).Some?
    ensures ReadText(es + rest, tag, open)
            == Some((ReadText(es, tag, open).value.0, ReadText(es, tag, open).value.1 + rest))
  {
    assert (es + rest)[0] == es[0] && (es + rest)[1..] == es[1..] + rest;
    if es[0] == End(tag) && open == [] {
    } else {
      var inner := Opened(es[0], open).value;
      ReadTextExtends(es[1..], tag, inner, rest);
    }
  }

  lemma SoundCons(e: Event, es: seq<Event>)
    requires !e.Garbled? && Sound(es)
    ensures Sound([e] + es) && (EndsInTag(es) ==> EndsInTag([e] + es))
  {
  }

  /** Where the first tag of a text with an end tag behind it ends. */
  lemma TagInClosedText(tag: string, text: string)
    requires IsTagName(tag) && (text + Closing(tag))[0] == '<'
    ensures var s := text + Closing(tag); var n := Find(s, '>');
            n < |s| && (if n < |text| then s[n + 1..] == text[n + 1..] + Closing(tag) else s[n + 1..] == "")
  {
    var s := text + Closing(tag);
    assert s[|s| - 1] == '>';
  }

  lemma TextInClosedText(tag: string, text: string)
    requires IsTagName(tag) && (text + Closing(tag))[0] != '<'
    ensures var s := text + Closing(tag); var n := Find(s, '<');
            0 < n <= |text| && s[n..] == text[n..] + Closing(tag)
  {
    assert (text + Closing(tag))[|text|] == '<';
  }

  lemma LexOfTag(s: string)
    requires s != "" && s[0] == '<' && Find(s, '>') < |s|
    ensures var n := Find(s, '>');
            Lex(s) == [Tag(s[1..n])] + Lex(s[n + 1..]) && (s[n + 1..] == "" ==> Lex(s) == [Tag(s[1..n])])
  {
  }

  /** The first event of such a text, and what is left of the text behind it, if it does not end there. */
  lemma ClosedTextStep(tag: string, text: string) returns (e: Event, left: Option<string>)
    requires IsTagName(tag)
    ensures !e.Garbled?
    ensures left.Some? ==> |left.value| < |text| && Lex(text + Closing(tag)) == [e] + Lex(left.value + Closing(tag))
    ensures left.None? ==> !e.Chars? && Lex(text + Closing(tag)) == [e]
  {
    var s := text + Closing(tag);
    if s[0] == '<' {
      var n := Find(s, '>');
      TagInClosedText(tag, text);
      InsideOfTag(s[1..n]);
      e, left := Tag(s[1..n]), if n < |text| then Some(text[n + 1..]) else None;
      LexOfTag(s);
    } else {
      var n := Find(s, '<');
      TextInClosedText(tag, text);
      e, left := Chars(s[..n]), Some(text[n..]);
    }
  }

  /** Whatever the text, with an end tag behind it a reader gets through it, and ends with a tag. */
  lemma {:induction false} ClosedTextIsSound(tag: string, text: string)
    requires IsTagName(tag)
    ensures Sound(Lex(text + Closing(tag))) && EndsInTag(Lex(text + Closing(tag)))
    decreases |text|
  {
    var e, left := ClosedTextStep(tag, text);
    if left.Some? {
      ClosedTextIsSound(tag, left.value);
      SoundCons(e, Lex(left.value + Closing(tag)));
    }
  }

  lemma {:induction false} NestedIsSound(es: seq<Event>, open: seq<string>)
    requires Nested(es, open)
    ensures Sound(es)
  {
    if es == [] {
    } else {
      NestedIsSound(es[1..], Opened(es[0], open).value);
      forall i | 0 <= i < |es| ensures !es[i].Garbled? {
        if i > 0 { assert es[i] == es[1..][i - 1]; }
      }
    }
  }

  lemma {:induction false} NestedIsRead(es: seq<Event>, tag: string, open: seq<string>)
    requires Nested(es, open)
    ensures ReadText(es + [End(tag)], tag, open) == Some((Render(es), []))
  {
    if es == [] {
      assert es + [End(tag)] == [End(tag)];
    } else {
      Associative([es[0]], es[1..], [End(tag)]);
      assert [es[0]] + es[1..] == es;
      Uncons(es[0], es[1..] + [End(tag)]);
      NestedIsRead(es[1..], tag, Opened(es[0], open).value);
    }
  }

  lemma {:induction false} ReadIsNested(es: seq<Event>, tag: string, open: seq<string>, text: string)
    requires ReadText(es, tag, open) == Some((text, []))
    ensures var front := es[..|es| - 1];
            es == front + [End(tag)] && Nested(front, open) && Render(front) == text
  {
    if es[0] == End(tag) && open == [] {
      assert es == [] + [End(tag)];
    } else {
      var inner := Opened(es[0], open).value;
      ReadIsNested(es[1..], tag, inner, ReadText(es[1..], tag, inner).value.0);
      assert es[..|es| - 1][1..] == es[1..][..|es[1..]| - 1];
    }
  }

  lemma LexPlain(raw: string)
    requires raw != "" && '<' !in raw
    ensures Lex(raw) == [Chars(raw)]
  {
    assert raw[..|raw|] == raw;
  }

  lemma TidyFront(es: seq<Event>)
    requires Tidy(es) && es != []
    ensures Tidy(es[..|es| - 1]) && Readable(es[|es| - 1])
    ensures es[|es| - 1].Chars? ==> Closed(es[..|es| - 1])
  {
    var front := es[..|es| - 1];
    assert TidyAt(es, |es| - 1);
    forall i | 0 <= i < |front| ensures TidyAt(front, i) { assert TidyAt(es, i); }
    if |es| > 1 { assert TidyAt(es, |es| - 2); }
  }

  lemma LexWithTextLast(es: seq<Event>, front: seq<Event>, raw: string)
    requires es == front + [Chars(raw)] && Closed(front) && raw != "" && '<' !in raw
    ensures Lex(Render(es)) == es
  {
    RenderAppend(front, [Chars(raw)]);
    RenderOne(Chars(raw));
    LexInvertsRender(front, raw);
    LexPlain(raw);
  }

  lemma LexClosed(es: seq<Event>)
    requires Closed(es)
    ensures Lex(Render(es)) == es
  {
    LexInvertsRender(es, "");
    assert Render(es) + "" == Render(es) && es + [] == es;
  }

  /** Tidy events are read back from their text, also when text comes last. */
  lemma LexInvertsTidy(es: seq<Event>)
    requires Tidy(es)
    ensures Lex(Render(es)) == es
  {
    if es == [] || EndsInTag(es) {
      LexClosed(es);
    } else {
      TidyFront(es);
      LexWithTextLast(es, es[..|es| - 1], es[|es| - 1].raw);
    }
  }

  lemma WellNestedIsSelfContained(tag: string, text: string)
    requires IsTagName(tag) && WellNested(text)
    ensures SelfContained(tag, text)
  {
    var es := Lex(text);
    NestedIsSound(es, []);
    RenderInvertsLex(text);
    TagNameIsReadable(tag);
    TidyAdd(es, End(tag));
    RenderAppend(es, [End(tag)]);
    RenderOne(End(tag));
    LexInvertsTidy(es + [End(tag)]);
    NestedIsRead(es, tag, []);
  }

  lemma SelfContainedIsWellNested(tag: string, text: string)
    requires SelfContained(tag, text)
    ensures WellNested(text)
  {
    var es := Lex(text + Closing(tag));
    ReadIsNested(es, tag, [], text);
    var front := es[..|es| - 1];
    NestedIsSound(front, []);
    RenderInvertsLex(text + Closing(tag));
    TidyFront(es);
    LexInvertsTidy(front);
  }

  /** Text comes back whole from an element exactly when its own markup is complete, whatever the tag. */
  lemma SelfContainedExactly(tag: string, text: string)
    requires IsTagName(tag)
    ensures SelfContained(tag, text) <==> WellNested(text)
  {
    if SelfContained(tag, text) { SelfContainedIsWellNested(tag, text); }
    if WellNested(text) { WellNestedIsSelfContained(tag, text); }
  }

  lemma RestIsLeft(es: seq<Event>, tag: string, text: string, rest: seq<Event>)
    requires ReadText(es, tag, []) == Some((text, []))
    ensures ReadText(es + rest, tag, []) == Some((text, rest))
  {
    ReadTextExtends(es, tag, [], rest);
    assert [] + rest == rest;
  }

  lemma ElementIsRead(tag: string, text: string, rest: seq<Event>)
    requires IsTagName(tag) && WellNested(text)
    ensures ReadText((ElementEvents(tag, text) + rest)[1..], tag, []) == Some((text, rest))
    ensures (ElementEvents(tag, text) + rest)[0] == Start(tag)
  {
    var inner := Lex(text + Closing(tag));
    WellNestedIsSelfContained(tag, text);
    RestIsLeft(inner, tag, text, rest);
    Associative([Start(tag)], inner, rest);
    Uncons(Start(tag), inner + rest);
  }

  lemma ElementIsClosed(tag: string, text: string)
    requires IsTagName(tag)
    ensures Closed(ElementEvents(tag, text)) && !ElementEvents(tag, text)[0].Chars?
    ensures Render(ElementEvents(tag, text)) == Opening(tag) + text + Closing(tag)
  {
    var inner := Lex(text + Closing(tag));
    TagNameIsReadable(tag);
    ClosedTextIsSound(tag, text);
    RenderInvertsLex(text + Closing(tag));
    OneTag(Start(tag));
    TidyJoin([Start(tag)], inner);
    RenderAppend([Start(tag)], inner);
    RenderOne(Start(tag));
    Associative(Opening(tag), text, Closing(tag));
  }

  lemma RenderOne(e: Event)
    ensures Render([e]) == Raw(e)
  {
    assert [e][1..] == [] && Raw(e) + "" == Raw(e);
  }

  lemma OneTag(e: Event)
    requires Readable(e) && !e.Chars?
    ensures Closed([e])
  {
    assert TidyAt([e], 0) ==> Tidy([e]);
  }

  /** Text without `<` has no markup. */
  lemma PlainTextIsWellNested(text: string)
    requires '<' !in text
    ensures WellNested(text)
  {
    if text != "" { LexPlain(text); }
  }

  // ---------- whatever is read was self-contained ----------

  /** Where the text that is read stands in the document. */
  lemma {:induction false} ReadTextStands(s: string, tag: string, open: seq<string>)
    requires ReadText(Lex(s), tag, open).Some?
    ensures var (text, rest) := ReadText(Lex(s), tag, open).value;
            var taken := text + Closing(tag);
            taken <= s && rest == Lex(s[|taken|..]) && ReadText(Lex(taken), tag, open) == Some((text, []))
    decreases |s|
  {
    LexedFirst(s);
    var e := Lex(s)[0];
    var s1 := s[|Raw(e)|..];
    Uncons(e, Lex(s1));
    if e == End(tag) && open == [] {
      EventIsRead(e, "");
      assert Raw(e) + "" == "" + Closing(tag) && [e] + Lex("") == [e];
    } else {
      var inner := Opened(e, open).value;
      ReadTextStands(s1, tag, inner);
      TakenWith(e, s, tag, open, inner, ReadText(Lex(s1), tag, inner).value.0);
    }
  }

  lemma TakenWith(e: Event, s: string, tag: string, open: seq<string>, inner: seq<string>, text: string)
    requires Readable(e) && Raw(e) <= s && (e.Chars? && s[|Raw(e)|..] != "" ==> s[|Raw(e)|..][0] == '<')
    requires !(e == End(tag) && open == [])
    requires Opened(e, open) == Some(inner)
    requires text + Closing(tag) <= s[|Raw(e)|..]
    requires ReadText(Lex(text + Closing(tag)), tag, inner) == Some((text, []))
    ensures Raw(e) + text + Closing(tag) <= s
    ensures s[|Raw(e)|..][|text + Closing(tag)|..] == s[|Raw(e) + text + Closing(tag)|..]
    ensures ReadText(Lex(Raw(e) + text + Closing(tag)), tag, open) == Some((Raw(e) + text, []))
  {
    var taken := text + Closing(tag);
    Associative(Raw(e), text, Closing(tag));
    PrefixOfRest(Raw(e), taken, s);
    assert taken != "" && taken[0] == s[|Raw(e)|..][0];
    EventIsRead(e, taken);
    Uncons(e, Lex(taken));
  }
}
