/**
  The events an XML reader yields, and a reader for the documents the printer produces: tags
  without attributes, text, and declarations. Text is raw, that is, not unescaped.
 */
module XmlEvents {
  import opened Wrappers
  import opened Strings

  datatype Event =
    | Start(name: string)
    | End(name: string)
    | EmptyTag(name: string)
    | Chars(raw: string)
    | CData(text: string)
    | Other(raw: string)
    | Garbled

  /** What stands between `<` and `>`. */
  function Tag(inner: string): Event {
    if inner != "" && inner[0] == '/' then End(inner[1..])
    else if inner != "" && (inner[0] == '?' || inner[0] == '!') then Other(inner)
    else if inner != "" && inner[|inner| - 1] == '/' then EmptyTag(inner[..|inner| - 1])
    else Start(inner)
  }

  function Lex(s: string): seq<Event>
    decreases |s|
  {
    if s == "" then []
    else if s[0] == '<' then
      var n := Find(s, '>');
      if n == |s| then [Garbled] else [Tag(s[1..n])] + Lex(s[n + 1..])
    else
      var n := Find(s, '<');
      [Chars(s[..n])] + Lex(s[n..])
  }

  lemma LexTag(inner: string, rest: string)
    requires '>' !in inner
    ensures Lex("<" + inner + ">" + rest) == [Tag(inner)] + Lex(rest)
  {
    var s := "<" + inner + ">" + rest;
    var n := |inner| + 1;
    assert s[n] == '>' && forall i | 0 <= i < n :: s[i] != '>';
    assert Find(s, '>') == n;
    assert s[1..n] == inner && s[n + 1..] == rest;
  }

  /** No event for empty text. */
  function Text(raw: string): seq<Event> { if raw == "" then [] else [Chars(raw)] }

  lemma LexText(raw: string, rest: string)
    requires '<' !in raw && rest != "" && rest[0] == '<'
    ensures Lex(raw + rest) == Text(raw) + Lex(rest)
  {
    var s := raw + rest;
    if raw == "" {
      assert s == rest;
    } else {
      assert s[|raw|] == '<' && forall i | 0 <= i < |raw| :: s[i] == raw[i];
      assert Find(s, '<') == |raw|;
      assert s[..|raw|] == raw && s[|raw|..] == rest;
    }
  }

  function Opening(name: string): string { "<" + name + ">" }

  function Closing(name: string): string { "</" + name + ">" }

  function Alone(name: string): string { "<" + name + "/>" }

  /** The text of an event as it stands in the document. */
  function Raw(e: Event): string {
    match e
    case Start(name) => Opening(name)
    case End(name) => Closing(name)
    case EmptyTag(name) => Alone(name)
    case Chars(raw) => raw
    case CData(text) => "<![CDATA[" + text + "]]>"
    case Other(raw) => "<" + raw + ">"
    case Garbled => ""
  }

  /** The elements open after an event; an end tag has to close the innermost one. */
  function Opened(e: Event, open: seq<string>): Option<seq<string>> {
    match e
    case Start(name) => Some(open + [name])
    case End(name) => if open != [] && open[|open| - 1] == name then Some(open[..|open| - 1]) else None
    case Garbled => None
    case _ => Some(open)
  }

  /**
    `read_text` and `read_to_end`: everything up to the end tag that closes `name`, as it stands
    in the document, and what follows it. `open` are the elements opened since.
   */
  function ReadText(es: seq<Event>, name: string, open: seq<string>): (r: Option<(string, seq<Event>)>)
    ensures r.Some? ==> |r.value.1| < |es|
  {
    if es == [] then None
    else if es[0] == End(name) && open == [] then Some(("", es[1..]))
    else
      match Opened(es[0], open)
      case None => None
      case Some(inner) =>
        match ReadText(es[1..], name, inner)
        case None => None
        case Some((text, rest)) => Some((Raw(es[0]) + text, rest))
  }
}
