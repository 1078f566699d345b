/**
  Escaping of character data for XML and its inverse (section 4.6 of XML 1.0). The printer
  chains five replacements, the ampersand's first; they equal one substitution per character,
  which no entity of one step disturbs in the next. An entity decoder undoes the chain on every
  string, while a reader that takes text raw gets it back escaped.
 */
module XmlEscape {
  import opened Wrappers

  /** `str::replace` of one character by a string. */
  function Replace(s: string, c: char, with: string): string {
    if s == "" then "" else (if s[0] == c then with else [s[0]]) + Replace(s[1..], c, with)
  }

  /** The five chained replacements; the ampersand has to come first. */
  function EscapeXml(s: string): string {
    var t := Replace(Replace(Replace(s, '&', "&amp;"), '<', "&lt;"), '>', "&gt;");
    Replace(Replace(t, '"', "&quot;"), '\'', "&apos;")
  }

  predicate IsSpecial(c: char) { c == '&' || c == '<' || c == '>' || c == '"' || c == '\'' }

  predicate Plain(s: string) { forall i | 0 <= i < |s| :: !IsSpecial(s[i]) }

  function Entity(c: char): (e: string)
    ensures 0 < |e| && (!IsSpecial(c) ==> e == [c]) && (IsSpecial(c) ==> 1 < |e|)
  {
    if c == '&' then "&amp;"
    else if c == '<' then "&lt;"
    else if c == '>' then "&gt;"
    else if c == '"' then "&quot;"
    else if c == '\'' then "&apos;"
    else [c]
  }

  /** One left-to-right substitution per character. */
  function EscapeEach(s: string): string {
    if s == "" then "" else Entity(s[0]) + EscapeEach(s[1..])
  }

  lemma {:induction false} ReplaceAppend(a: string, b: string, c: char, with: string)
    ensures Replace(a + b, c, with) == Replace(a, c, with) + Replace(b, c, with)
  {
    if a == "" {
      assert a + b == b;
    } else {
      assert (a + b)[1..] == a[1..] + b;
      ReplaceAppend(a[1..], b, c, with);
    }
  }

  lemma {:induction false} ReplaceAbsent(s: string, c: char, with: string)
    requires c !in s
    ensures Replace(s, c, with) == s
  {
    if s == "" {
    } else {
      ReplaceAbsent(s[1..], c, with);
    }
  }

  lemma ReplaceOne(c: char, d: char, with: string)
    ensures Replace([c], d, with) == if c == d then with else [c]
  {
    assert [c][1..] == "";
  }

  lemma EscapeAppend(a: string, b: string)
    ensures EscapeXml(a + b) == EscapeXml(a) + EscapeXml(b)
  {
    var a1, b1 := Replace(a, '&', "&amp;"), Replace(b, '&', "&amp;");
    var a2, b2 := Replace(a1, '<', "&lt;"), Replace(b1, '<', "&lt;");
    var a3, b3 := Replace(a2, '>', "&gt;"), Replace(b2, '>', "&gt;");
    var a4, b4 := Replace(a3, '"', "&quot;"), Replace(b3, '"', "&quot;");
    ReplaceAppend(a, b, '&', "&amp;");
    ReplaceAppend(a1, b1, '<', "&lt;");
    ReplaceAppend(a2, b2, '>', "&gt;");
    ReplaceAppend(a3, b3, '"', "&quot;");
    ReplaceAppend(a4, b4, '\'', "&apos;");
  }

  lemma OnlyAmpersandIsSpecial(c: char, i: nat)
    requires i < |Entity(c)|
    ensures IsSpecial(Entity(c)[i]) <==> IsSpecial(c) && i == 0
    ensures IsSpecial(c) ==> Entity(c)[0] == '&'
  {
  }

  /** Past its own replacement an entity is not touched again. */
  lemma EntityIsStable(c: char, d: char, with: string)
    requires IsSpecial(c) && IsSpecial(d) && d != '&'
    ensures Replace(Entity(c), d, with) == Entity(c)
  {
    forall i | 0 <= i < |Entity(c)| ensures Entity(c)[i] != d { OnlyAmpersandIsSpecial(c, i); }
    ReplaceAbsent(Entity(c), d, with);
  }

  /** One link of the chain, for a character that is not escaped yet or already is. */
  lemma ChainLink(c: char, done: bool, d: char)
    requires IsSpecial(d) && (done ==> IsSpecial(c) && c != d && d != '&')
    ensures Replace(if done then Entity(c) else [c], d, Entity(d)) == if done || c == d then Entity(c) else [c]
  {
    if done { EntityIsStable(c, d, Entity(d)); } else { ReplaceOne(c, d, Entity(d)); }
  }

  lemma EscapeOne(c: char)
    ensures EscapeXml([c]) == Entity(c)
  {
    ChainLink(c, false, '&');
    ChainLink(c, c == '&', '<');
    ChainLink(c, c == '&' || c == '<', '>');
    ChainLink(c, c == '&' || c == '<' || c == '>', '"');
    ChainLink(c, c == '&' || c == '<' || c == '>' || c == '"', '\'');
  }

  /** The chain never escapes what an earlier replacement has put in. */
  lemma {:induction false} ChainIsOnePass(s: string)
    ensures EscapeXml(s) == EscapeEach(s)
  {
    if s == "" {
    } else {
      EscapeAppend([s[0]], s[1..]);
      EscapeOne(s[0]);
      ChainIsOnePass(s[1..]);
      assert s == [s[0]] + s[1..];
    }
  }

  // ---------- the decoder ----------

  /** The character an entity at the front of `s` stands for, and the length of the entity. */
  function EntityAt(s: string): Option<(char, nat)> {
    if "&amp;" <= s then Some(('&', 5))
    else if "&lt;" <= s then Some(('<', 4))
    else if "&gt;" <= s then Some(('>', 4))
    else if "&quot;" <= s then Some(('"', 6))
    else if "&apos;" <= s then Some(('\'', 6))
    else None
  }

  function Unescape(s: string): Option<string>
    decreases |s|
  {
    if s == "" then Some("")
    else if s[0] != '&' then
      match Unescape(s[1..]) case Some(t) => Some([s[0]] + t) case None => None
    else
      match EntityAt(s)
      case None => None
      case Some((c, n)) =>
        if n > |s| then None
        else match Unescape(s[n..]) case Some(t) => Some([c] + t) case None => None
  }

  lemma EntityIsRead(c: char, rest: string)
    requires IsSpecial(c)
    ensures EntityAt(Entity(c) + rest) == Some((c, |Entity(c)|))
    ensures (Entity(c) + rest)[0] == '&'
  {
    var s := Entity(c) + rest;
    assert s[..|Entity(c)|] == Entity(c);
    assert s[1] == Entity(c)[1] && s[2] == Entity(c)[2];
  }

  lemma UnescapeInvertsEscape(s: string)
    ensures Unescape(EscapeXml(s)) == Some(s)
  {
    ChainIsOnePass(s);
    UnescapeEach(s);
  }

  lemma {:induction false} UnescapeEach(s: string)
    ensures Unescape(EscapeEach(s)) == Some(s)
  {
    if s == "" {
    } else {
      UnescapeEach(s[1..]);
      var rest := EscapeEach(s[1..]);
      assert (Entity(s[0]) + rest)[|Entity(s[0])|..] == rest;
      if IsSpecial(s[0]) { EntityIsRead(s[0], rest); }
      assert s == [s[0]] + s[1..];
    }
  }

  /** The output contains no bare markup character: every ampersand begins an entity. */
  ghost predicate NoMarkup(s: string) {
    forall i | 0 <= i < |s| :: IsSpecial(s[i]) ==> s[i] == '&' && EntityAt(s[i..]).Some?
  }

  lemma {:induction false} EscapedHasNoMarkup(s: string)
    ensures NoMarkup(EscapeXml(s))
  {
    ChainIsOnePass(s);
    if s == "" {
    } else {
      ChainIsOnePass(s[1..]);
      EscapedHasNoMarkup(s[1..]);
      var head, rest := Entity(s[0]), EscapeEach(s[1..]);
      var out := head + rest;
      forall i | 0 <= i < |out| && IsSpecial(out[i]) ensures out[i] == '&' && EntityAt(out[i..]).Some? {
        if i < |head| {
          OnlyAmpersandIsSpecial(s[0], i);
          EntityIsRead(s[0], rest);
          assert out[0..] == out;
        } else {
          assert out[i..] == rest[i - |head|..];
        }
      }
    }
  }

  /** Escaping leaves a string alone exactly when it contains none of the five characters. */
  lemma {:induction false} EscapeIsIdentityOnPlain(s: string)
    ensures |s| <= |EscapeXml(s)|
    ensures EscapeXml(s) == s <==> Plain(s)
    ensures |EscapeXml(s)| == |s| <==> Plain(s)
  {
    ChainIsOnePass(s);
    if s == "" {
    } else {
      ChainIsOnePass(s[1..]);
      EscapeIsIdentityOnPlain(s[1..]);
      assert Plain(s) <==> !IsSpecial(s[0]) && Plain(s[1..]);
      assert s == [s[0]] + s[1..];
    }
  }

  predicate BeginsEntity(rest: string) {
    "amp;" <= rest || "lt;" <= rest || "gt;" <= rest || "quot;" <= rest || "apos;" <= rest
  }

  /** An ampersand that begins none of the five entities makes the text unreadable. */
  lemma {:induction false} BareAmpersandIsRefused(front: string, rest: string)
    requires '&' !in front && !BeginsEntity(rest)
    ensures Unescape(front + ['&'] + rest) == None
  {
    if front == "" {
      var s := ['&'] + rest;
      assert front + ['&'] + rest == s && s[1..] == rest;
      NoEntityAt(s);
    } else {
      BareAmpersandIsRefused(front[1..], rest);
      assert (front + ['&'] + rest)[1..] == front[1..] + ['&'] + rest;
    }
  }

  lemma BehindAmpersand(s: string, word: string, entity: string)
    requires s != "" && entity == ['&'] + word
    ensures entity <= s ==> word <= s[1..]
  {
  }

  lemma NoEntityAt(s: string)
    requires s != "" && s[0] == '&' && !BeginsEntity(s[1..])
    ensures EntityAt(s) == None
  {
    BehindAmpersand(s, "amp;", "&amp;");
    BehindAmpersand(s, "lt;", "&lt;");
    BehindAmpersand(s, "gt;", "&gt;");
    BehindAmpersand(s, "quot;", "&quot;");
    BehindAmpersand(s, "apos;", "&apos;");
  }
}
