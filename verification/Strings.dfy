/**
  Searching, trimming and splitting as Rust's `str` has them. White space is what has the
  Unicode property White_Space; `lines` ends lines at a line feed, drops one carriage return
  before it, and yields nothing behind the last one; `split` yields one part more than there
  are separators, empty parts included.
 */
module Strings {
  import opened Collections

  /** The position of the first `c` in `s`, or its length. */
  function Find(s: string, c: char): (n: nat)
    ensures n <= |s| && (n < |s| ==> s[n] == c)
    ensures forall i | 0 <= i < n :: s[i] != c
  {
    if s == "" || s[0] == c then 0 else 1 + Find(s[1..], c)
  }

  /** The characters with the Unicode property White_Space. */
  predicate IsWhitespace(c: char) {
    '\t' <= c <= '\r' || c == ' ' || c == '\U{85}' || c == '\U{A0}' || c == '\U{1680}' ||
    '\U{2000}' <= c <= '\U{200A}' || c == '\U{2028}' || c == '\U{2029}' || c == '\U{202F}' ||
    c == '\U{205F}' || c == '\U{3000}'
  }

  predicate AllWhitespace(s: string) { forall i | 0 <= i < |s| :: IsWhitespace(s[i]) }

  function TrimStart(s: string): string {
    if s != "" && IsWhitespace(s[0]) then TrimStart(s[1..]) else s
  }

  function TrimEnd(s: string): string {
    if s != "" && IsWhitespace(s[|s| - 1]) then TrimEnd(s[..|s| - 1]) else s
  }

  function Trim(s: string): string { TrimEnd(TrimStart(s)) }

  lemma {:induction false} TrimStartStops(s: string)
    ensures TrimStart(s) != "" ==> !IsWhitespace(TrimStart(s)[0])
    ensures TrimStart(s) == "" <==> AllWhitespace(s)
  {
    if s != "" && IsWhitespace(s[0]) {
      TrimStartStops(s[1..]);
      assert AllWhitespace(s) <==> AllWhitespace(s[1..]);
    }
  }

  lemma {:induction false} TrimEndStops(s: string)
    requires s != "" ==> !IsWhitespace(s[0])
    ensures IsTrimmed(TrimEnd(s)) && (TrimEnd(s) == "" <==> s == "")
  {
    if s != "" && IsWhitespace(s[|s| - 1]) { TrimEndStops(s[..|s| - 1]); }
  }

  /** Nothing but white space is trimmed, and all of it. */
  lemma TrimIsTrimmed(s: string)
    ensures IsTrimmed(Trim(s)) && (Trim(s) == "" <==> AllWhitespace(s))
  {
    TrimStartStops(s);
    TrimEndStops(TrimStart(s));
  }

  /** Text without white space at either end. */
  predicate IsTrimmed(s: string) { s != "" ==> !IsWhitespace(s[0]) && !IsWhitespace(s[|s| - 1]) }

  lemma {:induction false} TrimStartForgets(front: string, s: string)
    requires AllWhitespace(front) && (s != "" ==> !IsWhitespace(s[0]))
    ensures TrimStart(front + s) == s
  {
    if front == "" {
      assert front + s == s;
    } else {
      assert (front + s)[1..] == front[1..] + s;
      TrimStartForgets(front[1..], s);
    }
  }

  lemma {:induction false} TrimEndForgets(s: string, back: string)
    requires AllWhitespace(back) && (s != "" ==> !IsWhitespace(s[|s| - 1]))
    ensures TrimEnd(s + back) == s
  {
    if back == "" {
      assert s + back == s;
    } else {
      assert (s + back)[..|s + back| - 1] == s + back[..|back| - 1];
      TrimEndForgets(s, back[..|back| - 1]);
    }
  }

  /** Trimming forgets white space added at either end. */
  lemma TrimForgetsPadding(front: string, s: string, back: string)
    requires AllWhitespace(front) && AllWhitespace(back) && IsTrimmed(s) && s != ""
    ensures Trim(front + s + back) == s
  {
    Associative(front, s, back);
    TrimStartForgets(front, s + back);
    TrimEndForgets(s, back);
  }

  // ---------- splitting ----------

  /** `str::split` at one character. */
  function Split(s: string, c: char): (parts: seq<string>)
    ensures parts != [] && forall i | 0 <= i < |parts| :: c !in parts[i]
    decreases |s|
  {
    var n := Find(s, c);
    if n == |s| then [s] else [s[..n]] + Split(s[n + 1..], c)
  }

  /** `join` with a one-character separator. */
  function Join(parts: seq<string>, c: char): string {
    if parts == [] then ""
    else if |parts| == 1 then parts[0]
    else parts[0] + [c] + Join(parts[1..], c)
  }

  lemma FindAfter(a: string, c: char, b: string)
    requires c !in a
    ensures Find(a + [c] + b, c) == |a|
    ensures (a + [c] + b)[..|a|] == a && (a + [c] + b)[|a| + 1..] == b
  {
    var s := a + [c] + b;
    assert s[|a|] == c && forall i | 0 <= i < |a| :: s[i] == a[i];
  }

  lemma {:induction false} SplitInvertsJoin(parts: seq<string>, c: char)
    requires parts != [] && forall i | 0 <= i < |parts| :: c !in parts[i]
    ensures Split(Join(parts, c), c) == parts
  {
    if |parts| == 1 {
    } else {
      FindAfter(parts[0], c, Join(parts[1..], c));
      SplitInvertsJoin(parts[1..], c);
    }
  }

  /** `str::lines`: a carriage return before a line break belongs to the break. */
  function Lines(s: string): seq<string>
    decreases |s|
  {
    if s == "" then []
    else
      var n := Find(s, '\n');
      if n == |s| then [s] else [WithoutReturn(s[..n])] + Lines(s[n + 1..])
  }

  function WithoutReturn(line: string): string {
    if line != "" && line[|line| - 1] == '\r' then line[..|line| - 1] else line
  }

  function Unlines(lines: seq<string>): string {
    if lines == [] then "" else lines[0] + "\n" + Unlines(lines[1..])
  }

  predicate IsLine(s: string) { '\n' !in s && (s != "" ==> s[|s| - 1] != '\r') }

  lemma {:induction false} LinesInvertUnlines(lines: seq<string>)
    requires forall i | 0 <= i < |lines| :: IsLine(lines[i])
    ensures Lines(Unlines(lines)) == lines
  {
    if lines == [] {
    } else {
      FindAfter(lines[0], '\n', Unlines(lines[1..]));
      LinesInvertUnlines(lines[1..]);
    }
  }

  // ---------- lines of the form name=value ----------

  lemma MarksAreVisible(c: char)
    requires c == '#' || c == ';' || c == '[' || c == '='
    ensures !IsWhitespace(c)
  {
  }

  /** What does not begin with white space keeps its first character. */
  lemma {:induction false} TrimEndKeepsFirst(s: string)
    requires s != "" && !IsWhitespace(s[0])
    ensures TrimEnd(s) != "" && TrimEnd(s)[0] == s[0]
  {
    if IsWhitespace(s[|s| - 1]) { TrimEndKeepsFirst(s[..|s| - 1]); }
  }

  /** The trimmed line, cut at its first equals sign. */
  lemma SettingIsCut(front: string, name: string, before: string, after: string, value: string, back: string)
    requires name != "" && IsTrimmed(name) && '=' !in name && IsTrimmed(value)
    requires AllWhitespace(front) && AllWhitespace(before) && AllWhitespace(after) && AllWhitespace(back)
    ensures var line := Trim(front + (name + before + "=" + after + value) + back);
            var eq := Find(line, '=');
            && eq < |line| && line[0] == name[0]
            && Trim(line[..eq]) == name && Trim(line[eq + 1..]) == value
  {
    var tail := if value == "" then "" else after + value;
    var core := name + before + "=" + tail;
    CoreIsTrimmed(front, name, before, after, value, back);
    NoEqualsInSpace(before);
    FindAfter(name + before, '=', tail);
    assert name + before + ['='] + tail == core;
    TrimOfName(name, before);
    TrimOfValue(after, value);
  }

  lemma CoreIsTrimmed(front: string, name: string, before: string, after: string, value: string, back: string)
    requires name != "" && IsTrimmed(name) && IsTrimmed(value)
    requires AllWhitespace(front) && AllWhitespace(before) && AllWhitespace(after) && AllWhitespace(back)
    ensures Trim(front + (name + before + "=" + after + value) + back)
            == name + before + "=" + if value == "" then "" else after + value
  {
    MarksAreVisible('=');
    var core := name + before + "=" + after + value;
    if value == "" {
      assert front + core + back == front + (name + before + "=") + (after + back);
      TrimForgetsPadding(front, name + before + "=", after + back);
      assert name + before + "=" + "" == name + before + "=";
    } else {
      assert core[|core| - 1] == value[|value| - 1] && core[0] == name[0];
      TrimForgetsPadding(front, core, back);
      assert core == name + before + "=" + (after + value);
    }
  }

  lemma NoEqualsInSpace(space: string)
    requires AllWhitespace(space)
    ensures '=' !in space
  {
    MarksAreVisible('=');
  }

  lemma TrimOfName(name: string, before: string)
    requires name != "" && IsTrimmed(name) && AllWhitespace(before)
    ensures Trim(name + before) == name
  {
    TrimForgetsPadding("", name, before);
    assert "" + name + before == name + before;
  }

  lemma TrimOfValue(after: string, value: string)
    requires IsTrimmed(value) && AllWhitespace(after)
    ensures Trim(if value == "" then "" else after + value) == value
  {
    if value != "" {
      TrimForgetsPadding(after, value, "");
      assert after + value + "" == after + value;
    }
  }

  lemma TrimKeepsOut(s: string, c: char)
    requires c !in s
    ensures c !in Trim(s)
  {
    TrimStartKeepsOut(s, c);
    TrimEndKeepsOut(TrimStart(s), c);
  }

  lemma {:induction false} TrimStartKeepsOut(s: string, c: char)
    requires c !in s
    ensures c !in TrimStart(s)
  {
    if s != "" && IsWhitespace(s[0]) { TrimStartKeepsOut(s[1..], c); }
  }

  lemma {:induction false} TrimEndKeepsOut(s: string, c: char)
    requires c !in s
    ensures c !in TrimEnd(s)
  {
    if s != "" && IsWhitespace(s[|s| - 1]) { TrimEndKeepsOut(s[..|s| - 1], c); }
  }

  /** The characters with the Unicode property White_Space, one by one. */
  lemma WhiteSpaceCharacters(c: char)
    ensures IsWhitespace(c) <==>
              c in {'\U{9}', '\U{A}', '\U{B}', '\U{C}', '\U{D}', '\U{20}', '\U{85}', '\U{A0}', '\U{1680}', '\U{2000}',
                    '\U{2001}', '\U{2002}', '\U{2003}', '\U{2004}', '\U{2005}', '\U{2006}', '\U{2007}', '\U{2008}',
                    '\U{2009}', '\U{200A}', '\U{2028}', '\U{2029}', '\U{202F}', '\U{205F}', '\U{3000}'}
  {
  }

  /** A line feed ends a line, together with one carriage return before it; what follows the last one may be a line. */
  lemma LinesAreCut(line: string, rest: string)
    requires '\n' !in line
    ensures Lines(line + ['\r', '\n'] + rest) == [line] + Lines(rest)
    ensures (line != "" ==> line[|line| - 1] != '\r') ==> Lines(line + ['\n'] + rest) == [line] + Lines(rest)
    ensures line != "" ==> Lines(line) == [line]
  {
    FindAfter(line, '\n', rest);
    FindAfter(line + ['\r'], '\n', rest);
    assert line + ['\r'] + ['\n'] + rest == line + ['\r', '\n'] + rest;
    assert (line + ['\r'])[..|line|] == line;
    assert Find(line, '\n') == |line|;
  }
}
