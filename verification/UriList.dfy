/**
  The URI list file: blocks of URIs with their options. A line that is neither blank nor a
  comment nor indented begins a new entry with its tab-separated URIs; indented lines carry the
  options of the entry under way, or of the next one if there is none; a blank line ends an
  entry and forgets options without URIs. The parser's loop is proved equal to a fold over the
  lines, of which the properties are then proved.
 */
module UriList {
  import opened Collections
  import opened Strings

  datatype Entry = Entry(uris: seq<string>, options: map<string, string>)

  type Option = (string, string)

  // ---------- what a file says ----------

  predicate IsBlank(raw: string) { Trim(raw) == "" }

  predicate IsComment(raw: string) { Trim(raw) != "" && Trim(raw)[0] == '#' }

  predicate IsIndented(raw: string) { raw != "" && (raw[0] == ' ' || raw[0] == '\t') }

  predicate IsUriLine(raw: string) { !IsBlank(raw) && !IsComment(raw) && !IsIndented(raw) }

  /** A part as a token, unless it is blank. */
  function Token(part: string): seq<string> { if Trim(part) == "" then [] else [Trim(part)] }

  function NonEmpty(parts: seq<string>): seq<string> {
    if parts == [] then [] else Token(parts[0]) + NonEmpty(parts[1..])
  }

  function Tokens(raw: string): seq<string> { NonEmpty(Split(Trim(raw), '\t')) }

  /** The tokens of all lines that are not blank, comments or indented, in order. */
  function UriTokens(lines: seq<string>): seq<string> {
    if lines == [] then [] else (if IsUriLine(lines[0]) then Tokens(lines[0]) else []) + UriTokens(lines[1..])
  }

  function AllUris(entries: seq<Entry>): seq<string> {
    if entries == [] then [] else AllUris(entries[..|entries| - 1]) + entries[|entries| - 1].uris
  }

  /** What the loop has gathered: finished entries, and the URIs and options of the one under way. */
  datatype State = State(entries: seq<Entry>, uris: seq<string>, options: map<string, string>)

  function Finished(st: State): seq<Entry> {
    if st.uris == [] then st.entries else st.entries + [Entry(st.uris, st.options)]
  }

  /** The state after pushing the entry under way, if it has URIs. */
  function Pushed(st: State): State {
    if st.uris == [] then st else State(Finished(st), [], map[])
  }

  function WithOption(options: map<string, string>, line: string): map<string, string> {
    var n := Find(line, '=');
    if n == |line| then options else options[Trim(line[..n]) := Trim(line[n + 1..])]
  }

  function Step(st: State, raw: string): State {
    if IsBlank(raw) then State(Finished(st), [], map[])
    else if IsComment(raw) then st
    else if IsIndented(raw) then st.(options := WithOption(st.options, Trim(raw)))
    else Pushed(st).(uris := Tokens(raw))
  }

  function Run(st: State, lines: seq<string>): State
    decreases lines
  {
    if lines == [] then st else Run(Step(st, lines[0]), lines[1..])
  }

  function Parsed(content: string): seq<Entry> { Finished(Run(State([], [], map[]), Lines(content))) }

  // ---------- the parser ----------

  class UriListFile {
    var entries: seq<Entry>

    constructor ()
      ensures entries == []
    {
      entries := [];
    }

    method Parse(content: string)
      modifies this
      ensures entries == old(entries) + Parsed(content)
    {
      var uris, options := [], map[];
      var lines := Lines(content);
      ghost var last := Run(State(entries, [], map[]), lines);
      assert Finished(last) == entries + Parsed(content) by {
        EntriesInFront(entries, State([], [], map[]), lines);
        assert entries + [] == entries;
      }
      for i := 0 to |lines|
        invariant last == Run(State(entries, uris, options), lines[i..])
      {
        var raw, line := lines[i], Trim(lines[i]);
        ghost var st := State(entries, uris, options);
        NextLine(st, lines, i);
        if line == "" || line[0] == '#' {
          if line == "" && uris != [] {
            entries := entries + [Entry(uris, options)];
            uris, options := [], map[];
          } else if line == "" {
            options := map[];
          }
        } else if raw[0] == ' ' || raw[0] == '\t' {
          var eq := Find(line, '=');
          if eq < |line| {
            options := options[Trim(line[..eq]) := Trim(line[eq + 1..])];
          }
        } else {
          if uris != [] {
            entries := entries + [Entry(uris, options)];
            uris, options := [], map[];
          }
          var tokens := NonEmpty(Split(line, '\t'));
          TrimIsTrimmed(raw);
          LineHasTokens(line);
          if tokens != [] { uris := tokens; }
        }
        assert State(entries, uris, options) == Step(st, raw);
      }
      if uris != [] { entries := entries + [Entry(uris, options)]; }
    }
  }

  lemma NextLine(st: State, lines: seq<string>, i: nat)
    requires i < |lines|
    ensures Run(st, lines[i..]) == Run(Step(st, lines[i]), lines[i + 1..])
  {
    assert lines[i..][1..] == lines[i + 1..];
  }

  lemma FinishedInFront(front: seq<Entry>, st: State)
    ensures Finished(st.(entries := front + st.entries)) == front + Finished(st)
  {
  }

  /** Entries already there stay in front and change nothing else. */
  lemma {:induction false} EntriesInFront(front: seq<Entry>, st: State, lines: seq<string>)
    ensures Finished(Run(st.(entries := front + st.entries), lines)) == front + Finished(Run(st, lines))
    decreases lines
  {
    FinishedInFront(front, st);
    if lines == [] {
    } else {
      assert Step(st.(entries := front + st.entries), lines[0])
          == Step(st, lines[0]).(entries := front + Step(st, lines[0]).entries);
      EntriesInFront(front, Step(st, lines[0]), lines[1..]);
    }
  }

  // ---------- URIs of any file ----------

  /** A line with anything on it has a token. */
  lemma LineHasTokens(line: string)
    requires line != "" && !IsWhitespace(line[0])
    ensures NonEmpty(Split(line, '\t')) != []
  {
    TrimIsTrimmed(Split(line, '\t')[0]);
    assert !AllWhitespace(Split(line, '\t')[0]);
    assert Token(Split(line, '\t')[0]) != [];
  }

  lemma FinishedUris(st: State)
    ensures AllUris(Finished(st)) == AllUris(st.entries) + st.uris
  {
    if st.uris != [] { assert Finished(st)[..|Finished(st)| - 1] == st.entries; }
  }

  lemma StateUris(finished: seq<Entry>, uris: seq<string>, options: map<string, string>)
    ensures AllUris(Finished(State(finished, uris, options))) == AllUris(finished) + uris
  {
    FinishedUris(State(finished, uris, options));
  }

  lemma StepUris(st: State, raw: string)
    ensures AllUris(Finished(Step(st, raw))) == AllUris(Finished(st)) + if IsUriLine(raw) then Tokens(raw) else []
  {
    if IsBlank(raw) {
      StateUris(Finished(st), [], map[]);
    } else if IsUriLine(raw) {
      StateUris(Finished(st), Tokens(raw), Step(st, raw).options);
      assert Pushed(st).entries == Finished(st);
    } else {
      StateUris(st.entries, st.uris, st.options);
      StateUris(st.entries, st.uris, Step(st, raw).options);
    }
  }

  lemma {:induction false} RunUris(st: State, lines: seq<string>)
    ensures AllUris(Finished(Run(st, lines))) == AllUris(Finished(st)) + UriTokens(lines)
    decreases lines
  {
    if lines == [] {
    } else {
      StepUris(st, lines[0]);
      RunUris(Step(st, lines[0]), lines[1..]);
      Associative(AllUris(Finished(st)), if IsUriLine(lines[0]) then Tokens(lines[0]) else [], UriTokens(lines[1..]));
    }
  }

  /** No URI is lost, invented, duplicated or moved, whatever the file contains. */
  lemma AllUrisAreTheTokens(content: string)
    ensures AllUris(Parsed(content)) == UriTokens(Lines(content))
  {
    RunUris(State([], [], map[]), Lines(content));
  }

  lemma {:induction false} RunIsValid(st: State, lines: seq<string>)
    requires forall e | e in st.entries :: e.uris != []
    ensures forall e | e in Finished(Run(st, lines)) :: e.uris != []
    decreases lines
  {
    if lines == [] {
    } else {
      RunIsValid(Step(st, lines[0]), lines[1..]);
    }
  }

  /** Every entry is valid. */
  lemma EntriesAreValid(content: string)
    ensures forall e | e in Parsed(content) :: e.uris != []
  {
    RunIsValid(State([], [], map[]), Lines(content));
  }

  // ---------- printing entries ----------

  /** An entry as written: options before and after its URI line, and perhaps a blank line. */
  datatype Block = Block(before: seq<Option>, uris: seq<string>, after: seq<Option>, blank: bool)

  function Insert(options: map<string, string>, new_: seq<Option>): map<string, string>
    decreases new_
  {
    if new_ == [] then options else Insert(options[new_[0].0 := new_[0].1], new_[1..])
  }

  /** The entry a block stands for; the last value of an option counts. */
  function EntryOf(b: Block): Entry { Entry(b.uris, Insert(Insert(map[], b.before), b.after)) }

  predicate CleanUri(uri: string) { uri != "" && IsTrimmed(uri) && '\t' !in uri && '\n' !in uri }

  predicate CleanOption(o: Option) {
    IsTrimmed(o.0) && IsTrimmed(o.1) && '=' !in o.0 && '\n' !in o.0 && '\n' !in o.1 && (o.0 != "" ==> o.0[0] != '#')
  }

  predicate CleanOptions(os: seq<Option>) { forall i | 0 <= i < |os| :: CleanOption(os[i]) }

  predicate CleanUris(uris: seq<string>) {
    uris != [] && (forall i | 0 <= i < |uris| :: CleanUri(uris[i])) && uris[0][0] != '#'
  }

  predicate WellFormed(b: Block) { CleanOptions(b.before) && CleanOptions(b.after) && CleanUris(b.uris) }

  function OptionLine(o: Option): string { "  " + (o.0 + "=" + o.1) }

  function OptionLines(os: seq<Option>): (lines: seq<string>)
    ensures |lines| == |os| && forall i | 0 <= i < |os| :: lines[i] == OptionLine(os[i])
  {
    if os == [] then [] else [OptionLine(os[0])] + OptionLines(os[1..])
  }

  function UriLine(uris: seq<string>): string { Join(uris, '\t') }

  function BlockLines(b: Block): seq<string> {
    OptionLines(b.before) + [UriLine(b.uris)] + OptionLines(b.after) + if b.blank then [""] else []
  }

  function AllLines(blocks: seq<Block>): seq<string> {
    if blocks == [] then [] else BlockLines(blocks[0]) + AllLines(blocks[1..])
  }

  function EntriesOf(blocks: seq<Block>): seq<Entry> {
    if blocks == [] then [] else [EntryOf(blocks[0])] + EntriesOf(blocks[1..])
  }

  // ---------- reading printed entries ----------

  lemma {:induction false} RunAppend(st: State, a: seq<string>, b: seq<string>)
    ensures Run(st, a + b) == Run(Run(st, a), b)
    decreases a
  {
    if a == [] {
      assert a + b == b;
    } else {
      assert (a + b)[1..] == a[1..] + b;
      RunAppend(Step(st, a[0]), a[1..], b);
    }
  }

  lemma OptionLineIsRead(st: State, o: Option)
    requires CleanOption(o)
    ensures Step(st, OptionLine(o)) == st.(options := st.options[o.0 := o.1])
    ensures IsLine(OptionLine(o))
  {
    var text := o.0 + "=" + o.1;
    assert text[|o.0|] == '=' && OptionLine(o)[|OptionLine(o)| - 1] == text[|text| - 1];
    TrimForgetsPadding("  ", text, "");
    assert "  " + text + "" == "  " + text;
    FindAfter(o.0, '=', o.1);
  }

  lemma {:induction false} OptionLinesAreRead(st: State, os: seq<Option>)
    requires CleanOptions(os)
    ensures Run(st, OptionLines(os)) == st.(options := Insert(st.options, os))
    decreases os
  {
    if os == [] {
    } else {
      OptionLineIsRead(st, os[0]);
      assert OptionLines(os)[1..] == OptionLines(os[1..]);
      OptionLinesAreRead(st.(options := st.options[os[0].0 := os[0].1]), os[1..]);
    }
  }

  lemma {:induction false} CleanPartsStay(uris: seq<string>)
    requires forall i | 0 <= i < |uris| :: CleanUri(uris[i])
    ensures NonEmpty(uris) == uris
  {
    if uris == [] {
    } else {
      CleanPartsStay(uris[1..]);
    }
  }

  /** The ends of a joined line are the ends of its parts. */
  lemma {:induction false} JoinedEnds(uris: seq<string>)
    requires uris != [] && forall i | 0 <= i < |uris| :: CleanUri(uris[i])
    ensures var s := UriLine(uris);
            s != "" && uris[0] != "" && s[0] == uris[0][0] && !IsWhitespace(s[|s| - 1]) && '\n' !in s
  {
    if |uris| > 1 { JoinedEnds(uris[1..]); }
  }

  lemma UriLineIsRead(uris: seq<string>)
    requires CleanUris(uris)
    ensures IsUriLine(UriLine(uris)) && Tokens(UriLine(uris)) == uris && IsLine(UriLine(uris))
  {
    JoinedEnds(uris);
    SplitInvertsJoin(uris, '\t');
    CleanPartsStay(uris);
  }

  lemma BlankLineIsRead(st: State)
    ensures Step(st, "") == State(Finished(st), [], map[])
  {
  }

  /** Options before the URI line need an idle state: they would go to the entry under way. */
  lemma BlockIsRead(st: State, b: Block)
    requires WellFormed(b) && (st.uris == [] ==> st.options == map[]) && (b.before == [] || st.uris == [])
    ensures Run(st, BlockLines(b))
            == if b.blank then State(Finished(st) + [EntryOf(b)], [], map[])
               else State(Finished(st), b.uris, EntryOf(b).options)
  {
    var front := OptionLines(b.before) + [UriLine(b.uris)];
    var tail := if b.blank then [""] else [];
    RunAppend(st, front + OptionLines(b.after), tail);
    RunAppend(st, front, OptionLines(b.after));
    RunAppend(st, OptionLines(b.before), [UriLine(b.uris)]);
    OptionLinesAreRead(st, b.before);
    var afterBefore := Run(st, OptionLines(b.before));
    UriLineIsRead(b.uris);
    OneLine(afterBefore, UriLine(b.uris));
    var afterUris := Step(afterBefore, UriLine(b.uris));
    assert afterUris == State(Finished(st), b.uris, Insert(map[], b.before));
    OptionLinesAreRead(afterUris, b.after);
    var afterAll := Run(afterUris, OptionLines(b.after));
    if b.blank {
      OneLine(afterAll, "");
      BlankLineIsRead(afterAll);
    }
  }

  lemma OneLine(st: State, line: string)
    ensures Run(st, [line]) == Step(st, line)
  {
    assert [line][1..] == [];
  }

  /** Options before a URI line are its own only at the start or after a blank line. */
  predicate Separated(blocks: seq<Block>) {
    forall i | 0 < i < |blocks| :: blocks[i].before == [] || blocks[i - 1].blank
  }

  lemma BlockAddsEntry(st: State, b: Block)
    requires WellFormed(b) && (st.uris == [] ==> st.options == map[]) && (b.before == [] || st.uris == [])
    ensures var after := Run(st, BlockLines(b));
            Finished(after) == Finished(st) + [EntryOf(b)] && (after.uris == [] ==> after.options == map[])
            && (b.blank ==> after.uris == [])
  {
    BlockIsRead(st, b);
  }

  lemma AfterFirst(blocks: seq<Block>)
    requires blocks != [] && Separated(blocks)
    ensures Separated(blocks[1..]) && (|blocks| > 1 ==> blocks[1..][0].before == [] || blocks[0].blank)
  {
  }

  lemma {:induction false} BlocksAreRead(st: State, blocks: seq<Block>)
    requires (forall i | 0 <= i < |blocks| :: WellFormed(blocks[i])) && Separated(blocks)
    requires st.uris == [] ==> st.options == map[]
    requires blocks != [] ==> blocks[0].before == [] || st.uris == []
    ensures Finished(Run(st, AllLines(blocks))) == Finished(st) + EntriesOf(blocks)
    decreases blocks
  {
    if blocks == [] {
    } else {
      var after := Run(st, BlockLines(blocks[0]));
      BlockAddsEntry(st, blocks[0]);
      AfterFirst(blocks);
      BlocksAreRead(after, blocks[1..]);
      RunAppend(st, BlockLines(blocks[0]), AllLines(blocks[1..]));
      Associative(Finished(st), [EntryOf(blocks[0])], EntriesOf(blocks[1..]));
    }
  }

  lemma BlockLinesAreLines(b: Block)
    requires WellFormed(b)
    ensures forall i | 0 <= i < |BlockLines(b)| :: IsLine(BlockLines(b)[i])
  {
    UriLineIsRead(b.uris);
    forall o | CleanOption(o) ensures IsLine(OptionLine(o)) { OptionLineIsRead(State([], [], map[]), o); }
  }

  lemma {:induction false} AllLinesAreLines(blocks: seq<Block>)
    requires forall i | 0 <= i < |blocks| :: WellFormed(blocks[i])
    ensures forall i | 0 <= i < |AllLines(blocks)| :: IsLine(AllLines(blocks)[i])
  {
    if blocks == [] {
    } else {
      BlockLinesAreLines(blocks[0]);
      AllLinesAreLines(blocks[1..]);
    }
  }

  /** A file written block by block is read as the entries it was written from. */
  lemma PrintedBlocksAreRead(blocks: seq<Block>)
    requires (forall i | 0 <= i < |blocks| :: WellFormed(blocks[i])) && Separated(blocks)
    ensures Parsed(Unlines(AllLines(blocks))) == EntriesOf(blocks)
  {
    AllLinesAreLines(blocks);
    LinesInvertUnlines(AllLines(blocks));
    BlocksAreRead(State([], [], map[]), blocks);
  }

  // ---------- any order of the options ----------

  /** Each option of the map, once, in any order. */
  ghost predicate Lists(os: seq<Option>, m: map<string, string>) {
    (forall i, j | 0 <= i < j < |os| :: os[i].0 != os[j].0) &&
    (forall i | 0 <= i < |os| :: os[i].0 in m && m[os[i].0] == os[i].1) &&
    forall name | name in m :: exists i | 0 <= i < |os| :: os[i].0 == name
  }

  lemma {:induction false} InsertAppend(options: map<string, string>, a: seq<Option>, b: seq<Option>)
    ensures Insert(options, a + b) == Insert(Insert(options, a), b)
    decreases a
  {
    if a == [] {
      assert a + b == b;
    } else {
      assert (a + b)[1..] == a[1..] + b;
      InsertAppend(options[a[0].0 := a[0].1], a[1..], b);
    }
  }

  lemma FrontLists(os: seq<Option>, m: map<string, string>)
    requires os != [] && Lists(os, m)
    ensures Lists(os[..|os| - 1], m - {os[|os| - 1].0})
  {
    var n := |os| - 1;
    forall name | name in m - {os[n].0} ensures exists i | 0 <= i < n :: os[..n][i].0 == name {
      var i :| 0 <= i < |os| && os[i].0 == name;
      assert os[..n][i].0 == name;
    }
  }

  lemma InsertLast(os: seq<Option>)
    requires os != []
    ensures Insert(map[], os) == Insert(map[], os[..|os| - 1])[os[|os| - 1].0 := os[|os| - 1].1]
  {
    var front, last := os[..|os| - 1], os[|os| - 1];
    assert os == front + [last] && [last][1..] == [];
    InsertAppend(map[], front, [last]);
  }

  lemma {:induction false} InsertListed(os: seq<Option>, m: map<string, string>)
    requires Lists(os, m)
    ensures Insert(map[], os) == m
    decreases |os|
  {
    if os == [] {
      assert m == map[];
    } else {
      var last := os[|os| - 1];
      FrontLists(os, m);
      InsertListed(os[..|os| - 1], m - {last.0});
      InsertLast(os);
    }
  }

  ghost predicate Writes(b: Block, e: Entry) { b.uris == e.uris && Lists(b.before + b.after, e.options) }

  lemma {:induction false} BlocksWriteEntries(blocks: seq<Block>, entries: seq<Entry>)
    requires |blocks| == |entries| && forall i | 0 <= i < |blocks| :: Writes(blocks[i], entries[i])
    ensures EntriesOf(blocks) == entries
  {
    if blocks == [] {
    } else {
      InsertAppend(map[], blocks[0].before, blocks[0].after);
      InsertListed(blocks[0].before + blocks[0].after, entries[0].options);
      BlocksWriteEntries(blocks[1..], entries[1..]);
    }
  }

  /** Entries survive being written and read, however their options are ordered and placed. */
  lemma EntriesRoundTrip(blocks: seq<Block>, entries: seq<Entry>)
    requires (forall i | 0 <= i < |blocks| :: WellFormed(blocks[i])) && Separated(blocks)
    requires |blocks| == |entries| && forall i | 0 <= i < |blocks| :: Writes(blocks[i], entries[i])
    ensures Parsed(Unlines(AllLines(blocks))) == entries
  {
    PrintedBlocksAreRead(blocks);
    BlocksWriteEntries(blocks, entries);
  }

  // ---------- single lines, told by how they are written ----------

  /** A comment may be indented. */
  lemma CommentSaysNothing(st: State, front: string, text: string)
    requires AllWhitespace(front)
    ensures Step(st, front + ("#" + text)) == st
  {
    TrimStartForgets(front, "#" + text);
    TrimEndKeepsFirst("#" + text);
  }

  /** A line of white space ends the entry and forgets options that belong to none. */
  lemma BlankLineEnds(st: State, space: string)
    requires AllWhitespace(space)
    ensures Step(st, space)
            == State(if st.uris == [] then st.entries else st.entries + [Entry(st.uris, st.options)], [], map[])
  {
    TrimIsTrimmed(space);
  }

  predicate IsOptionText(name: string) { IsTrimmed(name) && name != "" && '=' !in name && name[0] != '#' }

  /** Indented by a space or a tab, `name=value` sets an option, with white space around either. */
  lemma IndentedSetsOption(st: State, indent: char, front: string, name: string, before: string, after: string,
                           value: string, back: string)
    requires (indent == ' ' || indent == '\t') && IsOptionText(name) && IsTrimmed(value)
    requires AllWhitespace(front) && AllWhitespace(before) && AllWhitespace(after) && AllWhitespace(back)
    ensures Step(st, [indent] + front + (name + before + "=" + after + value) + back)
            == st.(options := st.options[name := value])
  {
    SettingIsCut([indent] + front, name, before, after, value, back);
  }

  /** Indented text without an equals sign says nothing. */
  lemma IndentedWithoutEquals(st: State, indent: char, text: string)
    requires (indent == ' ' || indent == '\t') && !AllWhitespace(text) && '=' !in text
    ensures Step(st, [indent] + text) == st
  {
    TrimIsTrimmed([indent] + text);
    TrimKeepsOut([indent] + text, '=');
    assert Find(Trim([indent] + text), '=') == |Trim([indent] + text)|;
    assert !AllWhitespace([indent] + text) by { assert text == ([indent] + text)[1..]; }
  }

  /** Of a line's parts each is a URI without the white space around it, and the blank ones are none. */
  lemma PartIsToken(front: string, uri: string, back: string)
    requires AllWhitespace(front) && AllWhitespace(back) && IsTrimmed(uri)
    ensures Token(front + uri + back) == if uri == "" then [] else [uri]
  {
    if uri == "" {
      TrimIsTrimmed(front + uri + back);
    } else {
      TrimForgetsPadding(front, uri, back);
    }
  }

  /** A line of URIs ends the entry under way and begins the next. */
  lemma UriLineBegins(st: State, parts: seq<string>, back: string)
    requires parts != [] && parts[0] != "" && !IsWhitespace(parts[0][0]) && parts[0][0] != '#'
    requires (forall i | 0 <= i < |parts| :: '\t' !in parts[i]) && AllWhitespace(back)
    requires IsTrimmed(Join(parts, '\t'))
    ensures Step(st, Join(parts, '\t') + back)
            == (if st.uris == [] then st else State(st.entries + [Entry(st.uris, st.options)], [], map[]))
               .(uris := NonEmpty(parts))
  {
    var line := Join(parts, '\t');
    JoinBegins(parts);
    TrimOfLine(line, back);
    SplitInvertsJoin(parts, '\t');
    assert Tokens(line + back) == NonEmpty(parts);
    UriStep(st, line + back);
  }

  lemma TrimOfLine(line: string, back: string)
    requires line != "" && IsTrimmed(line) && AllWhitespace(back)
    ensures Trim(line + back) == line && (line + back)[0] == line[0]
  {
    TrimForgetsPadding("", line, back);
    assert "" + line + back == line + back;
  }

  lemma UriStep(st: State, raw: string)
    requires raw != "" && Trim(raw) != "" && Trim(raw)[0] == raw[0] != '#' && !IsWhitespace(raw[0])
    ensures Step(st, raw) == Pushed(st).(uris := Tokens(raw))
  {
  }

  lemma JoinBegins(parts: seq<string>)
    requires parts != [] && parts[0] != ""
    ensures Join(parts, '\t') != "" && Join(parts, '\t')[0] == parts[0][0]
  {
  }
}
