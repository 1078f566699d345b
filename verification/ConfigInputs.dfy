/** What configuration files, command lines and environments say, told by how they are written. */
module ConfigInputs {
  import opened Wrappers
  import opened Collections
  import opened Strings
  import opened Config
  import opened ConfigStore

  // ---------- configuration files ----------

  /** A line as a user may write it, with white space wherever it is allowed. */
  datatype FileLine =
    | Setting(front: string, name: string, before: string, after: string, value: string, back: string)
    | Alone(front: string, name: string, back: string)
    | Remark(front: string, mark: char, text: string)
    | Blank(space: string)

  function Written(line: FileLine): string {
    match line
    case Setting(front, name, before, after, value, back) => front + (name + before + "=" + after + value) + back
    case Alone(front, name, back) => front + name + back
    case Remark(front, mark, text) => front + ([mark] + text)
    case Blank(space) => space
  }

  predicate IsMark(c: char) { c == '#' || c == ';' || c == '[' }

  predicate IsCleanName(name: string) { name != "" && IsTrimmed(name) && '=' !in name && !IsMark(name[0]) }

  predicate IsWellWritten(line: FileLine) {
    match line
    case Setting(front, name, before, after, value, back) =>
      IsCleanName(name) && IsTrimmed(value)
      && AllWhitespace(front) && AllWhitespace(before) && AllWhitespace(after) && AllWhitespace(back)
    case Alone(front, name, back) => IsCleanName(name) && AllWhitespace(front) && AllWhitespace(back)
    case Remark(front, mark, _) => AllWhitespace(front) && IsMark(mark)
    case Blank(space) => AllWhitespace(space)
  }

  /**
    `name=value` sets the option unless it is known and not supported; a name alone sets a known
    and supported option, to `true` if it is boolean; everything else says nothing.
   */
  function Meaning(reg: Registry, line: FileLine): seq<Change> {
    match line
    case Setting(_, name, _, _, value, _) =>
      if reg.Knows(name) && !reg.Def(name).supported then [] else [Add(name, value, FromFile)]
    case Alone(_, name, _) =>
      if reg.Knows(name) && reg.Def(name).supported
      then [Add(name, if reg.Def(name).isBoolean then "true" else "", FromFile)] else []
    case _ => []
  }

  function AllWritten(lines: seq<FileLine>): seq<string> {
    if lines == [] then [] else AllWritten(lines[..|lines| - 1]) + [Written(lines[|lines| - 1])]
  }

  function AllMeant(reg: Registry, lines: seq<FileLine>): seq<Change> {
    if lines == [] then [] else AllMeant(reg, lines[..|lines| - 1]) + Meaning(reg, lines[|lines| - 1])
  }

  lemma RemarkSaysNothing(reg: Registry, front: string, mark: char, text: string)
    requires AllWhitespace(front) && IsMark(mark)
    ensures LineChange(reg, front + ([mark] + text)) == []
  {
    MarksAreVisible(mark);
    TrimStartForgets(front, [mark] + text);
    TrimEndKeepsFirst([mark] + text);
  }

  lemma BlankSaysNothing(reg: Registry, space: string)
    requires AllWhitespace(space)
    ensures LineChange(reg, space) == []
  {
    TrimIsTrimmed(space);
  }

  lemma NameAloneIsRead(reg: Registry, front: string, name: string, back: string)
    requires IsWellWritten(Alone(front, name, back))
    ensures LineChange(reg, front + name + back) == Meaning(reg, Alone(front, name, back))
  {
    TrimForgetsPadding(front, name, back);
    assert Find(name, '=') == |name|;
  }

  lemma SettingIsRead(reg: Registry, line: FileLine)
    requires line.Setting? && IsWellWritten(line)
    ensures LineChange(reg, Written(line)) == Meaning(reg, line)
  {
    SettingIsCut(line.front, line.name, line.before, line.after, line.value, line.back);
  }

  lemma LineIsRead(reg: Registry, line: FileLine)
    requires IsWellWritten(line)
    ensures LineChange(reg, Written(line)) == Meaning(reg, line)
  {
    match line
    case Setting(_, _, _, _, _, _) => SettingIsRead(reg, line);
    case Alone(front, name, back) => NameAloneIsRead(reg, front, name, back);
    case Remark(front, mark, text) => RemarkSaysNothing(reg, front, mark, text);
    case Blank(space) => BlankSaysNothing(reg, space);
  }

  /** A file means what its lines mean, in order. */
  lemma {:induction false} FileIsRead(reg: Registry, lines: seq<FileLine>)
    requires forall i | 0 <= i < |lines| :: IsWellWritten(lines[i])
    ensures FileChanges(reg, AllWritten(lines)) == AllMeant(reg, lines)
  {
    if lines == [] {
    } else {
      var front, last := lines[..|lines| - 1], lines[|lines| - 1];
      FileIsRead(reg, front);
      LineIsRead(reg, last);
      assert AllWritten(lines)[..|AllWritten(lines)| - 1] == AllWritten(front);
    }
  }

  /** The file that `conf-path` names is the one that is read. */
  lemma ConfFileIsRead(reg: Registry, s: Settings, files: map<string, string>, path: string)
    requires reg.canonical("conf-path") == "conf-path" && "conf-path" in s.options
    requires s.options["conf-path"] == Str(path) && path != "" && path in files
    ensures ConfigLines(reg, s, files) == Lines(files[path])
  {
  }

  // ---------- command lines ----------

  /** The changes that the arguments in front make, before those of the rest. */
  ghost predicate Makes(reg: Registry, files: map<string, string>, args: seq<string>, changes: seq<Change>) {
    forall rest :: CliChanges(reg, args + rest, files) == changes + CliChanges(reg, rest, files)
  }

  lemma OneArgumentMakes(reg: Registry, files: map<string, string>, arg: string, changes: seq<Change>)
    requires forall rest :: Taker(reg, files)([arg] + rest) == Taken(changes, 0)
    ensures Makes(reg, files, [arg], changes)
  {
    forall rest ensures CliChanges(reg, [arg] + rest, files) == changes + CliChanges(reg, rest, files) {
      assert After([arg] + rest, 0) == rest;
      assert Taker(reg, files)([arg] + rest) == Taken(changes, 0);
    }
  }

  lemma TwoArgumentsMake(reg: Registry, files: map<string, string>, arg: string, value: string, changes: seq<Change>)
    requires forall rest :: Taker(reg, files)([arg, value] + rest) == Taken(changes, 1)
    ensures Makes(reg, files, [arg, value], changes)
  {
    forall rest ensures CliChanges(reg, [arg, value] + rest, files) == changes + CliChanges(reg, rest, files) {
      assert After([arg, value] + rest, 1) == rest;
      assert Taker(reg, files)([arg, value] + rest) == Taken(changes, 1);
    }
  }

  predicate BeginsWithNo(name: string) { 3 < |name| && name[..3] == "no-" }

  lemma NegationsBeginWithNo(name: string)
    ensures IsNegation(name) <==> BeginsWithNo(name)
  {
    if 3 < |name| { assert name[..3] == [name[0], name[1], name[2]]; }
  }

  lemma LongOption(name: string)
    ensures IsLong("--" + name) && ("--" + name)[2..] == name
  {
  }

  /** `--name` turns a boolean option on. */
  lemma FlagTurnsOn(reg: Registry, files: map<string, string>, name: string)
    requires '=' !in name && !BeginsWithNo(name) && reg.Knows(name) && reg.Def(name).isBoolean
    ensures Makes(reg, files, ["--" + name], [Replace(name, Bool(true))])
  {
    NegationsBeginWithNo(name);
    LongOption(name);
    assert Find(name, '=') == |name|;
    OneArgumentMakes(reg, files, "--" + name, [Replace(name, Bool(true))]);
  }

  /** `--no-name` turns it off, unless there is an option of just that name, which it turns on. */
  lemma NegationTurnsOff(reg: Registry, files: map<string, string>, name: string)
    requires '=' !in name && name != ""
    ensures Makes(reg, files, ["--" + ("no-" + name)],
                  [if reg.Knows("no-" + name) then Replace("no-" + name, Bool(true)) else Replace(name, Bool(false))])
  {
    var long := "no-" + name;
    assert long[3..] == name && Find(long, '=') == |long|;
    LongOption(long);
    OneArgumentMakes(reg, files, "--" + long,
                     [if reg.Knows(long) then Replace(long, Bool(true)) else Replace(name, Bool(false))]);
  }

  /** So does `--no-name=value`, whatever the value, if there is no option of just that name. */
  lemma NegationIgnoresValue(reg: Registry, files: map<string, string>, name: string, value: string)
    requires '=' !in name && name != "" && !reg.Knows("no-" + name)
    ensures Makes(reg, files, ["--" + ("no-" + name + "=" + value)], [Replace(name, Bool(false))])
  {
    var long := "no-" + name;
    FindAfter(long, '=', value);
    assert long + ['='] + value == "no-" + name + "=" + value && long[3..] == name;
    LongOption("no-" + name + "=" + value);
    OneArgumentMakes(reg, files, "--" + ("no-" + name + "=" + value), [Replace(name, Bool(false))]);
  }

  /** An option that needs a value and has none is complained of, if it is known, and else set to nothing. */
  lemma ValueIsMissing(reg: Registry, files: map<string, string>, name: string, next: seq<string>)
    requires '=' !in name && !BeginsWithNo(name) && (reg.Knows(name) ==> !reg.Def(name).isBoolean)
    requires next == [] || (next[0] != "" && next[0][0] == '-')
    ensures CliChanges(reg, ["--" + name] + next, files)
            == [if reg.Knows(name) then Complain(name) else Add(name, "", FromCommandLine)]
               + CliChanges(reg, next, files)
  {
    NegationsBeginWithNo(name);
    LongOption(name);
    assert Find(name, '=') == |name|;
    assert After(["--" + name] + next, 0) == next;
  }

  function ShortOption(c: char): string { ['-', c] }

  predicate IsShortName(c: char) { c < 128 as char && c != '-' }

  /** `-c` turns a boolean option on. */
  lemma ShortFlagTurnsOn(reg: Registry, files: map<string, string>, c: char)
    requires IsShortName(c) && c in reg.shortNames
    requires reg.Knows(reg.shortNames[c]) && reg.Def(reg.shortNames[c]).isBoolean
    ensures Makes(reg, files, [ShortOption(c)], [Replace(reg.shortNames[c], Bool(true))])
  {
    OneArgumentMakes(reg, files, ShortOption(c), [Replace(reg.shortNames[c], Bool(true))]);
  }

  /** `-c value` sets any other option, if the value does not look like an option. */
  lemma ShortOptionTakesValue(reg: Registry, files: map<string, string>, c: char, value: string)
    requires IsShortName(c) && c in reg.shortNames
    requires reg.Knows(reg.shortNames[c]) && !reg.Def(reg.shortNames[c]).isBoolean
    requires value == "" || value[0] != '-'
    ensures Makes(reg, files, [ShortOption(c), value], [Add(reg.shortNames[c], value, FromCommandLine)])
  {
    TwoArgumentsMake(reg, files, ShortOption(c), value, [Add(reg.shortNames[c], value, FromCommandLine)]);
  }

  /** Without a value it is complained of, and an unknown short option says nothing. */
  lemma ShortOptionWithoutValue(reg: Registry, files: map<string, string>, c: char, next: seq<string>)
    requires IsShortName(c)
    requires c in reg.shortNames && reg.Knows(reg.shortNames[c]) ==>
               !reg.Def(reg.shortNames[c]).isBoolean && (next == [] || (next[0] != "" && next[0][0] == '-'))
    ensures CliChanges(reg, [ShortOption(c)] + next, files)
            == (if c in reg.shortNames then [Complain(reg.shortNames[c])] else []) + CliChanges(reg, next, files)
  {
    assert After([ShortOption(c)] + next, 0) == next;
  }

  /** `@path` reads a configuration file. */
  lemma ReferenceReadsFile(reg: Registry, files: map<string, string>, path: string)
    ensures Makes(reg, files, ["@" + path], if path in files then FileChanges(reg, Lines(files[path])) else [])
  {
    assert ("@" + path)[1..] == path;
    OneArgumentMakes(reg, files, "@" + path, if path in files then FileChanges(reg, Lines(files[path])) else []);
  }

  // ---------- environments ----------

  /** Variables count in their order. */
  lemma {:induction false} EnvironmentIsInOrder(a: Environment, b: Environment)
    ensures EnvOptions(a + b) == EnvOptions(a) + EnvOptions(b)
  {
    if b == [] {
      assert a + b == a;
    } else {
      assert (a + b)[..|a + b| - 1] == a + b[..|b| - 1];
      EnvironmentIsInOrder(a, b[..|b| - 1]);
    }
  }

  /** A variable without the prefix says nothing. */
  lemma OtherVariablesSayNothing(name: string, value: string)
    requires !("ARIA2_" <= name)
    ensures EnvOptions([(name, value)]) == []
  {
    assert [(name, value)][..0] == [];
  }

  /** The first of the variables called `name` has this value. */
  ghost predicate Holds(env: Environment, name: string, value: string) {
    exists i | 0 <= i < |env| :: env[i] == (name, value) && forall j | 0 <= j < i :: env[j].0 != name
  }

  predicate Unset(env: Environment, name: string) { forall i | 0 <= i < |env| :: env[i].0 != name }

  lemma {:induction false} VarExactly(env: Environment, name: string)
    ensures Var(env, name).None? <==> Unset(env, name)
    ensures Var(env, name).Some? ==> Holds(env, name, Var(env, name).value)
  {
    if env == [] {
    } else if env[0].0 == name {
      assert env[0] == (name, env[0].1);
    } else {
      VarExactly(env[1..], name);
      assert forall i | 0 <= i < |env[1..]| :: env[1..][i] == env[i + 1];
      if Var(env, name).Some? {
        var i :| 0 <= i < |env[1..]| && env[1..][i] == (name, Var(env, name).value)
          && forall j | 0 <= j < i :: env[1..][j].0 != name;
        assert env[i + 1] == (name, Var(env, name).value);
      }
    }
  }

  /** The value of a proxy: the lower-case variable's, even if empty, else the upper-case one's. */
  function ProxyOf(env: Environment, lower: string, upper: string): string {
    if Var(env, lower).Some? then Var(env, lower).value
    else if Var(env, upper).Some? then Var(env, upper).value
    else ""
  }

  function OptionIfSet(option: string, value: string): seq<(string, string)> {
    if value == "" then [] else [(option, value)]
  }

  /** The five proxies, each if it is set and not empty. */
  lemma ProxiesAreRead(env: Environment)
    ensures ProxyOptions(env, PROXIES)
            == OptionIfSet("http-proxy", ProxyOf(env, "http_proxy", "HTTP_PROXY"))
               + OptionIfSet("https-proxy", ProxyOf(env, "https_proxy", "HTTPS_PROXY"))
               + OptionIfSet("ftp-proxy", ProxyOf(env, "ftp_proxy", "FTP_PROXY"))
               + OptionIfSet("all-proxy", ProxyOf(env, "all_proxy", "ALL_PROXY"))
               + OptionIfSet("no-proxy", ProxyOf(env, "no_proxy", "NO_PROXY"))
  {
    NextProxyOption(env, 0);
    NextProxyOption(env, 1);
    NextProxyOption(env, 2);
    NextProxyOption(env, 3);
    NextProxyOption(env, 4);
    assert PROXIES[..0] == [] && PROXIES[..5] == PROXIES;
    Concatenated(OptionIfSet("http-proxy", ProxyOf(env, "http_proxy", "HTTP_PROXY")));
  }

  lemma NextProxyOption(env: Environment, i: nat)
    requires i < |PROXIES|
    ensures ProxyOptions(env, PROXIES[..i + 1])
            == ProxyOptions(env, PROXIES[..i])
               + OptionIfSet(PROXIES[i].option, ProxyOf(env, PROXIES[i].lower, PROXIES[i].upper))
  {
    assert PROXIES[..i + 1][..i] == PROXIES[..i];
  }
}
