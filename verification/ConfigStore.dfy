/** The parser that fills the option store, and the manager that serves it. */
module ConfigStore {
  import opened Collections
  import opened Wrappers
  import opened Strings
  import opened Config

  // ---------- configuration files ----------

  predicate IsSkipped(line: string) { line == "" || line[0] == '#' || line[0] == '[' || line[0] == ';' }

  /** The assignment a line makes: a boolean option may stand alone, an unknown name may not. */
  function Assignment(reg: Registry, raw: string): Option<(string, string)> {
    var line := Trim(raw);
    if IsSkipped(line) then None
    else
      var eq := Find(line, '=');
      var name := if eq < |line| then Trim(line[..eq]) else line;
      var value := if eq < |line| then Trim(line[eq + 1..]) else "";
      if name == "" then None
      else if reg.Knows(name) then
        if !reg.Def(name).supported then None
        else Some((name, if eq == |line| && reg.Def(name).isBoolean then "true" else value))
      else if eq < |line| then Some((name, value))
      else None
  }

  function LineChange(reg: Registry, raw: string): seq<Change> {
    match Assignment(reg, raw)
    case Some((name, value)) => [Add(name, value, FromFile)]
    case None => []
  }

  function FileChanges(reg: Registry, lines: seq<string>): seq<Change>
    decreases lines
  {
    if lines == [] then [] else FileChanges(reg, lines[..|lines| - 1]) + LineChange(reg, lines[|lines| - 1])
  }

  // ---------- start-up ----------

  function Adds(pairs: seq<(string, string)>, source: Source): (cs: seq<Change>)
    ensures |cs| == |pairs|
  {
    seq(|pairs|, i requires 0 <= i < |pairs| => Add(pairs[i].0, pairs[i].1, source))
  }

  // ---------- the environment ----------

  type Environment = seq<(string, string)>

  const ENV_PREFIX := "ARIA2_"

  /** Names of environment variables are ASCII. */
  function LowerAndDash(c: char): char {
    if 'A' <= c <= 'Z' then 'a' + (c - 'A') else if c == '_' then '-' else c
  }

  function OptionName(suffix: string): (name: string)
    ensures |name| == |suffix| && forall i | 0 <= i < |suffix| :: name[i] == LowerAndDash(suffix[i])
  {
    seq(|suffix|, i requires 0 <= i < |suffix| => LowerAndDash(suffix[i]))
  }

  /** The variables with the prefix, under their option names. */
  function EnvOptions(env: Environment): seq<(string, string)> {
    if env == [] then []
    else
      var last := env[|env| - 1];
      EnvOptions(env[..|env| - 1]) +
      if ENV_PREFIX <= last.0 then [(OptionName(last.0[|ENV_PREFIX|..]), last.1)] else []
  }

  function UpperAndUnderscore(c: char): char {
    if 'a' <= c <= 'z' then 'A' + (c - 'a') else if c == '-' then '_' else c
  }

  predicate IsOptionName(name: string) {
    forall i | 0 <= i < |name| :: 'a' <= name[i] <= 'z' || '0' <= name[i] <= '9' || name[i] == '-'
  }

  function VariableFor(name: string): (v: string)
    ensures |v| == 6 + |name| && "ARIA2_" <= v
    ensures forall i | 0 <= i < |name| :: v[6 + i] == UpperAndUnderscore(name[i])
  {
    ENV_PREFIX + seq(|name|, i requires 0 <= i < |name| => UpperAndUnderscore(name[i]))
  }

  /** Every option has a variable: its name in capitals with underscores, behind the prefix. */
  lemma VariableNamesOption(name: string, value: string)
    requires IsOptionName(name)
    ensures EnvOptions([(VariableFor(name), value)]) == [(name, value)]
  {
    assert [(VariableFor(name), value)][..0] == [];
    assert OptionName(VariableFor(name)[|ENV_PREFIX|..]) == name;
  }

  function Var(env: Environment, name: string): Option<string> {
    if env == [] then None else if env[0].0 == name then Some(env[0].1) else Var(env[1..], name)
  }

  datatype Proxy = Proxy(lower: string, upper: string, option: string)

  const PROXIES := [
    Proxy("http_proxy", "HTTP_PROXY", "http-proxy"),
    Proxy("https_proxy", "HTTPS_PROXY", "https-proxy"),
    Proxy("ftp_proxy", "FTP_PROXY", "ftp-proxy"),
    Proxy("all_proxy", "ALL_PROXY", "all-proxy"),
    Proxy("no_proxy", "NO_PROXY", "no-proxy")]

  /** The lower-case variable hides the upper-case one even when it is empty. */
  function ProxyValue(env: Environment, p: Proxy): string {
    match Var(env, p.lower)
    case Some(value) => value
    case None => match Var(env, p.upper) case Some(value) => value case None => ""
  }

  /** The proxy variables that are set, under their option names. */
  function ProxyOptions(env: Environment, proxies: seq<Proxy>): seq<(string, string)> {
    if proxies == [] then []
    else
      var last := proxies[|proxies| - 1];
      var value := ProxyValue(env, last);
      ProxyOptions(env, proxies[..|proxies| - 1]) + if value != "" then [(last.option, value)] else []
  }

  function ConfigPath(reg: Registry, s: Settings): string {
    var key := reg.canonical("conf-path");
    if key in s.options && s.options[key].Str? then s.options[key].s else ""
  }

  /** The lines of the configuration file the settings name, if there is one. */
  function ConfigLines(reg: Registry, s: Settings, files: map<string, string>): seq<string> {
    var path := ConfigPath(reg, s);
    if path != "" && path in files then Lines(files[path]) else []
  }

  /** What `load_defaults_first` does, given the files and the environment. */
  function Startup(reg: Registry, s: Settings, files: map<string, string>, env: Environment): seq<Change> {
    [Defaults] + FileChanges(reg, ConfigLines(reg, WithDefaults(reg, s), files))
    + Adds(EnvOptions(env), FromEnvironment) + Adds(ProxyOptions(env, PROXIES), FromCommandLine)
  }

  // ---------- the command line ----------

  /** A value may follow an option as an argument of its own, unless that looks like an option. */
  predicate HasValue(args: seq<string>) { 1 < |args| && !IsDashed(args[1]) }

  predicate IsDashed(arg: string) { 1 <= |arg| && arg[0] == '-' }

  predicate IsNegation(name: string) { 3 < |name| && name[0] == 'n' && name[1] == 'o' && name[2] == '-' }

  predicate IsLong(arg: string) { 2 <= |arg| && arg[0] == '-' && arg[1] == '-' }

  predicate IsShort(arg: string) { |arg| == 2 && arg[0] == '-' && arg[1] < 128 as char }

  predicate IsReference(arg: string) { 1 <= |arg| && arg[0] == '@' }

  /** What the first argument makes, and how many of the arguments behind it are used up. */
  datatype Taken = Taken(changes: seq<Change>, extra: nat)

  function TakeLong(reg: Registry, args: seq<string>): Taken
    requires args != [] && IsLong(args[0])
  {
    var option := args[0][2..];
    var eq := Find(option, '=');
    if eq < |option| then
      var name, value := option[..eq], option[eq + 1..];
      Taken([if IsNegation(name) && !reg.Knows(name) then Replace(name[3..], Bool(false))
             else Add(name, value, FromCommandLine)], 0)
    else if IsNegation(option) then
      Taken([if reg.Knows(option) then Replace(option, Bool(true)) else Replace(option[3..], Bool(false))], 0)
    else if reg.Knows(option) then
      if reg.Def(option).isBoolean then Taken([Replace(option, Bool(true))], 0)
      else if HasValue(args) then Taken([Add(option, args[1], FromCommandLine)], 1)
      else Taken([Complain(option)], 0)
    else if HasValue(args) then Taken([Add(option, args[1], FromCommandLine)], 1)
    else Taken([Add(option, "", FromCommandLine)], 0)
  }

  function TakeShort(reg: Registry, args: seq<string>): Taken
    requires args != [] && IsShort(args[0])
  {
    var c := args[0][1];
    if c !in reg.shortNames then Taken([], 0)
    else
      var name := reg.shortNames[c];
      if !reg.Knows(name) then Taken([Complain(name)], 0)
      else if !reg.Def(name).isBoolean && HasValue(args) then Taken([Add(name, args[1], FromCommandLine)], 1)
      else if reg.Def(name).isBoolean then Taken([Replace(name, Bool(true))], 0)
      else Taken([Complain(name)], 0)
  }

  /** An argument that is neither an option nor a file reference is skipped together with the next one. */
  function Take(reg: Registry, args: seq<string>, files: map<string, string>): Taken
    requires args != []
  {
    var arg := args[0];
    if IsLong(arg) then TakeLong(reg, args)
    else if IsShort(arg) then TakeShort(reg, args)
    else if IsReference(arg) then
      Taken(if arg[1..] in files then FileChanges(reg, Lines(files[arg[1..]])) else [], 0)
    else Taken([], 1)
  }

  function After(args: seq<string>, extra: nat): seq<string> { if 1 + extra < |args| then args[1 + extra..] else [] }

  /** The arguments one after the other, `take` telling what each makes of those that are left. */
  function TakeAll(take: seq<string> -> Taken, args: seq<string>): seq<Change>
    decreases |args|
  {
    if args == [] then [] else take(args).changes + TakeAll(take, After(args, take(args).extra))
  }

  function Taker(reg: Registry, files: map<string, string>): seq<string> -> Taken {
    args => if args == [] then Taken([], 0) else Take(reg, args, files)
  }

  function CliChanges(reg: Registry, args: seq<string>, files: map<string, string>): seq<Change> {
    TakeAll(Taker(reg, files), args)
  }

  // ---------- the parser ----------

  datatype Context = Context(line: nat, content: string)

  class ConfigParser {
    const registry: Registry
    var options: map<string, OptionValue>
    var optionSources: map<string, Source>
    var errors: seq<ConfigError>
    var errorContexts: map<nat, Context>

    ghost function State(): Settings
      reads this
    {
      Settings(options, optionSources, errors)
    }

    ghost predicate Valid()
      reads this
    {
      registry.Valid() && forall i | i in errorContexts :: i < |errors|
    }

    constructor (registry: Registry)
      requires registry.Valid()
      ensures Valid() && this.registry == registry && State() == EMPTY
    {
      this.registry := registry;
      options, optionSources, errors, errorContexts := map[], map[], [], map[];
    }

    method Set(name: string, value: OptionValue)
      requires Valid()
      modifies this
      ensures Valid() && errorContexts == old(errorContexts)
      ensures State() == Apply(registry, old(State()), Replace(name, value))
    {
      var key := registry.canonical(name);
      if key in registry.defs {
        match registry.defs[key].ParseValue(registry.show(value))
        case Some(v) =>
          options := options[key := v];
          optionSources := optionSources[key := FromCommandLine];
        case None => errors := errors + [ConfigError(FromCommandLine, name)];
      } else {
        options := options[key := value];
        optionSources := optionSources[key := FromCommandLine];
      }
    }

    method SetRawFrom(name: string, raw: string, source: Source)
      requires Valid()
      modifies this
      ensures Valid() && errorContexts == old(errorContexts)
      ensures State() == Apply(registry, old(State()), Add(name, raw, source))
    {
      var key := registry.canonical(name);
      if key in registry.defs {
        var def := registry.defs[key];
        match def.ParseValue(raw)
        case Some(v) =>
          var merged := v;
          if def.cumulative.Some? && key in options {
            match (options[key], v) {
              case (List(a), List(b)) => merged := List(a + b);
              case (Str(a), Str(b)) => merged := Str(a + def.cumulative.value + b);
              case _ =>
            }
          }
          options := options[key := merged];
          optionSources := optionSources[key := source];
        case None => errors := errors + [ConfigError(source, name)];
      } else {
        options := options[name := Str(raw)];
        optionSources := optionSources[name := source];
      }
    }

    method ApplyDefaults()
      requires Valid()
      modifies this
      ensures Valid() && errorContexts == old(errorContexts)
      ensures State() == Apply(registry, old(State()), Defaults)
    {
      var left := registry.defs.Keys;
      while left != {}
        invariant left <= registry.defs.Keys
        invariant errors == old(errors) && errorContexts == old(errorContexts)
        invariant Filled(registry.defs, registry.defs.Keys - left, old(options), options)
        invariant FilledSources(options, old(options), old(optionSources), optionSources)
        decreases left
      {
        var key :| key in left;
        if registry.defs[key].HasDefault() && key !in options {
          options := options[key := registry.defs[key].fallback];
          optionSources := optionSources[key := FromDefaults];
        }
        left := left - {key};
      }
      AllFilled(registry, old(State()), State());
    }

    /** Every error a file causes is tied to the line that caused it. */
    method ParseFile(lines: seq<string>)
      requires Valid()
      modifies this
      ensures Valid() && State() == Run(registry, old(State()), FileChanges(registry, lines))
      ensures Explained(registry, lines, |old(errors)|, old(errorContexts), errors, errorContexts)
    {
      for n := 0 to |lines|
        invariant Valid() && State() == Run(registry, old(State()), FileChanges(registry, lines[..n]))
        invariant Explained(registry, lines, |old(errors)|, old(errorContexts), errors, errorContexts)
      {
        NextLine(registry, old(State()), lines, n);
        ParseLine(lines, n, |old(errors)|, old(errorContexts));
      }
      assert lines[..|lines|] == lines;
    }

    method ParseLine(lines: seq<string>, n: nat, ghost start: nat, ghost contexts: map<nat, Context>)
      requires Valid() && n < |lines| && Explained(registry, lines, start, contexts, errors, errorContexts)
      modifies this
      ensures Valid() && State() == Run(registry, old(State()), LineChange(registry, lines[n]))
      ensures Explained(registry, lines, start, contexts, errors, errorContexts)
    {
      var line := Trim(lines[n]);
      if IsSkipped(line) { return; }
      var eq := Find(line, '=');
      var name, value := line, "";
      if eq < |line| { name, value := Trim(line[..eq]), Trim(line[eq + 1..]); }
      if name == "" { return; }
      if registry.Knows(name) {
        var def := registry.Def(name);
        if !def.supported { return; }
        if eq == |line| && def.isBoolean { value := "true"; }
      } else if eq == |line| {
        return;
      }
      assert Assignment(registry, lines[n]) == Some((name, value));
      Assign(lines, n, name, value, start, contexts);
    }

    method Assign(lines: seq<string>, n: nat, name: string, value: string, ghost start: nat,
                  ghost contexts: map<nat, Context>)
      requires Valid() && n < |lines| && Explained(registry, lines, start, contexts, errors, errorContexts)
      requires Assignment(registry, lines[n]) == Some((name, value))
      modifies this
      ensures Valid() && State() == Apply(registry, old(State()), Add(name, value, FromFile))
      ensures Explained(registry, lines, start, contexts, errors, errorContexts)
    {
      var errorStart := |errors|;
      SetRawFrom(name, value, FromFile);
      ErrorsOf(registry, old(State()), name, value);
      if errorStart < |errors| {
        var context := Context(n + 1, Trim(lines[n]));
        OneMoreError(registry, lines, start, contexts, old(errors), errorContexts, ConfigError(FromFile, name),
            context, value);
        errorContexts := errorContexts[errorStart := context];
      }
    }

    method LoadDefaultsFirst(files: map<string, string>, env: Environment)
      requires Valid()
      modifies this
      ensures Valid()
      ensures State() == Run(registry, old(State()), Startup(registry, old(State()), files, env))
    {
      ApplyDefaults();
      LoadConfFile(files);
      ParseEnvVars(env);
      ParseProxyEnvVars(env);
      StartupPhases(registry, old(State()), files, env);
    }

    method LoadConfFile(files: map<string, string>)
      requires Valid()
      modifies this
      ensures Valid()
      ensures State() == Run(registry, old(State()), FileChanges(registry, ConfigLines(registry, old(State()), files)))
    {
      var path := "";
      var key := registry.canonical("conf-path");
      if key in options && options[key].Str? { path := options[key].s; }
      if path != "" && path in files { ParseFile(Lines(files[path])); }
    }

    method ParseEnvVars(env: Environment)
      requires Valid()
      modifies this
      ensures Valid() && State() == Run(registry, old(State()), Adds(EnvOptions(env), FromEnvironment))
    {
      for i := 0 to |env|
        invariant Valid() && State() == Run(registry, old(State()), Adds(EnvOptions(env[..i]), FromEnvironment))
      {
        NextVariable(registry, old(State()), env, i);
        var (key, value) := env[i];
        if ENV_PREFIX <= key { SetRawFrom(OptionName(key[|ENV_PREFIX|..]), value, FromEnvironment); }
      }
      assert env[..|env|] == env;
    }

    method ParseProxyEnvVars(env: Environment)
      requires Valid()
      modifies this
      ensures Valid() && State() == Run(registry, old(State()), Adds(ProxyOptions(env, PROXIES), FromCommandLine))
    {
      for i := 0 to |PROXIES|
        invariant Valid()
        invariant State() == Run(registry, old(State()), Adds(ProxyOptions(env, PROXIES[..i]), FromCommandLine))
      {
        NextProxy(registry, old(State()), env, PROXIES, i);
        var value := ProxyValue(env, PROXIES[i]);
        if value != "" { SetRawFrom(PROXIES[i].option, value, FromCommandLine); }
      }
      assert PROXIES[..|PROXIES|] == PROXIES;
    }

    /** One argument of the command line, with its value if it takes the next argument for one. */
    method TakeArgument(args: seq<string>, files: map<string, string>) returns (extra: nat, ghost changes: seq<Change>)
      requires Valid() && args != []
      modifies this
      ensures Valid() && Taker(registry, files)(args) == Taken(changes, extra)
      ensures State() == Run(registry, old(State()), changes)
    {
      changes := Take(registry, args, files).changes;
      var arg := args[0];
      extra := 0;
      if IsLong(arg) {
        extra := TakeLongOption(args);
      } else if IsShort(arg) {
        extra := TakeShortOption(args);
      } else if IsReference(arg) {
        if arg[1..] in files { ParseFile(Lines(files[arg[1..]])); }
      } else {
        extra := 1;
      }
    }

    method TakeLongOption(args: seq<string>) returns (extra: nat)
      requires Valid() && args != [] && IsLong(args[0])
      modifies this
      ensures Valid() && extra == TakeLong(registry, args).extra
      ensures State() == Run(registry, old(State()), TakeLong(registry, args).changes)
    {
      var option := args[0][2..];
      var eq := Find(option, '=');
      extra := 0;
      if eq < |option| {
        var name, value := option[..eq], option[eq + 1..];
        if IsNegation(name) && !registry.Knows(name) {
          Set(name[3..], Bool(false));
        } else {
          SetRawFrom(name, value, FromCommandLine);
        }
      } else if IsNegation(option) {
        if registry.Knows(option) { Set(option, Bool(true)); } else { Set(option[3..], Bool(false)); }
      } else if registry.Knows(option) && registry.Def(option).isBoolean {
        Set(option, Bool(true));
      } else if HasValue(args) {
        SetRawFrom(option, args[1], FromCommandLine);
        extra := 1;
      } else if registry.Knows(option) {
        errors := errors + [ConfigError(FromCommandLine, option)];
      } else {
        SetRawFrom(option, "", FromCommandLine);
      }
    }

    method TakeShortOption(args: seq<string>) returns (extra: nat)
      requires Valid() && args != [] && IsShort(args[0])
      modifies this
      ensures Valid() && extra == TakeShort(registry, args).extra
      ensures State() == Run(registry, old(State()), TakeShort(registry, args).changes)
    {
      extra := 0;
      var c := args[0][1];
      if c in registry.shortNames {
        var name := registry.shortNames[c];
        if registry.Knows(name) && !registry.Def(name).isBoolean && HasValue(args) {
          SetRawFrom(name, args[1], FromCommandLine);
          extra := 1;
        } else if registry.Knows(name) && registry.Def(name).isBoolean {
          Set(name, Bool(true));
        } else {
          errors := errors + [ConfigError(FromCommandLine, name)];
        }
      }
    }

    method TakeNext(args: seq<string>, files: map<string, string>, ghost all: seq<string>, ghost start: Settings,
                    ghost take: seq<string> -> Taken, ghost made: seq<Change>)
      returns (extra: nat, ghost made': seq<Change>)
      requires Valid() && args != [] && take == Taker(registry, files)
      requires State() == Run(registry, start, made) && TakenUpTo(take, all, args, made)
      modifies this
      ensures Valid() && State() == Run(registry, start, made') && TakenUpTo(take, all, After(args, extra), made')
    {
      ghost var changes;
      extra, changes := TakeArgument(args, files);
      ArgumentTaken(take, all, args, made, changes, extra);
      RunAppend(registry, start, made, changes);
      made' := made + changes;
    }

    method TakeAt(args: seq<string>, files: map<string, string>, i: nat, ghost start: Settings,
                  ghost take: seq<string> -> Taken, ghost made: seq<Change>)
      returns (next: nat, ghost made': seq<Change>)
      requires Valid() && i < |args| && take == Taker(registry, files)
      requires State() == Run(registry, start, made) && TakenUpTo(take, args, Left(args, i), made)
      modifies this
      ensures Valid() && i < next
      ensures State() == Run(registry, start, made') && TakenUpTo(take, args, Left(args, next), made')
    {
      var left, extra := SomeLeft(args, i), 0;
      extra, made' := TakeNext(left, files, args, start, take, made);
      next := i + 1 + extra;
      NextLeft(take, args, i, left, extra, made');
    }

    method ParseCliArgs(args: seq<string>, files: map<string, string>)
      requires Valid()
      modifies this
      ensures Valid() && State() == Run(registry, old(State()), CliChanges(registry, args, files))
    {
      ghost var take := Taker(registry, files);
      ghost var made: seq<Change> := [];
      var i := 0;
      NothingTaken(take, args);
      while i < |args|
        invariant Valid() && State() == Run(registry, old(State()), made)
        invariant TakenUpTo(take, args, Left(args, i), made)
        decreases |args| - i
      {
        i, made := TakeAt(args, files, i, old(State()), take, made);
      }
      EverythingTaken(take, args, made);
    }
  }

  function Left(args: seq<string>, i: nat): seq<string> { if i < |args| then args[i..] else [] }

  function SomeLeft(args: seq<string>, i: nat): (left: seq<string>)
    requires i < |args|
    ensures left != [] && left == Left(args, i)
  {
    args[i..]
  }

  /** Changes compared as a whole rather than one by one. */
  datatype Script = Script(changes: seq<Change>)

  /** All arguments but those left have made these changes. */
  ghost predicate TakenUpTo(take: seq<string> -> Taken, all: seq<string>, left: seq<string>, made: seq<Change>) {
    Script(made + TakeAll(take, left)) == Script(TakeAll(take, all))
  }

  lemma NothingTaken(take: seq<string> -> Taken, args: seq<string>)
    ensures TakenUpTo(take, args, Left(args, 0), [])
  {
    assert Left(args, 0) == args;
    assert [] + TakeAll(take, args) == TakeAll(take, args);
  }

  lemma ArgumentTaken(take: seq<string> -> Taken, all: seq<string>, left: seq<string>, made: seq<Change>,
                      changes: seq<Change>, extra: nat)
    requires left != [] && TakenUpTo(take, all, left, made) && take(left) == Taken(changes, extra)
    ensures TakenUpTo(take, all, After(left, extra), made + changes)
  {
    Associative(made, changes, TakeAll(take, After(left, extra)));
  }

  lemma NextLeft(take: seq<string> -> Taken, args: seq<string>, i: nat, left: seq<string>, extra: nat,
                 made: seq<Change>)
    requires i < |args| && left == Left(args, i) && TakenUpTo(take, args, After(left, extra), made)
    ensures TakenUpTo(take, args, Left(args, i + 1 + extra), made)
  {
    assert After(left, extra) == Left(args, i + 1 + extra);
  }

  lemma EverythingTaken(take: seq<string> -> Taken, args: seq<string>, made: seq<Change>)
    requires TakenUpTo(take, args, [], made)
    ensures made == TakeAll(take, args)
  {
    assert made + [] == made;
  }

  /** The context names the line whose assignment was rejected. */
  ghost predicate Explains(reg: Registry, lines: seq<string>, context: Context, error: ConfigError) {
    0 < context.line <= |lines| && context.content == Trim(lines[context.line - 1]) &&
    exists value :: Assignment(reg, lines[context.line - 1]) == Some((error.option, value))
                    && Effect(reg, Add(error.option, value, FromFile)).None?
  }

  /** From the first `start` errors on, every error has a context that explains it; older contexts are kept. */
  ghost predicate Explained(reg: Registry, lines: seq<string>, start: nat, before: map<nat, Context>,
                            errors: seq<ConfigError>, contexts: map<nat, Context>) {
    start <= |errors| &&
    (forall i | 0 <= i < start :: (i in contexts <==> i in before) && (i in contexts ==> contexts[i] == before[i])) &&
    forall i | start <= i < |errors| :: i in contexts && Explains(reg, lines, contexts[i], errors[i])
  }

  lemma NextLine(reg: Registry, s: Settings, lines: seq<string>, n: nat)
    requires n < |lines|
    ensures Run(reg, s, FileChanges(reg, lines[..n + 1]))
            == Run(reg, Run(reg, s, FileChanges(reg, lines[..n])), LineChange(reg, lines[n]))
  {
    assert lines[..n + 1][..n] == lines[..n];
    RunAppend(reg, s, FileChanges(reg, lines[..n]), LineChange(reg, lines[n]));
  }

  lemma NextVariable(reg: Registry, s: Settings, env: Environment, i: nat)
    requires i < |env|
    ensures var before := Run(reg, s, Adds(EnvOptions(env[..i]), FromEnvironment));
            Run(reg, s, Adds(EnvOptions(env[..i + 1]), FromEnvironment))
            == if ENV_PREFIX <= env[i].0
               then Apply(reg, before, Add(OptionName(env[i].0[|ENV_PREFIX|..]), env[i].1, FromEnvironment))
               else before
  {
    assert env[..i + 1][..i] == env[..i];
    var front := EnvOptions(env[..i]);
    if ENV_PREFIX <= env[i].0 {
      AddsNext(reg, s, front, (OptionName(env[i].0[|ENV_PREFIX|..]), env[i].1), FromEnvironment);
    } else {
      assert front + [] == front;
    }
  }

  lemma NextProxy(reg: Registry, s: Settings, env: Environment, proxies: seq<Proxy>, i: nat)
    requires i < |proxies|
    ensures var before := Run(reg, s, Adds(ProxyOptions(env, proxies[..i]), FromCommandLine));
            var value := ProxyValue(env, proxies[i]);
            Run(reg, s, Adds(ProxyOptions(env, proxies[..i + 1]), FromCommandLine))
            == if value != "" then Apply(reg, before, Add(proxies[i].option, value, FromCommandLine)) else before
  {
    assert proxies[..i + 1][..i] == proxies[..i];
    var front, value := ProxyOptions(env, proxies[..i]), ProxyValue(env, proxies[i]);
    if value != "" {
      AddsNext(reg, s, front, (proxies[i].option, value), FromCommandLine);
    } else {
      assert front + [] == front;
    }
  }

  lemma AddsNext(reg: Registry, s: Settings, pairs: seq<(string, string)>, pair: (string, string), source: Source)
    ensures Run(reg, s, Adds(pairs + [pair], source))
            == Apply(reg, Run(reg, s, Adds(pairs, source)), Add(pair.0, pair.1, source))
  {
    assert Adds(pairs + [pair], source)[..|pairs|] == Adds(pairs, source);
  }

  /** A rejected assignment adds its own error and nothing else does. */
  lemma ErrorsOf(reg: Registry, s: Settings, name: string, raw: string)
    ensures Apply(reg, s, Add(name, raw, FromFile)).errors
            == s.errors + if Effect(reg, Add(name, raw, FromFile)).None? then [ConfigError(FromFile, name)] else []
  {
  }

  lemma OneMoreError(reg: Registry, lines: seq<string>, start: nat, before: map<nat, Context>, errors: seq<ConfigError>,
                     contexts: map<nat, Context>, error: ConfigError, context: Context, value: string)
    requires Explained(reg, lines, start, before, errors, contexts)
    requires 0 < context.line <= |lines| && context.content == Trim(lines[context.line - 1])
    requires Assignment(reg, lines[context.line - 1]) == Some((error.option, value))
    requires Effect(reg, Add(error.option, value, FromFile)).None?
    ensures Explained(reg, lines, start, before, errors + [error], contexts[|errors| := context])
  {
    assert Explains(reg, lines, context, error);
  }

  lemma InPhases(reg: Registry, s: Settings, a: seq<Change>, b: seq<Change>, c: seq<Change>, d: seq<Change>)
    ensures Run(reg, s, a + b + c + d) == Run(reg, Run(reg, Run(reg, Run(reg, s, a), b), c), d)
  {
    RunAppend(reg, s, a + b + c, d);
    RunAppend(reg, s, a + b, c);
    RunAppend(reg, s, a, b);
  }

  /** The options of `keys` that were missing have their defaults now. */
  ghost predicate Filled(defs: map<string, OptionDef>, keys: set<string>,
                         before: map<string, OptionValue>, after: map<string, OptionValue>)
    requires keys <= defs.Keys
  {
    forall key ::
      (key in before ==> key in after && after[key] == before[key]) &&
      (key !in before ==> (key in after <==> key in keys && defs[key].HasDefault())
                          && (key in after ==> after[key] == defs[key].fallback))
  }

  ghost predicate FilledSources(options: map<string, OptionValue>, old_: map<string, OptionValue>,
                                before: map<string, Source>, after: map<string, Source>) {
    forall key ::
      if key in options && key !in old_ then key in after && after[key] == FromDefaults
      else (key in after <==> key in before) && (key in after ==> after[key] == before[key])
  }

  lemma AllFilled(reg: Registry, before: Settings, after: Settings)
    requires Filled(reg.defs, reg.defs.Keys, before.options, after.options)
    requires FilledSources(after.options, before.options, before.sources, after.sources)
    requires after.errors == before.errors
    ensures after == WithDefaults(reg, before)
  {
    OptionsFilled(reg, before, after);
  }

  lemma OptionsFilled(reg: Registry, before: Settings, after: Settings)
    requires Filled(reg.defs, reg.defs.Keys, before.options, after.options)
    ensures after.options == WithDefaults(reg, before).options
  {
    var all := WithDefaults(reg, before).options;
    forall key ensures key in after.options <==> key in all {}
    forall key | key in all ensures after.options[key] == all[key] {}
  }

  // ---------- what a command line says ----------

  predicate PlainName(reg: Registry, name: string) {
    '=' !in name && !(IsNegation(name) && !reg.Knows(name))
  }

  function Assigned(pair: (string, string)): string { "--" + (pair.0 + "=" + pair.1) }

  function Assignments(pairs: seq<(string, string)>): seq<string> {
    if pairs == [] then [] else [Assigned(pairs[0])] + Assignments(pairs[1..])
  }

  lemma AssignmentIsTaken(reg: Registry, pair: (string, string), rest: seq<string>, files: map<string, string>)
    requires PlainName(reg, pair.0)
    ensures CliChanges(reg, [Assigned(pair)] + rest, files)
            == [Add(pair.0, pair.1, FromCommandLine)] + CliChanges(reg, rest, files)
  {
    var args := [Assigned(pair)] + rest;
    FindAfter(pair.0, '=', pair.1);
    assert Assigned(pair)[2..] == pair.0 + "=" + pair.1;
    assert After(args, 0) == rest;
  }

  lemma FirstAdd(pairs: seq<(string, string)>, source: Source)
    requires pairs != []
    ensures Adds(pairs, source) == [Add(pairs[0].0, pairs[0].1, source)] + Adds(pairs[1..], source)
  {
  }

  /** Written as `--name=value`, options mean what they say, whatever the values contain. */
  lemma {:induction false} AssignmentsAreAdds(reg: Registry, pairs: seq<(string, string)>, files: map<string, string>)
    requires forall i | 0 <= i < |pairs| :: PlainName(reg, pairs[i].0)
    ensures CliChanges(reg, Assignments(pairs), files) == Adds(pairs, FromCommandLine)
  {
    if pairs == [] {
    } else {
      AssignmentIsTaken(reg, pairs[0], Assignments(pairs[1..]), files);
      AssignmentsAreAdds(reg, pairs[1..], files);
      FirstAdd(pairs, FromCommandLine);
    }
  }

  /**
    A value in an argument of its own means the same, unless the option is boolean or the value
    looks like an option.
   */
  lemma SeparateValueIsTaken(reg: Registry, name: string, value: string, rest: seq<string>, files: map<string, string>)
    requires '=' !in name && !IsNegation(name) && !IsDashed(value) && (reg.Knows(name) ==> !reg.Def(name).isBoolean)
    ensures CliChanges(reg, ["--" + name, value] + rest, files)
              == CliChanges(reg, [Assigned((name, value))] + rest, files)
  {
    var args := ["--" + name, value] + rest;
    SeparateValue(reg, name, value, rest, files);
    assert After(args, 1) == rest;
    AssignmentIsTaken(reg, (name, value), rest, files);
  }

  lemma SeparateValue(reg: Registry, name: string, value: string, rest: seq<string>, files: map<string, string>)
    requires '=' !in name && !IsNegation(name) && !IsDashed(value) && (reg.Knows(name) ==> !reg.Def(name).isBoolean)
    ensures Taker(reg, files)(["--" + name, value] + rest) == Taken([Add(name, value, FromCommandLine)], 1)
  {
    assert ("--" + name)[2..] == name;
  }

  predicate IsPositional(arg: string) { !IsLong(arg) && !IsShort(arg) && !IsReference(arg) }

  /** An argument that is no option hides the argument after it, even if that is an option. */
  lemma PositionalHidesNext(reg: Registry, arg: string, next: string, rest: seq<string>, files: map<string, string>)
    requires IsPositional(arg)
    ensures CliChanges(reg, [arg, next] + rest, files) == CliChanges(reg, rest, files)
  {
    assert After([arg, next] + rest, 1) == rest;
    assert [] + CliChanges(reg, rest, files) == CliChanges(reg, rest, files);
  }

  // ---------- precedence at start-up ----------

  lemma StartupPhases(reg: Registry, s: Settings, files: map<string, string>, env: Environment)
    ensures
      var defaulted := Apply(reg, s, Defaults);
      var loaded := Run(reg, defaulted, FileChanges(reg, ConfigLines(reg, defaulted, files)));
      Run(reg, s, Startup(reg, s, files, env))
      == Run(reg, Run(reg, loaded, Adds(EnvOptions(env), FromEnvironment)),
             Adds(ProxyOptions(env, PROXIES), FromCommandLine))
  {
    InPhases(reg, s, [Defaults], FileChanges(reg, ConfigLines(reg, WithDefaults(reg, s), files)),
             Adds(EnvOptions(env), FromEnvironment), Adds(ProxyOptions(env, PROXIES), FromCommandLine));
  }

  lemma {:induction false} LastAcceptedAppend(reg: Registry, a: seq<Change>, b: seq<Change>, key: string)
    ensures LastAccepted(reg, a + b, key)
            == if LastAccepted(reg, b, key).Some? then LastAccepted(reg, b, key) else LastAccepted(reg, a, key)
    decreases b
  {
    if b == [] {
      assert a + b == a;
    } else {
      assert (a + b)[..|a + b| - 1] == a + b[..|b| - 1];
      LastAcceptedAppend(reg, a, b[..|b| - 1], key);
    }
  }

  function FirstOf<T>(a: Option<T>, b: Option<T>): Option<T> { if a.Some? then a else b }

  /**
    After start-up an option holds the generic proxy variable's value if there is one, else the
    prefixed environment variable's, else the configuration file's, else its default.
   */
  lemma StartupPrecedence(reg: Registry, files: map<string, string>, env: Environment, key: string)
    requires reg.Valid() && !IsCumulative(reg, key)
    ensures var lines := ConfigLines(reg, WithDefaults(reg, EMPTY), files);
            Lookup(Run(reg, EMPTY, Startup(reg, EMPTY, files, env)), key)
            == FirstOf(LastAccepted(reg, Adds(ProxyOptions(env, PROXIES), FromCommandLine), key),
               FirstOf(LastAccepted(reg, Adds(EnvOptions(env), FromEnvironment), key),
               FirstOf(LastAccepted(reg, FileChanges(reg, lines), key),
                       if DefaultFor(reg, Defaults, key) then Some((reg.defs[key].fallback, FromDefaults)) else None)))
  {
    var file := FileChanges(reg, ConfigLines(reg, WithDefaults(reg, EMPTY), files));
    var fromEnv := Adds(EnvOptions(env), FromEnvironment);
    var fromProxies := Adds(ProxyOptions(env, PROXIES), FromCommandLine);
    LastValueWins(reg, Startup(reg, EMPTY, files, env), key);
    LastAcceptedAppend(reg, [Defaults] + file + fromEnv, fromProxies, key);
    LastAcceptedAppend(reg, [Defaults] + file, fromEnv, key);
    LastAcceptedAppend(reg, [Defaults], file, key);
    assert LastAccepted(reg, [Defaults], key) == None by { assert [Defaults][..0] == []; }
    assert Startup(reg, EMPTY, files, env)[0] == Defaults;
  }

  // ---------- the manager ----------

  datatype ChangeEvent = ChangeEvent(key: string, oldValue: OptionValue, newValue: OptionValue)

  class ConfigManager {
    const registry: Registry
    const parser: ConfigParser
    var globalOpts: map<string, OptionValue>
    var taskDefaults: map<string, map<string, OptionValue>>
    ghost var history: seq<Change>

    /** The live map is the parser's map, and that is what the history makes of it. */
    ghost predicate Valid()
      reads this, parser
    {
      parser.Valid() && parser.registry == registry &&
      parser.State() == Run(registry, EMPTY, history) && globalOpts == parser.options
    }

    constructor (registry: Registry, loadConfigFile: bool, files: map<string, string>, env: Environment)
      requires registry.Valid()
      ensures Valid() && fresh(parser) && this.registry == registry && taskDefaults == map[]
      ensures history == if loadConfigFile then Startup(registry, EMPTY, files, env) else [Defaults]
    {
      var p := new ConfigParser(registry);
      if loadConfigFile { p.LoadDefaultsFirst(files, env); } else { p.ApplyDefaults(); }
      this.registry, parser, globalOpts, taskDefaults := registry, p, p.options, map[];
      history := if loadConfigFile then Startup(registry, EMPTY, files, env) else [Defaults];
    }

    /** `sync_global`, after changes that only ever add to the parser's map. */
    method SyncGlobal()
      requires globalOpts.Keys <= parser.options.Keys
      modifies this`globalOpts
      ensures globalOpts == parser.options
    {
      var left := parser.options.Keys;
      while left != {}
        invariant left <= parser.options.Keys && globalOpts.Keys <= parser.options.Keys
        invariant forall key | key in parser.options && key !in left ::
                    key in globalOpts && globalOpts[key] == parser.options[key]
        decreases left
      {
        var key :| key in left;
        globalOpts := globalOpts[key := parser.options[key]];
        left := left - {key};
      }
    }

    method LoadFile(lines: seq<string>)
      requires Valid()
      modifies this, parser
      ensures Valid() && taskDefaults == old(taskDefaults)
      ensures history == old(history) + FileChanges(registry, lines)
    {
      parser.ParseFile(lines);
      OptionsStay(registry, old(parser.State()), FileChanges(registry, lines));
      RunAppend(registry, EMPTY, history, FileChanges(registry, lines));
      history := history + FileChanges(registry, lines);
      SyncGlobal();
    }

    method LoadCli(args: seq<string>, files: map<string, string>)
      requires Valid()
      modifies this, parser
      ensures Valid() && taskDefaults == old(taskDefaults)
      ensures history == old(history) + CliChanges(registry, args, files)
    {
      parser.ParseCliArgs(args, files);
      OptionsStay(registry, old(parser.State()), CliChanges(registry, args, files));
      RunAppend(registry, EMPTY, history, CliChanges(registry, args, files));
      history := history + CliChanges(registry, args, files);
      SyncGlobal();
    }

    method LoadEnv(env: Environment)
      requires Valid()
      modifies this, parser
      ensures Valid() && taskDefaults == old(taskDefaults)
      ensures history == old(history) + Adds(EnvOptions(env), FromEnvironment)
    {
      parser.ParseEnvVars(env);
      OptionsStay(registry, old(parser.State()), Adds(EnvOptions(env), FromEnvironment));
      RunAppend(registry, EMPTY, history, Adds(EnvOptions(env), FromEnvironment));
      history := history + Adds(EnvOptions(env), FromEnvironment);
      SyncGlobal();
    }

    /** A rejected value changes nothing; an accepted one is announced with what it replaced. */
    method SetGlobalOption(name: string, value: OptionValue) returns (event: Option<ChangeEvent>)
      requires Valid()
      modifies this, parser
      ensures Valid() && taskDefaults == old(taskDefaults)
      ensures event.Some? <==> registry.Knows(name) && Effect(registry, Replace(name, value)).Some?
      ensures event.None? ==> history == old(history) && globalOpts == old(globalOpts)
      ensures event.None? ==> parser.errors == old(parser.errors)
      ensures event.Some? ==> history == old(history) + [Replace(registry.canonical(name), value)]
      ensures event.Some? ==>
                var key := registry.canonical(name);
                key in globalOpts && parser.errors == old(parser.errors)
                && event.value == ChangeEvent(key,
                    if key in old(globalOpts) then old(globalOpts)[key] else NoValue, globalOpts[key])
                && globalOpts == old(globalOpts)[key := Effect(registry, Replace(name, value)).value.1]
    {
      if !registry.Knows(name) { return None; }
      var key := registry.canonical(name);
      match registry.defs[key].ParseValue(registry.show(value))
      case None => return None;
      case Some(parsed) =>
        var replaced := if key in globalOpts then globalOpts[key] else NoValue;
        globalOpts := globalOpts[key := parsed];
        parser.Set(key, value);
        RunAppend(registry, EMPTY, history, [Replace(key, value)]);
        history := history + [Replace(key, value)];
        return Some(ChangeEvent(key, replaced, parsed));
    }

    // ---------- options of one task ----------

    ghost function TaskOptions(gid: string): map<string, OptionValue>
      reads this
    {
      globalOpts + if gid in taskDefaults then taskDefaults[gid] else map[]
    }

    method SetTaskOption(gid: string, name: string, value: OptionValue) returns (ok: bool)
      requires Valid()
      modifies this`taskDefaults
      ensures Valid()
      ensures ok <==> registry.Knows(name) && Effect(registry, Replace(name, value)).Some?
      ensures !ok ==> taskDefaults == old(taskDefaults)
      ensures ok ==>
                var value := Effect(registry, Replace(name, value)).value.1;
                TaskOptions(gid) == old(TaskOptions(gid))[registry.canonical(name) := value]
      ensures forall other | other != gid :: TaskOptions(other) == old(TaskOptions(other))
    {
      if !registry.Knows(name) { return false; }
      var key := registry.canonical(name);
      match registry.defs[key].ParseValue(registry.show(value))
      case None => return false;
      case Some(parsed) =>
        var entry := if gid in taskDefaults then taskDefaults[gid] else map[];
        taskDefaults := taskDefaults[gid := entry[key := parsed]];
        return true;
    }

    method RemoveTask(gid: string)
      modifies this`taskDefaults
      ensures TaskOptions(gid) == globalOpts
      ensures forall other | other != gid :: TaskOptions(other) == old(TaskOptions(other))
    {
      taskDefaults := taskDefaults - {gid};
    }

    /** One option of a task: its own value first, then the global one. */
    method GetTaskDefault(gid: string, name: string) returns (value: Option<OptionValue>)
      ensures var key := registry.canonical(name);
              value == if key in TaskOptions(gid) then Some(TaskOptions(gid)[key]) else None
    {
      var key := registry.canonical(name);
      if gid in taskDefaults && key in taskDefaults[gid] { return Some(taskDefaults[gid][key]); }
      return if key in globalOpts then Some(globalOpts[key]) else None;
    }

    /** All options of a task say the same as asking for them one by one. */
    method GetTaskOptions(gid: string) returns (merged: map<string, OptionValue>)
      ensures merged == TaskOptions(gid)
    {
      merged := globalOpts;
      if gid in taskDefaults {
        var own := taskDefaults[gid];
        var left := own.Keys;
        while left != {}
          invariant left <= own.Keys && merged == globalOpts + (own - left)
          decreases left
        {
          var key :| key in left;
          merged := merged[key := own[key]];
          assert own - (left - {key}) == (own - left)[key := own[key]];
          left := left - {key};
        }
        assert own - left == own;
      }
    }
  }

  /** Options are never removed. */
  lemma {:induction false} OptionsStay(reg: Registry, s: Settings, changes: seq<Change>)
    ensures s.options.Keys <= Run(reg, s, changes).options.Keys
    decreases changes
  {
    if changes == [] {
    } else {
      OptionsStay(reg, s, changes[..|changes| - 1]);
    }
  }
}
