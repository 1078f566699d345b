/** The option store: what each kind of change does to it. */
module Config {
  import opened Wrappers

  datatype OptionValue =
    | Bool(b: bool)
    | Int(n: int)
    | Float(text: string)
    | Str(s: string)
    | List(items: seq<string>)
    | NoValue

  datatype Source = FromDefaults | FromEnvironment | FromFile | FromCommandLine

  /** `parse` checks a raw value against the type and the bounds of the option. */
  datatype OptionDef = OptionDef(
    cumulative: Option<string>,
    supported: bool,
    isBoolean: bool,
    fallback: OptionValue,
    parse: string -> Option<OptionValue>)
  {
    function ParseValue(raw: string): Option<OptionValue> { if supported then parse(raw) else None }

    /** `parse_default_value`. */
    predicate HasDefault() { supported && !fallback.NoValue? }
  }

  datatype Registry = Registry(
    defs: map<string, OptionDef>,
    shortNames: map<char, string>,
    canonical: string -> string,
    show: OptionValue -> string)
  {
    /** Aliases lead to a name that is no alias, only such names are registered, and short names are theirs. */
    ghost predicate Valid() {
      && (forall name :: canonical(canonical(name)) == canonical(name))
      && (forall key | key in defs :: canonical(key) == key)
      && forall c | c in shortNames :: shortNames[c] in defs
    }

    predicate Knows(name: string) { canonical(name) in defs }

    function Def(name: string): OptionDef
      requires Knows(name)
    {
      defs[canonical(name)]
    }
  }

  datatype ConfigError = ConfigError(source: Source, option: string)

  datatype Settings = Settings(options: map<string, OptionValue>, sources: map<string, Source>,
      errors: seq<ConfigError>)

  const EMPTY := Settings(map[], map[], [])

  /** The calls that change a parser; `Complain` stands for an option whose value is missing. */
  datatype Change =
    | Replace(name: string, value: OptionValue)
    | Add(name: string, raw: string, source: Source)
    | Defaults
    | Complain(name: string)

  function Put(s: Settings, key: string, value: OptionValue, source: Source): Settings {
    s.(options := s.options[key := value], sources := s.sources[key := source])
  }

  function Reject(s: Settings, source: Source, option: string): Settings {
    s.(errors := s.errors + [ConfigError(source, option)])
  }

  /** A cumulative option's old value with a new one. */
  function Merge(old_: OptionValue, new_: OptionValue, delim: string): OptionValue {
    match (old_, new_)
    case (List(a), List(b)) => List(a + b)
    case (Str(a), Str(b)) => Str(a + delim + b)
    case _ => new_
  }

  function Added(s: Settings, key: string, delim: Option<string>, value: OptionValue): OptionValue {
    if delim.Some? && key in s.options then Merge(s.options[key], value, delim.value) else value
  }

  function WithDefaults(reg: Registry, s: Settings): Settings {
    var missing := set key | key in reg.defs && reg.defs[key].HasDefault() && key !in s.options;
    s.(options := s.options + map key | key in missing :: reg.defs[key].fallback,
       sources := s.sources + map key | key in missing :: FromDefaults)
  }

  function Apply(reg: Registry, s: Settings, c: Change): Settings {
    match c
    case Replace(name, value) =>
      var key := reg.canonical(name);
      if key !in reg.defs then Put(s, key, value, FromCommandLine)
      else
        (match reg.defs[key].ParseValue(reg.show(value))
         case Some(v) => Put(s, key, v, FromCommandLine)
         case None => Reject(s, FromCommandLine, name))
    case Add(name, raw, source) =>
      var key := reg.canonical(name);
      if key !in reg.defs then Put(s, name, Str(raw), source)
      else
        (match reg.defs[key].ParseValue(raw)
         case Some(v) => Put(s, key, Added(s, key, reg.defs[key].cumulative, v), source)
         case None => Reject(s, source, name))
    case Defaults => WithDefaults(reg, s)
    case Complain(name) => Reject(s, FromCommandLine, name)
  }

  function Run(reg: Registry, s: Settings, changes: seq<Change>): Settings
    decreases changes
  {
    if changes == [] then s else Apply(reg, Run(reg, s, changes[..|changes| - 1]), changes[|changes| - 1])
  }

  lemma {:induction false} RunAppend(reg: Registry, s: Settings, a: seq<Change>, b: seq<Change>)
    ensures Run(reg, s, a + b) == Run(reg, Run(reg, s, a), b)
    decreases b
  {
    if b == [] {
      assert a + b == a;
    } else {
      assert (a + b)[..|a + b| - 1] == a + b[..|b| - 1];
      RunAppend(reg, s, a, b[..|b| - 1]);
    }
  }

  // ---------- what one change does, told by its parts ----------

  predicate HasParsed(reg: Registry, key: string, raw: string, v: OptionValue) {
    key in reg.defs && reg.defs[key].supported && reg.defs[key].parse(raw) == Some(v)
  }

  predicate IsRefused(reg: Registry, key: string, raw: string) {
    key in reg.defs && (!reg.defs[key].supported || reg.defs[key].parse(raw).None?)
  }

  /** `b` joined to `a`: items behind items, texts with the delimiter between, otherwise `b` alone. */
  predicate IsJoin(a: OptionValue, b: OptionValue, delim: string, joined: OptionValue) {
    if a.List? && b.List? then joined == List(a.items + b.items)
    else if a.Str? && b.Str? then joined == Str(a.s + delim + b.s)
    else joined == b
  }

  /** An accepted value takes the place of the old one, or joins it; unknown names are kept as they are spelt. */
  lemma AdditionIsStored(reg: Registry, s: Settings, name: string, raw: string, source: Source)
    ensures var t, key := Apply(reg, s, Add(name, raw, source)), reg.canonical(name);
            && (key !in reg.defs ==>
                  t == s.(options := s.options[name := Str(raw)], sources := s.sources[name := source]))
            && (forall v :: HasParsed(reg, key, raw, v) ==>
                  && t.errors == s.errors && key in t.options && t.sources == s.sources[key := source]
                  && t.options == s.options[key := t.options[key]]
                  && if reg.defs[key].cumulative.Some? && key in s.options
                     then IsJoin(s.options[key], v, reg.defs[key].cumulative.value, t.options[key])
                     else t.options[key] == v)
            && (IsRefused(reg, key, raw) ==> t == s.(errors := s.errors + [ConfigError(source, name)]))
  {
  }

  /** A typed value goes through its text, takes the old one's place and counts as coming from the command line. */
  lemma ReplacementIsStored(reg: Registry, s: Settings, name: string, value: OptionValue)
    ensures var t, key := Apply(reg, s, Replace(name, value)), reg.canonical(name);
            && (key !in reg.defs ==>
                  t == s.(options := s.options[key := value], sources := s.sources[key := FromCommandLine]))
            && (forall v :: HasParsed(reg, key, reg.show(value), v) ==>
                  t == s.(options := s.options[key := v], sources := s.sources[key := FromCommandLine]))
            && (IsRefused(reg, key, reg.show(value)) ==>
                  t == s.(errors := s.errors + [ConfigError(FromCommandLine, name)]))
  {
  }

  lemma ComplaintIsRecorded(reg: Registry, s: Settings, name: string)
    ensures Apply(reg, s, Complain(name)) == s.(errors := s.errors + [ConfigError(FromCommandLine, name)])
  {
  }

  /** Defaults go only where nothing is, and only supported options have any. */
  lemma DefaultsFillGaps(reg: Registry, s: Settings, key: string)
    ensures var t := Apply(reg, s, Defaults);
            && t.errors == s.errors
            && (key in s.options ==> key in t.options && t.options[key] == s.options[key])
            && (key !in s.options ==>
                  (key in t.options <==>
                     key in reg.defs && reg.defs[key].supported && reg.defs[key].fallback != NoValue)
                  && (key in t.options ==>
                        t.options[key] == reg.defs[key].fallback
                        && key in t.sources && t.sources[key] == FromDefaults))
  {
  }

  // ---------- what a history says about an option ----------

  /** The key a change writes to, the value it brings, and where from; nothing if it is rejected. */
  function Effect(reg: Registry, c: Change): Option<(string, OptionValue, Source)> {
    match c
    case Replace(name, value) =>
      var key := reg.canonical(name);
      if key !in reg.defs then Some((key, value, FromCommandLine))
      else
        (match reg.defs[key].ParseValue(reg.show(value))
         case Some(v) => Some((key, v, FromCommandLine))
         case None => None)
    case Add(name, raw, source) =>
      var key := reg.canonical(name);
      if key !in reg.defs then Some((name, Str(raw), source))
      else (match reg.defs[key].ParseValue(raw) case Some(v) => Some((key, v, source)) case None => None)
    case Defaults => None
    case Complain(_) => None
  }

  predicate Touches(reg: Registry, c: Change, key: string) { Effect(reg, c).Some? && Effect(reg, c).value.0 == key }

  predicate IsCumulative(reg: Registry, key: string) { key in reg.defs && reg.defs[key].cumulative.Some? }

  /** An accepted value that makes all earlier ones of its option void. */
  predicate Overrides(reg: Registry, c: Change, key: string) {
    Touches(reg, c, key) && (c.Replace? || !IsCumulative(reg, key))
  }

  predicate DefaultFor(reg: Registry, c: Change, key: string) {
    c.Defaults? && key in reg.defs && reg.defs[key].HasDefault()
  }

  /** The values that make up the option, oldest first, with their sources. */
  function Contributions(reg: Registry, changes: seq<Change>, key: string): seq<(OptionValue, Source)>
    decreases changes
  {
    if changes == [] then []
    else
      var before, c := Contributions(reg, changes[..|changes| - 1], key), changes[|changes| - 1];
      if Touches(reg, c, key) then
        (if Overrides(reg, c, key) then [] else before) + [(Effect(reg, c).value.1, Effect(reg, c).value.2)]
      else if DefaultFor(reg, c, key) && before == [] then [(reg.defs[key].fallback, FromDefaults)]
      else before
  }

  function Delimiter(reg: Registry, key: string): string
    requires IsCumulative(reg, key)
  {
    reg.defs[key].cumulative.value
  }

  /** Several contributions merged into one value; without a delimiter there is only one. */
  function Combined(vs: seq<(OptionValue, Source)>, delim: string): OptionValue
    requires vs != []
  {
    if |vs| == 1 then vs[0].0 else Merge(Combined(vs[..|vs| - 1], delim), vs[|vs| - 1].0, delim)
  }

  /** What the settings say about one option. */
  function Lookup(s: Settings, key: string): Option<(OptionValue, Source)> {
    if key in s.options && key in s.sources then Some((s.options[key], s.sources[key])) else None
  }

  function Told(reg: Registry, vs: seq<(OptionValue, Source)>, key: string): Option<(OptionValue, Source)> {
    if vs == [] then None
    else Some((Combined(vs, if IsCumulative(reg, key) then Delimiter(reg, key) else ""), vs[|vs| - 1].1))
  }

  /** Every option has a recorded source, and no source is recorded without its option. */
  lemma {:induction false} SameKeys(reg: Registry, changes: seq<Change>)
    ensures Run(reg, EMPTY, changes).options.Keys == Run(reg, EMPTY, changes).sources.Keys
    decreases changes
  {
    if changes == [] {
    } else {
      SameKeys(reg, changes[..|changes| - 1]);
    }
  }

  /** A change is rejected exactly when it records an error, and then it does nothing else. */
  lemma RejectedChangesNothing(reg: Registry, s: Settings, c: Change)
    ensures var after := Apply(reg, s, c);
            !c.Defaults? ==>
              (Effect(reg, c).None? <==> |after.errors| == |s.errors| + 1)
              && (Effect(reg, c).Some? <==> after.errors == s.errors)
              && (Effect(reg, c).None? ==> after.options == s.options && after.sources == s.sources)
  {
  }

  /** A change leaves every option it does not touch alone. */
  lemma OthersUntouched(reg: Registry, s: Settings, c: Change, key: string)
    requires !Touches(reg, c, key) && !(DefaultFor(reg, c, key) && key !in s.options)
    ensures Lookup(Apply(reg, s, c), key) == Lookup(s, key)
  {
  }

  lemma {:induction false} NonCumulativeHasOne(reg: Registry, changes: seq<Change>, key: string)
    requires !IsCumulative(reg, key)
    ensures |Contributions(reg, changes, key)| <= 1
    decreases changes
  {
    if changes == [] {
    } else {
      NonCumulativeHasOne(reg, changes[..|changes| - 1], key);
    }
  }

  /** The store holds, of every option, what the history contributes to it, and the latest source. */
  lemma {:induction false} HistoryDecides(reg: Registry, changes: seq<Change>, key: string)
    requires reg.Valid()
    ensures Lookup(Run(reg, EMPTY, changes), key) == Told(reg, Contributions(reg, changes, key), key)
    decreases changes
  {
    if changes == [] {
    } else {
      var front, c := changes[..|changes| - 1], changes[|changes| - 1];
      var s, before := Run(reg, EMPTY, front), Contributions(reg, front, key);
      HistoryDecides(reg, front, key);
      SameKeys(reg, front);
      if Touches(reg, c, key) {
      } else if DefaultFor(reg, c, key) && before == [] {
        assert Lookup(Apply(reg, s, c), key) == Some((reg.defs[key].fallback, FromDefaults));
      } else {
        OthersUntouched(reg, s, c, key);
      }
    }
  }

  // ---------- options that do not accumulate ----------

  /** The last accepted value. */
  function LastAccepted(reg: Registry, changes: seq<Change>, key: string): Option<(OptionValue, Source)>
    decreases changes
  {
    if changes == [] then None
    else
      var c := changes[|changes| - 1];
      if Touches(reg, c, key) then Some((Effect(reg, c).value.1, Effect(reg, c).value.2))
      else LastAccepted(reg, changes[..|changes| - 1], key)
  }

  /** The last accepted value wins; failing one, the default, once defaults are loaded. */
  function Expected(reg: Registry, changes: seq<Change>, key: string): Option<(OptionValue, Source)> {
    if LastAccepted(reg, changes, key).Some? then LastAccepted(reg, changes, key)
    else if Defaults in changes && DefaultFor(reg, Defaults, key) then Some((reg.defs[key].fallback, FromDefaults))
    else None
  }

  lemma {:induction false} OneContribution(reg: Registry, changes: seq<Change>, key: string)
    requires !IsCumulative(reg, key)
    ensures Expected(reg, changes, key) == Told(reg, Contributions(reg, changes, key), key)
    decreases changes
  {
    if changes == [] {
    } else {
      var front, c := changes[..|changes| - 1], changes[|changes| - 1];
      OneContribution(reg, front, key);
      NonCumulativeHasOne(reg, front, key);
      assert Defaults in changes <==> Defaults in front || c == Defaults;
    }
  }

  /** Whenever the defaults are loaded, they never displace a value that was set. */
  lemma LastValueWins(reg: Registry, changes: seq<Change>, key: string)
    requires reg.Valid() && !IsCumulative(reg, key)
    ensures Lookup(Run(reg, EMPTY, changes), key) == Expected(reg, changes, key)
  {
    HistoryDecides(reg, changes, key);
    OneContribution(reg, changes, key);
  }

  // ---------- options that accumulate ----------

  /** The accepted values in order. */
  function Accepted(reg: Registry, changes: seq<Change>, key: string): seq<(OptionValue, Source)>
    decreases changes
  {
    if changes == [] then []
    else
      var c := changes[|changes| - 1];
      Accepted(reg, changes[..|changes| - 1], key) +
      if Touches(reg, c, key) then [(Effect(reg, c).value.1, Effect(reg, c).value.2)] else []
  }

  /** After the last overriding change everything accepted is appended, in order. */
  lemma {:induction false} AccumulatesSince(reg: Registry, front: seq<Change>, tail: seq<Change>, key: string)
    requires forall c | c in tail :: !Overrides(reg, c, key)
    requires Contributions(reg, front, key) != [] || forall c | c in tail :: !DefaultFor(reg, c, key)
    ensures Contributions(reg, front + tail, key) == Contributions(reg, front, key) + Accepted(reg, tail, key)
    decreases tail
  {
    if tail == [] {
      assert front + tail == front;
    } else {
      var n := |tail| - 1;
      assert (front + tail)[..|front + tail| - 1] == front + tail[..n];
      assert tail[n] in tail && forall c | c in tail[..n] :: c in tail;
      AccumulatesSince(reg, front, tail[..n], key);
    }
  }

  /** What a replacement starts over with. */
  lemma ReplacedBy(reg: Registry, front: seq<Change>, c: Change, tail: seq<Change>, key: string)
    requires Overrides(reg, c, key) && forall d | d in tail :: !Overrides(reg, d, key)
    ensures Contributions(reg, front + [c] + tail, key)
            == [(Effect(reg, c).value.1, Effect(reg, c).value.2)] + Accepted(reg, tail, key)
  {
    assert (front + [c])[..|front|] == front;
    AccumulatesSince(reg, front + [c], tail, key);
  }

  // ---------- closed form of every history ----------

  /** The default was loaded before any value was accepted, and has not been overridden since. */
  predicate DefaultStays(reg: Registry, changes: seq<Change>, key: string): (stays: bool)
    ensures stays ==> key in reg.defs
    decreases changes
  {
    changes != [] &&
    var front, c := changes[..|changes| - 1], changes[|changes| - 1];
    !Overrides(reg, c, key)
    && (DefaultStays(reg, front, key) || (DefaultFor(reg, c, key) && Accepted(reg, front, key) == []))
  }

  /** What the accepted values are added to. */
  function Base(reg: Registry, changes: seq<Change>, key: string): seq<(OptionValue, Source)> {
    if DefaultStays(reg, changes, key) then [(reg.defs[key].fallback, FromDefaults)] else []
  }

  /** What was accepted from the last overriding change on; everything if there is none. */
  function AcceptedSince(reg: Registry, changes: seq<Change>, key: string): seq<(OptionValue, Source)>
    decreases changes
  {
    if changes == [] then []
    else
      var front, c := changes[..|changes| - 1], changes[|changes| - 1];
      (if Overrides(reg, c, key) then [] else AcceptedSince(reg, front, key))
      + if Touches(reg, c, key) then [(Effect(reg, c).value.1, Effect(reg, c).value.2)] else []
  }

  lemma {:induction false} AcceptedEndsInSince(reg: Registry, changes: seq<Change>, key: string)
    ensures AcceptedSince(reg, changes, key) == [] <==> Accepted(reg, changes, key) == []
    ensures |AcceptedSince(reg, changes, key)| <= |Accepted(reg, changes, key)|
    decreases changes
  {
    if changes == [] {
    } else {
      AcceptedEndsInSince(reg, changes[..|changes| - 1], key);
    }
  }

  /**
    Of every history: an option is made up of its default, if that was loaded in time and has
    not been overridden, and of everything accepted since it was last overridden, in order.
   */
  lemma {:induction false} ContributionsAre(reg: Registry, changes: seq<Change>, key: string)
    ensures Contributions(reg, changes, key) == Base(reg, changes, key) + AcceptedSince(reg, changes, key)
    decreases changes
  {
    if changes == [] {
    } else {
      var front := changes[..|changes| - 1];
      ContributionsAre(reg, front, key);
      AcceptedEndsInSince(reg, front, key);
    }
  }

  // ---------- exactly when an option is made up of the accepted values ----------

  predicate Touched(reg: Registry, changes: seq<Change>, key: string) {
    exists i | 0 <= i < |changes| :: Touches(reg, changes[i], key)
  }

  predicate Overridden(reg: Registry, changes: seq<Change>, key: string) {
    exists i | 0 <= i < |changes| :: Overrides(reg, changes[i], key)
  }

  /** An overriding change comes after an accepted value. */
  predicate SomethingLost(reg: Registry, changes: seq<Change>, key: string) {
    exists i | 0 <= i < |changes| :: Overrides(reg, changes[i], key) && Touched(reg, changes[..i], key)
  }

  /** The default is loaded while the option is untouched, and no later change overrides it. */
  predicate DefaultKept(reg: Registry, changes: seq<Change>, key: string) {
    exists i | 0 <= i < |changes| :: DefaultKeptAt(reg, changes, key, i)
  }

  predicate DefaultKeptAt(reg: Registry, changes: seq<Change>, key: string, i: nat) {
    i < |changes| && DefaultFor(reg, changes[i], key)
    && !Touched(reg, changes[..i], key) && !Overridden(reg, changes[i + 1..], key)
  }

  lemma TouchedLast(reg: Registry, front: seq<Change>, c: Change, key: string)
    ensures Touched(reg, front + [c], key) <==> Touched(reg, front, key) || Touches(reg, c, key)
    ensures Overridden(reg, front + [c], key) <==> Overridden(reg, front, key) || Overrides(reg, c, key)
  {
    var all := front + [c];
    assert all[|front|] == c && forall i | 0 <= i < |front| :: all[i] == front[i];
  }

  lemma {:induction false} TouchedIsAccepted(reg: Registry, changes: seq<Change>, key: string)
    ensures Touched(reg, changes, key) <==> Accepted(reg, changes, key) != []
    decreases changes
  {
    if changes == [] {
    } else {
      var front, c := changes[..|changes| - 1], changes[|changes| - 1];
      TouchedIsAccepted(reg, front, key);
      assert front + [c] == changes;
      TouchedLast(reg, front, c, key);
    }
  }

  lemma KeptBefore(reg: Registry, front: seq<Change>, c: Change, key: string, i: nat)
    requires i < |front|
    ensures DefaultKeptAt(reg, front + [c], key, i) <==> DefaultKeptAt(reg, front, key, i) && !Overrides(reg, c, key)
  {
    var all := front + [c];
    assert all[..i] == front[..i] && all[i + 1..] == front[i + 1..] + [c];
    TouchedLast(reg, front[i + 1..], c, key);
  }

  lemma {:induction false} KeptIsStays(reg: Registry, changes: seq<Change>, key: string)
    ensures DefaultKept(reg, changes, key) <==> DefaultStays(reg, changes, key)
    decreases changes
  {
    if changes == [] {
    } else {
      var front, c := changes[..|changes| - 1], changes[|changes| - 1];
      KeptIsStays(reg, front, key);
      TouchedIsAccepted(reg, front, key);
      assert front + [c] == changes;
      forall i | 0 <= i < |front|
        ensures DefaultKeptAt(reg, changes, key, i) <==> DefaultKeptAt(reg, front, key, i) && !Overrides(reg, c, key)
      {
        KeptBefore(reg, front, c, key, i);
      }
      assert changes[..|front|] == front && changes[|front| + 1..] == [];
      assert DefaultKeptAt(reg, changes, key, |front|) <==> DefaultFor(reg, c, key) && !Touched(reg, front, key);
    }
  }

  lemma SomethingLostLast(reg: Registry, front: seq<Change>, c: Change, key: string)
    ensures SomethingLost(reg, front + [c], key)
            <==> SomethingLost(reg, front, key) || (Overrides(reg, c, key) && Touched(reg, front, key))
  {
    var all := front + [c];
    assert all[|front|] == c && all[..|front|] == front;
    assert forall i | 0 <= i < |front| :: all[i] == front[i] && all[..i] == front[..i];
  }

  lemma {:induction false} LostIsShorter(reg: Registry, changes: seq<Change>, key: string)
    ensures SomethingLost(reg, changes, key)
            <==> |AcceptedSince(reg, changes, key)| < |Accepted(reg, changes, key)|
    ensures !SomethingLost(reg, changes, key) ==> AcceptedSince(reg, changes, key) == Accepted(reg, changes, key)
    decreases changes
  {
    if changes == [] {
    } else {
      var front, c := changes[..|changes| - 1], changes[|changes| - 1];
      LostIsShorter(reg, front, key);
      assert front + [c] == changes;
      SomethingLostLast(reg, front, c, key);
      TouchedIsAccepted(reg, front, key);
      AcceptedEndsInSince(reg, front, key);
    }
  }

  /** While the default stays, nothing has been overridden. */
  lemma {:induction false} DefaultExcludesLoss(reg: Registry, changes: seq<Change>, key: string)
    requires DefaultStays(reg, changes, key)
    ensures AcceptedSince(reg, changes, key) == Accepted(reg, changes, key)
    decreases changes
  {
    var front := changes[..|changes| - 1];
    if DefaultStays(reg, front, key) {
      DefaultExcludesLoss(reg, front, key);
    } else {
      AcceptedEndsInSince(reg, front, key);
    }
  }

  /**
    The exact condition under which an option is made up of the accepted values and nothing
    else: no overriding change comes after an accepted value, and no default was loaded while
    the option was untouched, unless a later change overrides it.
   */
  lemma KeepsAcceptedExactly(reg: Registry, changes: seq<Change>, key: string)
    ensures Contributions(reg, changes, key) == Accepted(reg, changes, key)
            <==> !SomethingLost(reg, changes, key) && !DefaultKept(reg, changes, key)
  {
    ContributionsAre(reg, changes, key);
    LostIsShorter(reg, changes, key);
    KeptIsStays(reg, changes, key);
    if DefaultStays(reg, changes, key) { DefaultExcludesLoss(reg, changes, key); }
  }

  // ---------- lists and texts ----------

  function Texts(vs: seq<(OptionValue, Source)>, delim: string): string
    requires forall i | 0 <= i < |vs| :: vs[i].0.Str?
  {
    if vs == [] then "" else if |vs| == 1 then vs[0].0.s
    else Texts(vs[..|vs| - 1], delim) + delim + vs[|vs| - 1].0.s
  }

  function Items(vs: seq<(OptionValue, Source)>): seq<string>
    requires forall i | 0 <= i < |vs| :: vs[i].0.List?
  {
    if vs == [] then [] else Items(vs[..|vs| - 1]) + vs[|vs| - 1].0.items
  }

  /** Texts are joined with the delimiter. */
  lemma {:induction false} CombinedTexts(vs: seq<(OptionValue, Source)>, delim: string)
    requires vs != [] && forall i | 0 <= i < |vs| :: vs[i].0.Str?
    ensures Combined(vs, delim) == Str(Texts(vs, delim))
  {
    if |vs| > 1 { CombinedTexts(vs[..|vs| - 1], delim); }
  }

  /** Lists are concatenated. */
  lemma {:induction false} CombinedLists(vs: seq<(OptionValue, Source)>, delim: string)
    requires vs != [] && forall i | 0 <= i < |vs| :: vs[i].0.List?
    ensures Combined(vs, delim) == List(Items(vs))
  {
    if |vs| > 1 {
      CombinedLists(vs[..|vs| - 1], delim);
    } else {
      assert vs[..0] == [] && Items(vs[..0]) == [];
    }
  }

  predicate AllLists(vs: seq<(OptionValue, Source)>) { forall i | 0 <= i < |vs| :: vs[i].0.List? }

  predicate AllTexts(vs: seq<(OptionValue, Source)>) { forall i | 0 <= i < |vs| :: vs[i].0.Str? }

  /** After any history a cumulative list holds the items of all that it is made up of, if that is anything. */
  lemma ListHolds(reg: Registry, changes: seq<Change>, key: string)
    requires reg.Valid() && IsCumulative(reg, key)
    requires AllLists(Base(reg, changes, key) + AcceptedSince(reg, changes, key))
    ensures var s, made := Run(reg, EMPTY, changes), Base(reg, changes, key) + AcceptedSince(reg, changes, key);
            (key in s.options <==> made != []) && (key in s.options ==> s.options[key] == List(Items(made)))
  {
    HistoryDecides(reg, changes, key);
    SameKeys(reg, changes);
    ContributionsAre(reg, changes, key);
    var made := Contributions(reg, changes, key);
    if made != [] { CombinedLists(made, Delimiter(reg, key)); }
  }

  /** The same for texts, which are joined with the delimiter. */
  lemma TextHolds(reg: Registry, changes: seq<Change>, key: string)
    requires reg.Valid() && IsCumulative(reg, key)
    requires AllTexts(Base(reg, changes, key) + AcceptedSince(reg, changes, key))
    ensures var s, made := Run(reg, EMPTY, changes), Base(reg, changes, key) + AcceptedSince(reg, changes, key);
            (key in s.options <==> made != []) &&
            (key in s.options ==> s.options[key] == Str(Texts(made, Delimiter(reg, key))))
  {
    HistoryDecides(reg, changes, key);
    SameKeys(reg, changes);
    ContributionsAre(reg, changes, key);
    var made := Contributions(reg, changes, key);
    if made != [] { CombinedTexts(made, Delimiter(reg, key)); }
  }

  /** A cumulative list option holds everything accepted since it was last replaced. */
  lemma CumulativeListHolds(reg: Registry, front: seq<Change>, c: Change, tail: seq<Change>, key: string)
    requires reg.Valid() && IsCumulative(reg, key)
    requires Overrides(reg, c, key) && forall d | d in tail :: !Overrides(reg, d, key)
    requires Effect(reg, c).value.1.List? &&
              forall i | 0 <= i < |Accepted(reg, tail, key)| :: Accepted(reg, tail, key)[i].0.List?
    ensures var s := Run(reg, EMPTY, front + [c] + tail);
            key in s.options && s.options[key] == List(Effect(reg, c).value.1.items + Items(Accepted(reg, tail, key)))
  {
    var base, added := (Effect(reg, c).value.1, Effect(reg, c).value.2), Accepted(reg, tail, key);
    HistoryDecides(reg, front + [c] + tail, key);
    ReplacedBy(reg, front, c, tail, key);
    BaseAndAdded(base, added, Delimiter(reg, key));
  }

  /** A cumulative text option holds the accepted texts, joined with its delimiter. */
  lemma CumulativeTextHolds(reg: Registry, front: seq<Change>, c: Change, tail: seq<Change>, key: string)
    requires reg.Valid() && IsCumulative(reg, key)
    requires Overrides(reg, c, key) && forall d | d in tail :: !Overrides(reg, d, key)
    requires Effect(reg, c).value.1.Str? &&
              forall i | 0 <= i < |Accepted(reg, tail, key)| :: Accepted(reg, tail, key)[i].0.Str?
    ensures var s := Run(reg, EMPTY, front + [c] + tail);
            key in s.options && s.options[key]
            == Str(Texts([(Effect(reg, c).value.1, FromCommandLine)] + Accepted(reg, tail, key), Delimiter(reg, key)))
  {
    HistoryDecides(reg, front + [c] + tail, key);
    ReplacedBy(reg, front, c, tail, key);
    CombinedTexts([(Effect(reg, c).value.1, Effect(reg, c).value.2)] + Accepted(reg, tail, key), Delimiter(reg, key));
  }

  /** No accepted value is overridden, and no default is kept. */
  predicate KeepsAccepted(reg: Registry, changes: seq<Change>, key: string) {
    !SomethingLost(reg, changes, key) && !DefaultKept(reg, changes, key)
  }

  /** Defaults loaded before anything is accepted make the default the oldest contribution: the rest is added to it. */
  lemma DefaultComesFirst(reg: Registry, front: seq<Change>, tail: seq<Change>, key: string)
    requires DefaultFor(reg, Defaults, key) && !Touched(reg, front, key)
    requires forall c | c in tail :: !Overrides(reg, c, key)
    ensures Contributions(reg, front + [Defaults] + tail, key)
            == [(reg.defs[key].fallback, FromDefaults)] + Accepted(reg, tail, key)
  {
    TouchedIsAccepted(reg, front, key);
    AcceptedEndsInSince(reg, front, key);
    ContributionsAre(reg, front, key);
    assert (front + [Defaults])[..|front|] == front;
    AccumulatesSince(reg, front + [Defaults], tail, key);
  }

  /** Under the exact condition a cumulative list holds the accepted items, if any, and nothing else. */
  lemma AddedListHolds(reg: Registry, changes: seq<Change>, key: string)
    requires reg.Valid() && IsCumulative(reg, key) && KeepsAccepted(reg, changes, key)
    requires forall i | 0 <= i < |Accepted(reg, changes, key)| :: Accepted(reg, changes, key)[i].0.List?
    ensures var s, accepted := Run(reg, EMPTY, changes), Accepted(reg, changes, key);
            (key in s.options <==> accepted != []) && (key in s.options ==> s.options[key] == List(Items(accepted)))
  {
    HistoryDecides(reg, changes, key);
    SameKeys(reg, changes);
    KeepsAcceptedExactly(reg, changes, key);
    if Accepted(reg, changes, key) != [] { CombinedLists(Accepted(reg, changes, key), Delimiter(reg, key)); }
  }

  lemma AddedTextHolds(reg: Registry, changes: seq<Change>, key: string)
    requires reg.Valid() && IsCumulative(reg, key) && KeepsAccepted(reg, changes, key)
    requires forall i | 0 <= i < |Accepted(reg, changes, key)| :: Accepted(reg, changes, key)[i].0.Str?
    ensures var s, accepted := Run(reg, EMPTY, changes), Accepted(reg, changes, key);
            (key in s.options <==> accepted != []) &&
            (key in s.options ==> s.options[key] == Str(Texts(accepted, Delimiter(reg, key))))
  {
    HistoryDecides(reg, changes, key);
    SameKeys(reg, changes);
    KeepsAcceptedExactly(reg, changes, key);
    if Accepted(reg, changes, key) != [] { CombinedTexts(Accepted(reg, changes, key), Delimiter(reg, key)); }
  }

  /** Wherever the defaults are loaded before anything is accepted, the accepted items follow the default. */
  lemma DefaultedListHolds(reg: Registry, front: seq<Change>, tail: seq<Change>, key: string)
    requires reg.Valid() && IsCumulative(reg, key) && DefaultFor(reg, Defaults, key)
    requires !Touched(reg, front, key)
    requires forall c | c in tail :: !Overrides(reg, c, key)
    requires reg.defs[key].fallback.List?
    requires forall i | 0 <= i < |Accepted(reg, tail, key)| :: Accepted(reg, tail, key)[i].0.List?
    ensures var s := Run(reg, EMPTY, front + [Defaults] + tail);
            key in s.options && s.options[key] == List(reg.defs[key].fallback.items + Items(Accepted(reg, tail, key)))
  {
    HistoryDecides(reg, front + [Defaults] + tail, key);
    DefaultComesFirst(reg, front, tail, key);
    BaseAndAdded((reg.defs[key].fallback, FromDefaults), Accepted(reg, tail, key), Delimiter(reg, key));
  }

  lemma DefaultedTextHolds(reg: Registry, front: seq<Change>, tail: seq<Change>, key: string)
    requires reg.Valid() && IsCumulative(reg, key) && DefaultFor(reg, Defaults, key)
    requires !Touched(reg, front, key)
    requires forall c | c in tail :: !Overrides(reg, c, key)
    requires reg.defs[key].fallback.Str?
    requires forall i | 0 <= i < |Accepted(reg, tail, key)| :: Accepted(reg, tail, key)[i].0.Str?
    ensures var s := Run(reg, EMPTY, front + [Defaults] + tail);
            key in s.options && s.options[key]
            == Str(Texts([(reg.defs[key].fallback, FromDefaults)] + Accepted(reg, tail, key), Delimiter(reg, key)))
  {
    HistoryDecides(reg, front + [Defaults] + tail, key);
    DefaultComesFirst(reg, front, tail, key);
    CombinedTexts([(reg.defs[key].fallback, FromDefaults)] + Accepted(reg, tail, key), Delimiter(reg, key));
  }

  /** A list option with a default, like `bt-tracker-source`. */
  const SOURCES := Registry(
    map["bt-tracker-source" := OptionDef(Some("\n"), true, false, List(["builtin"]), raw => Some(List([raw])))],
    map[], name => name, value => "")

  /** The defaults are loaded, then the user names a source: the option holds both. */
  lemma DefaultIsNotReplaced()
    ensures SOURCES.Valid()
    ensures Run(SOURCES, EMPTY, [Defaults, Add("bt-tracker-source", "own", FromFile)]).options
            == map["bt-tracker-source" := List(["builtin", "own"])]
  {
    var key, own := "bt-tracker-source", Add("bt-tracker-source", "own", FromFile);
    DefaultsLoaded();
    assert [Defaults, own][..1] == [Defaults];
    assert SOURCES.defs[key].ParseValue("own") == Some(List(["own"]));
    assert Merge(List(["builtin"]), List(["own"]), "\n") == List(["builtin", "own"]);
  }

  lemma DefaultsLoaded()
    ensures Run(SOURCES, EMPTY, [Defaults]).options == map["bt-tracker-source" := List(["builtin"])]
  {
    assert [Defaults][..0] == [];
    assert WithDefaults(SOURCES, EMPTY).options == map["bt-tracker-source" := List(["builtin"])];
  }

  lemma BaseAndAdded(base: (OptionValue, Source), added: seq<(OptionValue, Source)>, delim: string)
    requires base.0.List? && forall i | 0 <= i < |added| :: added[i].0.List?
    ensures Combined([base] + added, delim) == List(base.0.items + Items(added))
  {
    CombinedLists([base] + added, delim);
    ItemsAppend([base], added);
    assert [base][..0] == [] && Items([base]) == [] + base.0.items;
  }

  lemma {:induction false} ItemsAppend(a: seq<(OptionValue, Source)>, b: seq<(OptionValue, Source)>)
    requires (forall i | 0 <= i < |a| :: a[i].0.List?) && forall i | 0 <= i < |b| :: b[i].0.List?
    ensures Items(a + b) == Items(a) + Items(b)
    decreases b
  {
    if b == [] {
      assert a + b == a;
    } else {
      assert (a + b)[..|a + b| - 1] == a + b[..|b| - 1];
      ItemsAppend(a, b[..|b| - 1]);
    }
  }
}
