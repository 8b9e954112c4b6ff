/** The argument parser (packages/cli-framework/src/parser.ts). */
module Parser {
  import opened Basics

  datatype OptionType = TString | TBoolean | TNumber | TPositional

  datatype Value = Str(s: string) | Num(n: real) | Bool(b: bool) | List(items: seq<Value>)

  datatype Config = Config(
    name: string, aliases: seq<string>, typ: OptionType, default: Option<Value>,
    isRequired: bool, isInt: bool, isVariadic: bool,
    minVal: Option<real>, maxVal: Option<real>, enumVals: Option<seq<string>>,
    envVar: Option<string>, conflictsWith: seq<string>)

  /** One entry of the merged option table, in declaration order. */
  datatype Entry = Entry(key: string, config: Config)

  datatype Error =
    | UnknownOption(flag: string)
    | RequiresValue(flag: string)
    | NotANumber(source: string, text: string)
    | NotAnInteger(source: string, text: string)
    | OutOfRange(source: string, n: real)
    | NotABoolean(source: string, text: string)
    | NotInEnum(source: string, text: string)
    | MissingRequired(key: string)
    | Conflict(key: string, other: string)

  /** `Number(text)`, or none when it is NaN. */
  type ToNumber = string -> Option<real>

  type Flags = map<string, Entry>

  function FlagOf(name: string): string {
    if StartsWith(name, "-") then name else if |name| > 1 then "--" + name else "-" + name
  }

  // ---------------------------------------------------------------- coerce

  function Coerce(num: ToNumber, c: Config, text: string, source: string): Result<Value, Error> {
    match c.typ
    case TNumber =>
      var n := num(text);
      if n.None? then Err(NotANumber(source, text))
      else if c.isInt && n.value.Floor as real != n.value then Err(NotAnInteger(source, text))
      else if c.minVal.Some? && n.value < c.minVal.value then Err(OutOfRange(source, n.value))
      else if c.maxVal.Some? && n.value > c.maxVal.value then Err(OutOfRange(source, n.value))
      else Ok(Num(n.value))
    case TBoolean =>
      var lower := ToLower(text);
      if lower == "true" || lower == "1" then Ok(Bool(true))
      else if lower == "false" || lower == "0" then Ok(Bool(false))
      else Err(NotABoolean(source, text))
    case _ =>
      if c.enumVals.Some? && text !in c.enumVals.value then Err(NotInEnum(source, text)) else Ok(Str(text))
  }

  // ------------------------------------------------------------ the flag table

  function WithAliases(flags: Flags, aliases: seq<string>, e: Entry): Flags {
    if aliases == [] then flags
    else WithAliases(flags, aliases[..|aliases| - 1], e)[FlagOf(aliases[|aliases| - 1]) := e]
  }

  function FlagTable(entries: seq<Entry>): Flags {
    if entries == [] then map[]
    else
      var e := entries[|entries| - 1];
      var rest := FlagTable(entries[..|entries| - 1]);
      if e.config.typ.TPositional? then rest
      else WithAliases(rest[FlagOf(e.config.name) := e], e.config.aliases, e)
  }

  /** The entry can be set by flag `f`: its own or that of an alias. */
  predicate Declares(e: Entry, f: string) {
    !e.config.typ.TPositional? &&
    (FlagOf(e.config.name) == f || exists k | 0 <= k < |e.config.aliases| :: FlagOf(e.config.aliases[k]) == f)
  }

  /** The last entry that declares the flag. */
  function LastDeclaring(entries: seq<Entry>, f: string): (r: Option<nat>)
    ensures r.None? <==> forall i | 0 <= i < |entries| :: !Declares(entries[i], f)
    ensures r.Some? ==> r.value < |entries| && Declares(entries[r.value], f)
    ensures r.Some? ==> forall i | r.value < i < |entries| :: !Declares(entries[i], f)
  {
    if entries == [] then None
    else if Declares(entries[|entries| - 1], f) then Some(|entries| - 1)
    else
      var r := LastDeclaring(entries[..|entries| - 1], f);
      assert forall i | 0 <= i < |entries| - 1 :: entries[..|entries| - 1][i] == entries[i];
      r
  }

  lemma {:induction false} AliasesLead(flags: Flags, aliases: seq<string>, e: Entry, f: string)
    ensures var r := WithAliases(flags, aliases, e);
      if exists k | 0 <= k < |aliases| :: FlagOf(aliases[k]) == f then f in r && r[f] == e
      else (f in r <==> f in flags) && (f in r ==> r[f] == flags[f])
  {
    if aliases != [] {
      var n := |aliases| - 1;
      AliasesLead(flags, aliases[..n], e, f);
      assert forall k | 0 <= k < n :: aliases[..n][k] == aliases[k];
    }
  }

  /** A flag is in the table exactly when some entry declares it, and leads to the last that does. */
  lemma {:induction false} TableLeadsToLast(entries: seq<Entry>, f: string)
    ensures f in FlagTable(entries) <==> LastDeclaring(entries, f).Some?
    ensures f in FlagTable(entries) ==> FlagTable(entries)[f] == entries[LastDeclaring(entries, f).value]
  {
    if entries != [] {
      var n := |entries| - 1;
      TableLeadsToLast(entries[..n], f);
      var base := FlagTable(entries[..n])[FlagOf(entries[n].config.name) := entries[n]];
      AliasesLead(base, entries[n].config.aliases, entries[n], f);
    }
  }

  method BuildFlags(entries: seq<Entry>) returns (flags: Flags)
    ensures flags == FlagTable(entries)
    ensures forall f :: f in flags <==> LastDeclaring(entries, f).Some?
    ensures forall f | f in flags :: flags[f] == entries[LastDeclaring(entries, f).value]
  {
    flags := map[];
    for n := 0 to |entries|
      invariant flags == FlagTable(entries[..n])
    {
      var e := entries[n];
      assert entries[..n + 1][..n] == entries[..n];
      if !e.config.typ.TPositional? {
        flags := flags[FlagOf(e.config.name) := e];
        ghost var base := flags;
        for k := 0 to |e.config.aliases|
          invariant flags == WithAliases(base, e.config.aliases[..k], e)
        {
          assert e.config.aliases[..k + 1][..k] == e.config.aliases[..k];
          flags := flags[FlagOf(e.config.aliases[k]) := e];
        }
        assert e.config.aliases[..|e.config.aliases|] == e.config.aliases;
      }
    }
    assert entries[..|entries|] == entries;
    forall f ensures f in flags <==> LastDeclaring(entries, f).Some?
      ensures f in flags ==> flags[f] == entries[LastDeclaring(entries, f).value]
    { TableLeadsToLast(entries, f); }
  }

  // ------------------------------------------------------------- the tokens

  datatype Parsed = Parsed(options: map<string, Value>, positionals: seq<string>, dashdash: bool)

  datatype Step = Next(state: Parsed, used: nat) | Fail(error: Error)

  /** A value given for an entry: variadic options collect, others are overwritten. */
  function Store(st: Parsed, e: Entry, v: Value): Parsed {
    if e.config.isVariadic then
      var before := if e.key in st.options && st.options[e.key].List? then st.options[e.key].items else [];
      st.(options := st.options[e.key := List(before + [v])])
    else st.(options := st.options[e.key := v])
  }

  function StoreText(num: ToNumber, st: Parsed, e: Entry, text: string, flag: string, used: nat): Step {
    match Coerce(num, e.config, text, flag)
    case Ok(v) => Next(Store(st, e, v), used)
    case Err(x) => Fail(x)
  }

  predicate IsHelp(flags: Flags, arg: string) {
    (arg == "--help" || arg == "-h") && "--help" !in flags
  }

  predicate IsVersion(flags: Flags, arg: string) {
    (arg == "--version" || arg == "-v") && "--version" !in flags
  }

  predicate IsNegation(flags: Flags, arg: string) {
    && StartsWith(arg, "--no-")
    && "--" + arg[5..] in flags
    && flags["--" + arg[5..]].config.typ.TBoolean?
  }

  /** One turn of the token loop. */
  function Token(num: ToNumber, flags: Flags, args: seq<string>, st: Parsed): (r: Step)
    requires args != []
    ensures r.Next? ==> 1 <= r.used <= |args|
  {
    var arg := args[0];
    if arg == "--" then Next(st.(dashdash := true), 1)
    else if st.dashdash then Next(st.(positionals := st.positionals + [arg]), 1)
    else if IsHelp(flags, arg) then Next(st.(options := st.options["_help" := Bool(true)]), 1)
    else if IsVersion(flags, arg) then Next(st.(options := st.options["_version" := Bool(true)]), 1)
    else if IsNegation(flags, arg) then
      Next(st.(options := st.options[flags["--" + arg[5..]].key := Bool(false)]), 1)
    else if '=' in arg && StartsWith(arg, "-") then
      var i := IndexOf(arg, '=');
      var flag, text := arg[..i], arg[i + 1..];
      if flag !in flags then Fail(UnknownOption(flag))
      else StoreText(num, st, flags[flag], text, flag, 1)
    else if StartsWith(arg, "-") then
      if arg !in flags then Fail(UnknownOption(arg))
      else if flags[arg].config.typ.TBoolean? then
        var next := if |args| > 1 then ToLower(args[1]) else "";
        if next == "true" || next == "1" then Next(st.(options := st.options[flags[arg].key := Bool(true)]), 2)
        else if next == "false" || next == "0" then Next(st.(options := st.options[flags[arg].key := Bool(false)]), 2)
        else Next(st.(options := st.options[flags[arg].key := Bool(true)]), 1)
      else if |args| < 2 || StartsWith(args[1], "-") then Fail(RequiresValue(arg))
      else StoreText(num, st, flags[arg], args[1], arg, 2)
    else Next(st.(positionals := st.positionals + [arg]), 1)
  }

  function Tokens(num: ToNumber, flags: Flags, args: seq<string>, st: Parsed): Result<Parsed, Error>
    decreases |args|
  {
    if args == [] then Ok(st)
    else
      match Token(num, flags, args, st)
      case Fail(x) => Err(x)
      case Next(st', used) => Tokens(num, flags, args[used..], st')
  }

  const Start := Parsed(map[], [], false)

  method ParseTokens(num: ToNumber, flags: Flags, args: seq<string>) returns (r: Result<Parsed, Error>)
    ensures r == Tokens(num, flags, args, Start)
  {
    var st := Start;
    var i := 0;
    assert args[0..] == args;
    while i < |args|
      invariant 0 <= i <= |args|
      invariant Tokens(num, flags, args[i..], st) == Tokens(num, flags, args, Start)
    {
      var step := Token(num, flags, args[i..], st);
      if step.Fail? { return Err(step.error); }
      assert args[i..][step.used..] == args[i + step.used..];
      st := step.state;
      i := i + step.used;
    }
    return Ok(st);
  }

  // ------------------------------------------------ environment and defaults

  type Env = map<string, string>

  function EnvText(env: Env, c: Config): Option<string> {
    if c.envVar.Some? && c.envVar.value != "" && c.envVar.value in env then Some(env[c.envVar.value]) else None
  }

  function FromEnv(num: ToNumber, env: Env, entries: seq<Entry>, options: map<string, Value>): Result<map<string, Value>, Error>
    decreases |entries|
  {
    if entries == [] then Ok(options)
    else
      var e := entries[0];
      var text := EnvText(env, e.config);
      if e.key in options || text.None? then FromEnv(num, env, entries[1..], options)
      else
        match Coerce(num, e.config, text.value, "$" + e.config.envVar.value)
        case Err(x) => Err(x)
        case Ok(v) => FromEnv(num, env, entries[1..], options[e.key := v])
  }

  function WithDefaults(entries: seq<Entry>, options: map<string, Value>): map<string, Value>
    decreases |entries|
  {
    if entries == [] then options
    else
      var e := entries[0];
      WithDefaults(entries[1..],
        if e.key !in options && e.config.default.Some? then options[e.key := e.config.default.value] else options)
  }

  predicate Missing(e: Entry, options: map<string, Value>) {
    e.key !in options || (e.config.isVariadic && options[e.key] == List([]))
  }

  function FirstMissing(entries: seq<Entry>, options: map<string, Value>): Option<string> {
    if entries == [] then None
    else if !entries[0].config.typ.TPositional? && entries[0].config.isRequired && Missing(entries[0], options)
    then Some(entries[0].key)
    else FirstMissing(entries[1..], options)
  }

  function FirstOf(keys: seq<string>, options: map<string, Value>): Option<string> {
    if keys == [] then None
    else if keys[0] in options then Some(keys[0])
    else FirstOf(keys[1..], options)
  }

  function FirstConflict(entries: seq<Entry>, options: map<string, Value>): Option<(string, string)> {
    if entries == [] then None
    else
      var hit := if entries[0].key in options then FirstOf(entries[0].config.conflictsWith, options) else None;
      if hit.Some? then Some((entries[0].key, hit.value)) else FirstConflict(entries[1..], options)
  }

  function Finish(num: ToNumber, env: Env, entries: seq<Entry>, st: Parsed): Result<Parsed, Error> {
    match FromEnv(num, env, entries, st.options)
    case Err(x) => Err(x)
    case Ok(filled) =>
      var options := WithDefaults(entries, filled);
      if FirstMissing(entries, options).Some? then Err(MissingRequired(FirstMissing(entries, options).value))
      else if FirstConflict(entries, options).Some? then
        Err(Conflict(FirstConflict(entries, options).value.0, FirstConflict(entries, options).value.1))
      else Ok(st.(options := options))
  }

  function ParseArgv(num: ToNumber, env: Env, entries: seq<Entry>, args: seq<string>): Result<Parsed, Error> {
    match Tokens(num, FlagTable(entries), args, Start)
    case Err(x) => Err(x)
    case Ok(st) => Finish(num, env, entries, st)
  }

  // -------------------------------------------------- the passes, as loops

  method ResolveEnv(num: ToNumber, env: Env, entries: seq<Entry>, start: map<string, Value>)
    returns (r: Result<map<string, Value>, Error>)
    ensures r == FromEnv(num, env, entries, start)
  {
    var options := start;
    assert entries[0..] == entries;
    for n := 0 to |entries|
      invariant FromEnv(num, env, entries[n..], options) == FromEnv(num, env, entries, start)
    {
      var e := entries[n];
      assert entries[n..][1..] == entries[n + 1..];
      var text := EnvText(env, e.config);
      if e.key !in options && text.Some? {
        var v := Coerce(num, e.config, text.value, "$" + e.config.envVar.value);
        if v.Err? { return Err(v.error); }
        options := options[e.key := v.value];
      }
    }
    return Ok(options);
  }

  method ApplyDefaults(entries: seq<Entry>, start: map<string, Value>) returns (options: map<string, Value>)
    ensures options == WithDefaults(entries, start)
  {
    options := start;
    assert entries[0..] == entries;
    for n := 0 to |entries|
      invariant WithDefaults(entries[n..], options) == WithDefaults(entries, start)
    {
      var e := entries[n];
      assert entries[n..][1..] == entries[n + 1..];
      if e.key !in options && e.config.default.Some? {
        options := options[e.key := e.config.default.value];
      }
    }
  }

  method Validate(entries: seq<Entry>, options: map<string, Value>) returns (problem: Option<Error>)
    ensures problem ==
      if FirstMissing(entries, options).Some? then Some(MissingRequired(FirstMissing(entries, options).value))
      else if FirstConflict(entries, options).Some? then
        Some(Conflict(FirstConflict(entries, options).value.0, FirstConflict(entries, options).value.1))
      else None
  {
    assert entries[0..] == entries;
    for n := 0 to |entries|
      invariant FirstMissing(entries[n..], options) == FirstMissing(entries, options)
    {
      var e := entries[n];
      assert entries[n..][1..] == entries[n + 1..];
      if !e.config.typ.TPositional? && e.config.isRequired && Missing(e, options) { return Some(MissingRequired(e.key)); }
    }
    for n := 0 to |entries|
      invariant FirstConflict(entries[n..], options) == FirstConflict(entries, options)
    {
      var e := entries[n];
      assert entries[n..][1..] == entries[n + 1..];
      if e.key in options {
        var keys := e.config.conflictsWith;
        assert keys[0..] == keys;
        for k := 0 to |keys|
          invariant FirstOf(keys[k..], options) == FirstOf(keys, options)
        {
          assert keys[k..][1..] == keys[k + 1..];
          if keys[k] in options { return Some(Conflict(e.key, keys[k])); }
        }
      }
    }
    return None;
  }

  method Parse(num: ToNumber, env: Env, entries: seq<Entry>, args: seq<string>) returns (r: Result<Parsed, Error>)
    ensures r == ParseArgv(num, env, entries, args)
  {
    var flags := BuildFlags(entries);
    var parsed := ParseTokens(num, flags, args);
    if parsed.Err? { return parsed; }
    var filled := ResolveEnv(num, env, entries, parsed.value.options);
    if filled.Err? { return Err(filled.error); }
    var options := ApplyDefaults(entries, filled.value);
    var problem := Validate(entries, options);
    if problem.Some? { return Err(problem.value); }
    return Ok(parsed.value.(options := options));
  }
}
