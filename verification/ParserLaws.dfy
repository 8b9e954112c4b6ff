/** What the argument parser promises: equal spellings, a printer it inverts, and what fills the gaps. */
module ParserLaws {
  import opened Basics
  import opened Parser

  // ------------------------------------------------------------ equal spellings

  /** A flag of its own that the token negates. */
  ghost predicate Negates(flags: Flags, arg: string) {
    exists f | f in flags :: flags[f].config.typ.TBoolean? && StartsWith(f, "--") && arg == "--no-" + f[2..]
  }

  /** The parser reads the token as the flag it spells. */
  ghost predicate Ordinary(flags: Flags, arg: string) {
    && (arg == "--help" || arg == "-h" ==> "--help" in flags)
    && (arg == "--version" || arg == "-v" ==> "--version" in flags)
    && !Negates(flags, arg)
  }

  lemma OrdinaryIs(flags: Flags, arg: string)
    ensures IsNegation(flags, arg) <==> Negates(flags, arg)
    ensures Ordinary(flags, arg) <==> !IsHelp(flags, arg) && !IsVersion(flags, arg) && !IsNegation(flags, arg)
  {
    if IsNegation(flags, arg) {
      var f := "--" + arg[5..];
      assert f[..2] == "--" && f[2..] == arg[5..] && arg == arg[..5] + arg[5..];
    }
    if Negates(flags, arg) {
      var f :| f in flags && flags[f].config.typ.TBoolean? && StartsWith(f, "--") && arg == "--no-" + f[2..];
      assert arg[..5] == "--no-" && arg[5..] == f[2..] && f == f[..2] + f[2..];
    }
  }

  /** A flag that takes a value and is none of the special tokens. */
  ghost predicate TakesValue(flags: Flags, flag: string, text: string) {
    && flag in flags && !flags[flag].config.typ.TBoolean?
    && StartsWith(flag, "-") && flag != "--" && '=' !in flag
    && Ordinary(flags, flag) && !Negates(flags, flag + "=" + text)
  }

  lemma SplitAtEquals(flag: string, text: string)
    requires '=' !in flag
    ensures var arg := flag + "=" + text;
      var i := IndexOf(arg, '=');
      '=' in arg && i == |flag| && arg[..i] == flag && arg[i + 1..] == text
  {
    var arg := flag + "=" + text;
    assert arg[|flag|] == '=';
    assert forall j | 0 <= j < |flag| :: arg[j] == flag[j];
  }

  lemma SpacedToken(num: ToNumber, flags: Flags, flag: string, text: string, rest: seq<string>, st: Parsed)
    requires TakesValue(flags, flag, text) && !st.dashdash
    ensures Token(num, flags, [flag, text] + rest, st) ==
      if StartsWith(text, "-") then Fail(RequiresValue(flag)) else StoreText(num, st, flags[flag], text, flag, 2)
  {
    OrdinaryIs(flags, flag);
  }

  lemma JoinedToken(num: ToNumber, flags: Flags, flag: string, text: string, rest: seq<string>, st: Parsed)
    requires flag in flags && StartsWith(flag, "-") && '=' !in flag && !Negates(flags, flag + "=" + text) && !st.dashdash
    ensures Token(num, flags, [flag + "=" + text] + rest, st) == StoreText(num, st, flags[flag], text, flag, 1)
  {
    OrdinaryIs(flags, flag + "=" + text);
    SplitAtEquals(flag, text);
    NotSpecial(flag + "=" + text);
    assert StartsWith(flag + "=" + text, "-");
  }

  lemma NotSpecial(arg: string)
    requires '=' in arg
    ensures arg !in ["--help", "-h", "--version", "-v", "--"]
  {
  }

  /** One turn that uses `n` tokens. */
  lemma OneTurn(num: ToNumber, flags: Flags, args: seq<string>, st: Parsed)
    requires args != []
    ensures var t := Token(num, flags, args, st);
      Tokens(num, flags, args, st) == if t.Fail? then Err(t.error) else Tokens(num, flags, args[t.used..], t.state)
  {
  }

  /** `flag value` and `flag=value` are one token step apart from nothing. */
  lemma SpellingsAgreeHere(num: ToNumber, flags: Flags, flag: string, text: string, rest: seq<string>, st: Parsed)
    requires TakesValue(flags, flag, text) && !st.dashdash
    ensures !StartsWith(text, "-") ==>
      Tokens(num, flags, [flag, text] + rest, st) == Tokens(num, flags, [flag + "=" + text] + rest, st)
    ensures StartsWith(text, "-") ==>
      Tokens(num, flags, [flag, text] + rest, st) == Err(RequiresValue(flag))
  {
    SpacedToken(num, flags, flag, text, rest, st);
    JoinedToken(num, flags, flag, text, rest, st);
    OneTurn(num, flags, [flag, text] + rest, st);
    OneTurn(num, flags, [flag + "=" + text] + rest, st);
    assert ([flag, text] + rest)[2..] == rest && ([flag + "=" + text] + rest)[1..] == rest;
  }

  /** Two tails that start with a flag and parse alike parse alike after any tokens without `--`. */
  lemma {:induction false} TailsAgree(num: ToNumber, flags: Flags, pre: seq<string>, a: seq<string>, b: seq<string>, st: Parsed)
    requires a != [] && b != [] && StartsWith(a[0], "-") && StartsWith(b[0], "-")
    requires "--" !in pre && !st.dashdash
    requires forall s: Parsed | !s.dashdash :: Tokens(num, flags, a, s) == Tokens(num, flags, b, s)
    ensures Tokens(num, flags, pre + a, st) == Tokens(num, flags, pre + b, st)
    decreases |pre|
  {
    if pre == [] {
      assert pre + a == a && pre + b == b;
    } else {
      var x := Token(num, flags, pre + a, st);
      FirstTokenAgrees(num, flags, pre, a, b, st);
      OneTurn(num, flags, pre + a, st);
      OneTurn(num, flags, pre + b, st);
      if x.Next? {
        DropFromFront(pre, a, x.used);
        DropFromFront(pre, b, x.used);
        TailsAgree(num, flags, pre[x.used..], a, b, x.state);
      }
    }
  }

  lemma DropFromFront(pre: seq<string>, rest: seq<string>, n: nat)
    requires n <= |pre|
    ensures (pre + rest)[n..] == pre[n..] + rest
    ensures "--" !in pre ==> "--" !in pre[n..]
  {
  }

  lemma FirstTokenAgrees(num: ToNumber, flags: Flags, pre: seq<string>, a: seq<string>, b: seq<string>, st: Parsed)
    requires a != [] && b != [] && StartsWith(a[0], "-") && StartsWith(b[0], "-")
    requires pre != [] && pre[0] != "--" && !st.dashdash
    ensures Token(num, flags, pre + a, st) == Token(num, flags, pre + b, st)
    ensures var x := Token(num, flags, pre + a, st); x.Next? ==> x.used <= |pre| && !x.state.dashdash
  {
    assert (pre + a)[0] == pre[0] == (pre + b)[0];
    if |pre| > 1 {
      assert (pre + a)[1] == pre[1] == (pre + b)[1];
    } else {
      assert (pre + a)[1] == a[0] && (pre + b)[1] == b[0];
      assert ToLower(a[0])[0] == '-' && ToLower(b[0])[0] == '-';
    }
  }

  /** Anywhere before `--`, writing `flag value` as `flag=value` changes nothing, errors included. */
  lemma SpellingsAgree(num: ToNumber, env: Env, entries: seq<Entry>, pre: seq<string>, flag: string, text: string, rest: seq<string>)
    requires TakesValue(FlagTable(entries), flag, text) && !StartsWith(text, "-") && "--" !in pre
    ensures ParseArgv(num, env, entries, pre + ([flag, text] + rest))
         == ParseArgv(num, env, entries, pre + ([flag + "=" + text] + rest))
  {
    var flags := FlagTable(entries);
    forall s: Parsed | !s.dashdash
      ensures Tokens(num, flags, [flag, text] + rest, s) == Tokens(num, flags, [flag + "=" + text] + rest, s)
    { SpellingsAgreeHere(num, flags, flag, text, rest, s); }
    TailsAgree(num, flags, pre, [flag, text] + rest, [flag + "=" + text] + rest, Start);
  }

  // ------------------------------------------------------------- what a token does

  /** A name becomes a flag with two dashes, a letter with one; a name that is a flag already stays. */
  lemma FlagsAreNamed(name: string)
    ensures StartsWith(FlagOf(name), "-")
    ensures StartsWith(name, "-") ==> FlagOf(name) == name
    ensures !StartsWith(name, "-") && |name| == 1 ==> FlagOf(name) == "-" + name
    ensures !StartsWith(name, "-") && |name| > 1 ==> FlagOf(name) == "--" + name
  { }

  /** `--help` and `--version` are asked for by their flag or letter, unless the command has an option of that name. */
  lemma HelpAndVersion(num: ToNumber, flags: Flags, rest: seq<string>, st: Parsed)
    requires !st.dashdash
    ensures "--help" !in flags ==> forall arg | arg in {"--help", "-h"} ::
      Token(num, flags, [arg] + rest, st) == Next(st.(options := st.options["_help" := Bool(true)]), 1)
    ensures "--version" !in flags ==> forall arg | arg in {"--version", "-v"} ::
      Token(num, flags, [arg] + rest, st) == Next(st.(options := st.options["_version" := Bool(true)]), 1)
  { }

  /** A token that is no flag is a positional; so is every token after `--`, which itself is none. */
  lemma WordsArePositional(num: ToNumber, flags: Flags, word: string, rest: seq<string>, st: Parsed)
    ensures word != "--" && (st.dashdash || !StartsWith(word, "-")) ==>
      Token(num, flags, [word] + rest, st) == Next(st.(positionals := st.positionals + [word]), 1)
    ensures Token(num, flags, ["--"] + rest, st) == Next(st.(dashdash := true), 1)
  {
    assert StartsWith("--help", "-") && StartsWith("-h", "-") && StartsWith("--version", "-") && StartsWith("-v", "-");
    if StartsWith(word, "--no-") { assert word[..5][..1] == "-"; }
  }

  /** A flag that nothing declares is refused, with or without a value. */
  lemma UnknownFlagsAreRefused(num: ToNumber, flags: Flags, flag: string, text: string, rest: seq<string>, st: Parsed)
    requires flag !in flags && StartsWith(flag, "-") && '=' !in flag && flag != "--" && !st.dashdash
    ensures Ordinary(flags, flag) ==> Token(num, flags, [flag] + rest, st) == Fail(UnknownOption(flag))
    ensures !Negates(flags, flag + "=" + text) ==> Token(num, flags, [flag + "=" + text] + rest, st) == Fail(UnknownOption(flag))
  {
    OrdinaryIs(flags, flag);
    OrdinaryIs(flags, flag + "=" + text);
    SplitAtEquals(flag, text);
    NotSpecial(flag + "=" + text);
    assert StartsWith(flag + "=" + text, "-");
  }

  /** A boolean flag is true, unless the next token spells a truth value, which then is its value. */
  lemma SwitchesAreSet(num: ToNumber, flags: Flags, flag: string, rest: seq<string>, st: Parsed)
    requires flag in flags && flags[flag].config.typ.TBoolean? && StartsWith(flag, "-") && '=' !in flag && flag != "--"
    requires Ordinary(flags, flag) && !st.dashdash
    ensures var spelled := rest != [] && ToLower(rest[0]) in {"true", "1", "false", "0"};
      var value := !(spelled && ToLower(rest[0]) in {"false", "0"});
      Token(num, flags, [flag] + rest, st) ==
        Next(st.(options := st.options[flags[flag].key := Bool(value)]), if spelled then 2 else 1)
  {
    OrdinaryIs(flags, flag);
  }

  // ------------------------------------------------------------- what a text becomes

  function AsReal(k: int): real { k as real }

  ghost predicate IsWhole(n: real) {
    exists k: int :: AsReal(k) == n
  }

  /** A value that an option of this type, with these limits, may have. */
  ghost predicate Fits(c: Config, v: Value) {
    match v
    case Str(s) => (c.typ.TString? || c.typ.TPositional?) && (c.enumVals.None? || s in c.enumVals.value)
    case Num(n) =>
      && c.typ.TNumber? && (c.isInt ==> IsWhole(n))
      && (c.minVal.Some? ==> c.minVal.value <= n) && (c.maxVal.Some? ==> n <= c.maxVal.value)
    case Bool(_) => c.typ.TBoolean?
    case List(_) => false
  }

  /** A text is a string as it stands, one of those listed if there is a list. */
  lemma StringsAreKept(num: ToNumber, c: Config, text: string, source: string)
    requires c.typ.TString? || c.typ.TPositional?
    ensures Coerce(num, c, text, source) == if Fits(c, Str(text)) then Ok(Str(text)) else Err(NotInEnum(source, text))
  { }

  lemma WholeIsItsFloor(n: real)
    ensures IsWhole(n) <==> n.Floor as real == n
  {
    assert IsWhole(n) <== AsReal(n.Floor) == n;
  }

  /** A number is the number the text reads as, exactly when there is one, whole if need be, and within both bounds. */
  lemma NumbersAreRead(num: ToNumber, c: Config, text: string, source: string)
    requires c.typ.TNumber?
    ensures Coerce(num, c, text, source).Ok? <==> num(text).Some? && Fits(c, Num(num(text).value))
    ensures Coerce(num, c, text, source).Ok? ==> Coerce(num, c, text, source).value == Num(num(text).value)
    ensures Coerce(num, c, text, source) == Err(NotANumber(source, text)) <==> num(text).None?
    ensures Coerce(num, c, text, source) == Err(NotAnInteger(source, text)) <==>
      num(text).Some? && c.isInt && !IsWhole(num(text).value)
    ensures Coerce(num, c, text, source) == Err(NotANumber(source, text)) || Coerce(num, c, text, source) == Err(NotAnInteger(source, text))
      || Coerce(num, c, text, source).Ok? || Coerce(num, c, text, source) == Err(OutOfRange(source, num(text).value))
  {
    if num(text).Some? { WholeIsItsFloor(num(text).value); }
  }

  /** A boolean has two spellings for each value, in any case. */
  lemma BooleansAreRead(num: ToNumber, c: Config, text: string, source: string)
    requires c.typ.TBoolean?
    ensures Coerce(num, c, text, source) == Ok(Bool(true)) <==> ToLower(text) in {"true", "1"}
    ensures Coerce(num, c, text, source) == Ok(Bool(false)) <==> ToLower(text) in {"false", "0"}
    ensures ToLower(text) !in {"true", "1", "false", "0"} ==> Coerce(num, c, text, source) == Err(NotABoolean(source, text))
  { }

  // ------------------------------------------------------- parsing undoes printing

  /** How numbers are printed; every number reads as itself. */
  type Printer = real -> string

  ghost predicate ReadsBack(num: ToNumber, show: Printer) {
    forall n: real :: num(show(n)) == Some(n)
  }

  function Print(show: Printer, v: Value): string {
    match v
    case Str(s) => s
    case Num(n) => show(n)
    case Bool(b) => if b then "true" else "false"
    case List(_) => ""
  }

  /** A value that fits is what its printed form becomes. */
  lemma PrintedIsRead(num: ToNumber, show: Printer, c: Config, v: Value, source: string)
    requires ReadsBack(num, show) && Fits(c, v)
    ensures Coerce(num, c, Print(show, v), source) == Ok(v)
  {
    match v
    case Str(s) => StringsAreKept(num, c, s, source);
    case Num(n) => NumbersAreRead(num, c, show(n), source);
    case Bool(b) => assert ToLower("true") == "true" && ToLower("false") == "false"; BooleansAreRead(num, c, Print(show, v), source);
  }

  datatype Assign = Assign(flag: string, value: Value)

  /** A setting the command line can express as `flag=text`. */
  ghost predicate Settable(flags: Flags, a: Assign) {
    a.flag in flags && StartsWith(a.flag, "-") && '=' !in a.flag && Fits(flags[a.flag].config, a.value)
  }

  ghost predicate AllSettable(flags: Flags, assigns: seq<Assign>) {
    forall i | 0 <= i < |assigns| :: Settable(flags, assigns[i])
  }

  function Rendered(show: Printer, a: Assign): string {
    a.flag + "=" + Print(show, a.value)
  }

  function Render(show: Printer, assigns: seq<Assign>): (r: seq<string>)
    ensures |r| == |assigns|
    ensures forall i | 0 <= i < |assigns| :: r[i] == Rendered(show, assigns[i])
  {
    seq(|assigns|, i requires 0 <= i < |assigns| => Rendered(show, assigns[i]))
  }

  /** The values given for option `key`, in order. */
  ghost function Given(flags: Flags, assigns: seq<Assign>, key: string): seq<Value>
    requires AllSettable(flags, assigns)
    decreases |assigns|
  {
    if assigns == [] then []
    else
      var a := assigns[0];
      (if flags[a.flag].key == key then [a.value] else []) + Given(flags, assigns[1..], key)
  }

  function Get(m: map<string, Value>, key: string): Option<Value> {
    if key in m then Some(m[key]) else None
  }

  predicate IsVariadic(flags: Flags, key: string) {
    exists f | f in flags :: flags[f].key == key && flags[f].config.isVariadic
  }

  /** A variadic option collects what it is given, another keeps the last value. */
  function Absorb(variadic: bool, before: Option<Value>, given: seq<Value>): Option<Value> {
    if given == [] then before
    else if variadic then
      Some(List((if before.Some? && before.value.List? then before.value.items else []) + given))
    else Some(given[|given| - 1])
  }

  ghost predicate Holds(flags: Flags, assigns: seq<Assign>, before: map<string, Value>, after: map<string, Value>)
    requires AllSettable(flags, assigns)
  {
    forall key :: Get(after, key) == Absorb(IsVariadic(flags, key), Get(before, key), Given(flags, assigns, key))
  }

  /** All flags of an option carry the same entry. */
  ghost predicate Agreeing(flags: Flags) {
    forall f, g | f in flags && g in flags && flags[f].key == flags[g].key :: flags[f] == flags[g]
  }

  ghost predicate PlainFlags(flags: Flags) {
    forall f | f in flags :: '=' !in f
  }

  lemma NotNegation(flags: Flags, flag: string, text: string)
    requires PlainFlags(flags) && '=' !in flag
    ensures !Negates(flags, flag + "=" + text)
  {
    OrdinaryIs(flags, flag + "=" + text);
    var arg := flag + "=" + text;
    assert arg[|flag|] == '=';
    if |flag| >= 5 {
      assert ("--" + arg[5..])[|flag| - 3] == '=';
    } else {
      assert "--no-"[|flag|] != '=';
      assert |arg| >= 5 ==> arg[..5][|flag|] == '=';
    }
  }

  lemma RenderedToken(num: ToNumber, show: Printer, flags: Flags, a: Assign, rest: seq<string>, st: Parsed)
    requires ReadsBack(num, show) && PlainFlags(flags) && Settable(flags, a) && !st.dashdash
    ensures Tokens(num, flags, [Rendered(show, a)] + rest, st) == Tokens(num, flags, rest, Store(st, flags[a.flag], a.value))
  {
    NotNegation(flags, a.flag, Print(show, a.value));
    JoinedToken(num, flags, a.flag, Print(show, a.value), rest, st);
    PrintedIsRead(num, show, flags[a.flag].config, a.value, a.flag);
    OneTurn(num, flags, [Rendered(show, a)] + rest, st);
    assert ([Rendered(show, a)] + rest)[1..] == rest;
  }

  lemma NegationToken(num: ToNumber, flags: Flags, x: string, rest: seq<string>, st: Parsed)
    requires "--" + x in flags && flags["--" + x].config.typ.TBoolean? && !st.dashdash
    ensures Token(num, flags, ["--no-" + x] + rest, st) ==
      Next(st.(options := st.options[flags["--" + x].key := Bool(false)]), 1)
  {
    var arg := "--no-" + x;
    assert arg[5..] == x && arg[..5] == "--no-" && arg[2] == 'n';
    assert "--help"[2] == 'h' && "--version"[2] == 'v';
    assert StartsWith(arg, "--no-") && IsNegation(flags, arg);
    assert ([arg] + rest)[0] == arg;
  }

  lemma OneToken(num: ToNumber, flags: Flags, arg: string, rest: seq<string>, st: Parsed)
    ensures var t := Token(num, flags, [arg] + rest, st);
      t.Next? && t.used == 1 ==> Tokens(num, flags, [arg] + rest, st) == Tokens(num, flags, rest, t.state)
  {
    assert ([arg] + rest)[1..] == rest;
  }

  /** `--no-x` and `--x=false` set a boolean option alike, to false. */
  lemma NegationIsFalse(num: ToNumber, flags: Flags, x: string, rest: seq<string>, st: Parsed)
    requires PlainFlags(flags) && "--" + x in flags && !st.dashdash
    requires flags["--" + x].config.typ.TBoolean? && !flags["--" + x].config.isVariadic
    ensures Tokens(num, flags, ["--no-" + x] + rest, st) == Tokens(num, flags, ["--" + x + "=" + "false"] + rest, st)
    ensures Tokens(num, flags, ["--no-" + x] + rest, st) ==
      Tokens(num, flags, rest, st.(options := st.options[flags["--" + x].key := Bool(false)]))
  {
    var flag, joined := "--" + x, "--" + x + "=" + "false";
    assert '=' !in flag;
    NotNegation(flags, flag, "false");
    JoinedToken(num, flags, flag, "false", rest, st);
    assert ToLower("false") == "false";
    BooleansAreRead(num, flags[flag].config, "false", flag);
    OneToken(num, flags, joined, rest, st);
    NegationToken(num, flags, x, rest, st);
    OneToken(num, flags, "--no-" + x, rest, st);
  }

  lemma {:induction false} RenderParses(num: ToNumber, show: Printer, flags: Flags, assigns: seq<Assign>, tail: seq<string>, st: Parsed)
    returns (u: Parsed)
    requires ReadsBack(num, show) && PlainFlags(flags) && Agreeing(flags) && !st.dashdash
    requires AllSettable(flags, assigns)
    ensures Tokens(num, flags, Render(show, assigns) + tail, st) == Tokens(num, flags, tail, u)
    ensures !u.dashdash && u.positionals == st.positionals
    ensures Holds(flags, assigns, st.options, u.options)
    decreases |assigns|
  {
    if assigns == [] {
      u := st;
      assert Render(show, assigns) + tail == tail;
    } else {
      var a := assigns[0];
      var st1 := Store(st, flags[a.flag], a.value);
      assert Render(show, assigns) + tail == [Rendered(show, a)] + (Render(show, assigns[1..]) + tail);
      RenderedToken(num, show, flags, a, Render(show, assigns[1..]) + tail, st);
      u := RenderParses(num, show, flags, assigns[1..], tail, st1);
      HoldsOneMore(flags, assigns, st, u.options);
    }
  }

  lemma HoldsOneMore(flags: Flags, assigns: seq<Assign>, st: Parsed, after: map<string, Value>)
    requires Agreeing(flags) && assigns != [] && AllSettable(flags, assigns)
    requires Settable(flags, assigns[0]) && AllSettable(flags, assigns[1..])
    requires Holds(flags, assigns[1..], Store(st, flags[assigns[0].flag], assigns[0].value).options, after)
    ensures Holds(flags, assigns, st.options, after)
  {
    var a := assigns[0];
    var v := a.value;
    var mid := Store(st, flags[a.flag], v).options;
    forall key
      ensures Get(after, key) == Absorb(IsVariadic(flags, key), Get(st.options, key), Given(flags, assigns, key))
    {
      var rest := Given(flags, assigns[1..], key);
      assert Get(after, key) == Absorb(IsVariadic(flags, key), Get(mid, key), rest);
      if flags[a.flag].key == key {
        assert IsVariadic(flags, key) == flags[a.flag].config.isVariadic;
        AbsorbOneMore(IsVariadic(flags, key), Get(st.options, key), v, rest);
      } else {
        assert [] + rest == rest;
      }
    }
  }

  lemma AbsorbOneMore(variadic: bool, before: Option<Value>, v: Value, rest: seq<Value>)
    ensures Absorb(variadic, Absorb(variadic, before, [v]), rest) == Absorb(variadic, before, [v] + rest)
  {
    var items := if before.Some? && before.value.List? then before.value.items else [];
    if rest == [] {
      assert [v] + rest == [v];
    } else {
      assert items + [v] + rest == items + ([v] + rest);
    }
  }

  /** What the parser keeps of the tokens after `--`: later `--` tokens disappear. */
  function Kept(tokens: seq<string>): seq<string> {
    if tokens == [] then []
    else (if tokens[0] == "--" then [] else [tokens[0]]) + Kept(tokens[1..])
  }

  lemma {:induction false} KeptIsAll(tokens: seq<string>)
    ensures Kept(tokens) == tokens <==> "--" !in tokens
    ensures |Kept(tokens)| <= |tokens|
  {
    if tokens != [] {
      KeptIsAll(tokens[1..]);
      if tokens[0] == "--" {
        assert [] + Kept(tokens[1..]) == Kept(tokens[1..]);
        assert |Kept(tokens)| < |tokens|;
      } else {
        assert Kept(tokens)[1..] == Kept(tokens[1..]);
        assert tokens == [tokens[0]] + tokens[1..];
        assert Kept(tokens) == [tokens[0]] + Kept(tokens[1..]);
        assert "--" in tokens <==> "--" in tokens[1..];
      }
    }
  }

  lemma {:induction false} AfterDashDash(num: ToNumber, flags: Flags, tokens: seq<string>, st: Parsed)
    requires st.dashdash
    ensures Tokens(num, flags, tokens, st) == Ok(st.(positionals := st.positionals + Kept(tokens)))
    decreases |tokens|
  {
    if tokens == [] {
      assert st.positionals + [] == st.positionals;
    } else {
      var st1 := if tokens[0] == "--" then st else st.(positionals := st.positionals + [tokens[0]]);
      assert tokens == [tokens[0]] + tokens[1..];
      OneToken(num, flags, tokens[0], tokens[1..], st);
      AfterDashDash(num, flags, tokens[1..], st1);
      assert st1.positionals + Kept(tokens[1..]) == st.positionals + Kept(tokens);
    }
  }

  /** Printing settings and positionals and parsing them back gives them back: an option that is not variadic has the value last
      printed for it, a variadic one the list of all, and no other option is set. */
  lemma ParseUndoesRender(num: ToNumber, show: Printer, env: Env, entries: seq<Entry>, assigns: seq<Assign>, positionals: seq<string>)
    returns (u: Parsed)
    requires ReadsBack(num, show) && PlainFlags(FlagTable(entries)) && Agreeing(FlagTable(entries))
    requires AllSettable(FlagTable(entries), assigns)
    ensures ParseArgv(num, env, entries, Render(show, assigns) + (["--"] + positionals)) == Finish(num, env, entries, u)
    ensures Holds(FlagTable(entries), assigns, map[], u.options)
    ensures u.positionals == positionals <==> "--" !in positionals
  {
    var flags := FlagTable(entries);
    var v := RenderParses(num, show, flags, assigns, ["--"] + positionals, Start);
    assert (["--"] + positionals)[1..] == positionals;
    AfterDashDash(num, flags, positionals, v.(dashdash := true));
    KeptIsAll(positionals);
    assert [] + Kept(positionals) == Kept(positionals);
    assert Tokens(num, flags, ["--"] + positionals, v) == Tokens(num, flags, positionals, v.(dashdash := true));
    u := v.(dashdash := true, positionals := Kept(positionals));
  }

  /** In particular, one setting printed comes back as the value it was. */
  lemma OneSettingComesBack(num: ToNumber, show: Printer, flags: Flags, a: Assign)
    requires ReadsBack(num, show) && PlainFlags(flags) && Settable(flags, a) && !flags[a.flag].config.isVariadic
    ensures Tokens(num, flags, [Rendered(show, a)], Start) == Ok(Start.(options := map[flags[a.flag].key := a.value]))
  {
    assert [Rendered(show, a)] + [] == [Rendered(show, a)];
    RenderedToken(num, show, flags, a, [], Start);
  }

  /** Entries with distinct keys give a table in which all flags of an option agree. */
  lemma {:induction false} TablesAgree(entries: seq<Entry>)
    requires forall i, j | 0 <= i < j < |entries| :: entries[i].key != entries[j].key
    ensures Agreeing(FlagTable(entries))
    ensures forall f | f in FlagTable(entries) :: FlagTable(entries)[f] in entries
  {
    if entries != [] {
      var n := |entries| - 1;
      TablesAgree(entries[..n]);
      var base := FlagTable(entries[..n])[FlagOf(entries[n].config.name) := entries[n]];
      AliasesOnlyAdd(base, entries[n].config.aliases, entries[n]);
    }
  }

  lemma {:induction false} AliasesOnlyAdd(flags: Flags, aliases: seq<string>, e: Entry)
    ensures forall f | f in WithAliases(flags, aliases, e) ::
      WithAliases(flags, aliases, e)[f] == e || (f in flags && WithAliases(flags, aliases, e)[f] == flags[f])
  {
    if aliases != [] { AliasesOnlyAdd(flags, aliases[..|aliases| - 1], e); }
  }

  // -------------------------------------------------------- filling the gaps

  ghost predicate DistinctKeys(entries: seq<Entry>) {
    forall i, j | 0 <= i < j < |entries| :: entries[i].key != entries[j].key
  }

  /** The value an unset option gets: what its variable's text stands for if it names one that is set, or else its default. */
  function Filler(num: ToNumber, env: Env, e: Entry): Option<Value> {
    if e.config.envVar.Some? && e.config.envVar.value != "" && e.config.envVar.value in env then
      match Coerce(num, e.config, env[e.config.envVar.value], "$" + e.config.envVar.value)
      case Ok(v) => Some(v)
      case Err(_) => None
    else e.config.default
  }

  lemma {:induction false} EnvFills(num: ToNumber, env: Env, entries: seq<Entry>, options: map<string, Value>)
    requires DistinctKeys(entries) && FromEnv(num, env, entries, options).Ok?
    ensures var r := FromEnv(num, env, entries, options).value;
      && (forall k | k in options :: k in r && r[k] == options[k])
      && (forall k | k in r && k !in options :: exists e :: e in entries && e.key == k)
      && (forall e | e in entries && e.key !in options ::
            if EnvText(env, e.config).Some? then Filler(num, env, e).Some? && e.key in r && r[e.key] == Filler(num, env, e).value
            else e.key !in r)
    decreases |entries|
  {
    if entries != [] {
      var e := entries[0];
      var text := EnvText(env, e.config);
      var next := if e.key in options || text.None? then options else options[e.key := Filler(num, env, e).value];
      EnvFills(num, env, entries[1..], next);
      assert forall x | x in entries :: x == e || x in entries[1..];
      assert forall x | x in entries[1..] :: x.key != e.key;
    }
  }

  lemma {:induction false} DefaultsFill(entries: seq<Entry>, options: map<string, Value>)
    requires DistinctKeys(entries)
    ensures var r := WithDefaults(entries, options);
      && (forall k | k in options :: k in r && r[k] == options[k])
      && (forall k | k in r && k !in options :: exists e :: e in entries && e.key == k)
      && (forall e | e in entries && e.key !in options ::
            (e.key in r <==> e.config.default.Some?) && (e.key in r ==> r[e.key] == e.config.default.value))
    decreases |entries|
  {
    if entries != [] {
      var e := entries[0];
      var next := if e.key !in options && e.config.default.Some? then options[e.key := e.config.default.value] else options;
      DefaultsFill(entries[1..], next);
      assert forall x | x in entries :: x == e || x in entries[1..];
      assert forall x | x in entries[1..] :: x.key != e.key;
    }
  }

  lemma {:induction false} NothingMissing(entries: seq<Entry>, options: map<string, Value>)
    ensures FirstMissing(entries, options).None? <==>
      forall e | e in entries && !e.config.typ.TPositional? && e.config.isRequired ::
        e.key in options && !(e.config.isVariadic && options[e.key] == List([]))
    decreases |entries|
  {
    if entries != [] {
      NothingMissing(entries[1..], options);
      assert forall x | x in entries :: x == entries[0] || x in entries[1..];
    }
  }

  /** The option reported missing is the first that is required and not set. */
  lemma {:induction false} FirstMissingIsFirst(entries: seq<Entry>, options: map<string, Value>) returns (i: nat)
    requires FirstMissing(entries, options).Some?
    ensures i < |entries| && FirstMissing(entries, options) == Some(entries[i].key)
    ensures !entries[i].config.typ.TPositional? && entries[i].config.isRequired
    ensures entries[i].key !in options || (entries[i].config.isVariadic && options[entries[i].key] == List([]))
    ensures forall j | 0 <= j < i && !entries[j].config.typ.TPositional? && entries[j].config.isRequired :: entries[j].key in options
    decreases |entries|
  {
    i := 0;
    if !(!entries[0].config.typ.TPositional? && entries[0].config.isRequired && Missing(entries[0], options)) {
      i := FirstMissingIsFirst(entries[1..], options);
      i := i + 1;
    }
  }

  /** The conflict reported is that of the first option that has one, with the first key it conflicts with that is set. */
  lemma {:induction false} FirstConflictIsFirst(entries: seq<Entry>, options: map<string, Value>) returns (i: nat, k: nat)
    requires FirstConflict(entries, options).Some?
    ensures i < |entries| && k < |entries[i].config.conflictsWith|
    ensures FirstConflict(entries, options) == Some((entries[i].key, entries[i].config.conflictsWith[k]))
    ensures entries[i].key in options && entries[i].config.conflictsWith[k] in options
    ensures forall m | 0 <= m < k :: entries[i].config.conflictsWith[m] !in options
    ensures forall j | 0 <= j < i && entries[j].key in options :: forall c | c in entries[j].config.conflictsWith :: c !in options
    decreases |entries|
  {
    var keys := entries[0].config.conflictsWith;
    FirstOfFinds(keys, options);
    if entries[0].key in options && FirstOf(keys, options).Some? {
      i := 0;
      k := FirstOfIsFirst(keys, options);
    } else {
      i, k := FirstConflictIsFirst(entries[1..], options);
      i := i + 1;
    }
  }

  lemma {:induction false} FirstOfIsFirst(keys: seq<string>, options: map<string, Value>) returns (k: nat)
    requires FirstOf(keys, options).Some?
    ensures k < |keys| && FirstOf(keys, options) == Some(keys[k]) && keys[k] in options
    ensures forall m | 0 <= m < k :: keys[m] !in options
    decreases |keys|
  {
    k := 0;
    if keys[0] !in options {
      k := FirstOfIsFirst(keys[1..], options);
      k := k + 1;
    }
  }

  /** When a parse fails after its tokens were read, it is for a variable that does not read, or else a missing option, or else a
      conflict. */
  lemma FinishFails(num: ToNumber, env: Env, entries: seq<Entry>, st: Parsed)
    requires DistinctKeys(entries) && Finish(num, env, entries, st).Err?
    ensures var x := Finish(num, env, entries, st).error;
      if FromEnv(num, env, entries, st.options).Err? then x == FromEnv(num, env, entries, st.options).error
      else
        var options := WithDefaults(entries, FromEnv(num, env, entries, st.options).value);
        if exists e :: e in entries && !e.config.typ.TPositional? && e.config.isRequired && Missing(e, options) then x.MissingRequired?
        else x.Conflict?
  {
    if FromEnv(num, env, entries, st.options).Ok? {
      NothingMissing(entries, WithDefaults(entries, FromEnv(num, env, entries, st.options).value));
    }
  }

  lemma {:induction false} FirstOfFinds(keys: seq<string>, options: map<string, Value>)
    ensures FirstOf(keys, options).None? <==> forall k | k in keys :: k !in options
    decreases |keys|
  {
    if keys != [] {
      FirstOfFinds(keys[1..], options);
      assert forall x | x in keys :: x == keys[0] || x in keys[1..];
    }
  }

  lemma {:induction false} NothingConflicts(entries: seq<Entry>, options: map<string, Value>)
    ensures FirstConflict(entries, options).None? <==>
      forall e, k | e in entries && e.key in options && k in e.config.conflictsWith :: k !in options
    decreases |entries|
  {
    if entries != [] {
      NothingConflicts(entries[1..], options);
      FirstOfFinds(entries[0].config.conflictsWith, options);
      assert forall x | x in entries :: x == entries[0] || x in entries[1..];
    }
  }

  /** A successful parse keeps every given value, fills only the gaps, and meets every requirement. */
  lemma FinishFillsOnlyGaps(num: ToNumber, env: Env, entries: seq<Entry>, st: Parsed)
    requires DistinctKeys(entries) && Finish(num, env, entries, st).Ok?
    ensures var r := Finish(num, env, entries, st).value;
      && r.positionals == st.positionals
      && (forall k | k in st.options :: k in r.options && r.options[k] == st.options[k])
      && (forall k | k in r.options && k !in st.options :: exists e :: e in entries && e.key == k)
      && (forall e | e in entries && e.key !in st.options ::
            (e.key in r.options <==> Filler(num, env, e).Some?) &&
            (e.key in r.options ==> r.options[e.key] == Filler(num, env, e).value))
      && (forall e | e in entries && !e.config.typ.TPositional? && e.config.isRequired ::
            e.key in r.options && !(e.config.isVariadic && r.options[e.key] == List([])))
      && (forall e, k | e in entries && e.key in r.options && k in e.config.conflictsWith :: k !in r.options)
  {
    EnvFills(num, env, entries, st.options);
    var filled := FromEnv(num, env, entries, st.options).value;
    DefaultsFill(entries, filled);
    var options := WithDefaults(entries, filled);
    NothingMissing(entries, options);
    NothingConflicts(entries, options);
  }
}
