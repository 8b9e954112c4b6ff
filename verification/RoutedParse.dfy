/** Whether splitting and routing the arguments changes what the command's parser reads
    (packages/cli-framework/src/runner.ts, parser.ts). */
module RoutedParse {
  import opened Basics
  import opened Parser
  import opened RouterModel
  import PL = ParserLaws
  import RL = RouterLaws

  // ------------------------------------------------- what the parser makes of a flag

  predicate IsSpecial(flags: Flags, arg: string) {
    arg == "--" || IsHelp(flags, arg) || IsVersion(flags, arg) || IsNegation(flags, arg)
  }

  /** An option that takes the next token as its value. */
  predicate Valued(flags: Flags, arg: string) {
    StartsWith(arg, "-") && !IsSpecial(flags, arg) && '=' !in arg && arg in flags && !flags[arg].config.typ.TBoolean?
  }

  /** An option that takes the next token only when it spells a truth value. */
  predicate Switch(flags: Flags, arg: string) {
    StartsWith(arg, "-") && !IsSpecial(flags, arg) && '=' !in arg && arg in flags && flags[arg].config.typ.TBoolean?
  }

  predicate Rejected(flags: Flags, arg: string) {
    && StartsWith(arg, "-") && !IsSpecial(flags, arg)
    && (if '=' in arg then arg[..IndexOf(arg, '=')] else arg) !in flags
  }

  predicate SpellsTruth(word: string) {
    ToLower(word) in ["true", "1", "false", "0"]
  }

  /** The splitter and the parser agree on which global flags take a value. */
  ghost predicate Matching(globals: Globals, flags: Flags) {
    forall a | StartsWith(a, "-") && FlagName(a) in globals ::
      && a != "--"
      && (if TakesNext(globals, a) then Valued(flags, a) || Rejected(flags, a) else !Valued(flags, a))
  }

  predicate Ordinary(name: string) {
    && name != "" && name[0] != '-' && '=' !in name
    && name !in ["help", "h", "version", "v"] && !StartsWith(name, "no-")
  }

  /** That is so when global names are ordinary and the flags they could spell have the global's kind. */
  lemma NamesMatch(globals: Globals, flags: Flags)
    requires forall n | n in globals :: Ordinary(n)
    requires forall n | n in globals && "-" + n in flags ::
      flags["-" + n].config.typ.TBoolean? == globals[n].IsBoolean?
    requires forall n | n in globals && "--" + n in flags ::
      flags["--" + n].config.typ.TBoolean? == globals[n].IsBoolean?
    ensures Matching(globals, flags)
  {
    forall a | StartsWith(a, "-") && FlagName(a) in globals
      ensures a != "--"
      ensures if TakesNext(globals, a) then Valued(flags, a) || Rejected(flags, a) else !Valued(flags, a)
    {
      var n := FlagName(a);
      if !StartsWith(a, "--") {
        ShortForm(flags, a, n);
      } else if '=' !in a {
        LongForm(flags, a, n);
      }
    }
  }

  lemma ShortForm(flags: Flags, a: string, n: string)
    requires StartsWith(a, "-") && !StartsWith(a, "--") && n == a[1..] && Ordinary(n)
    ensures a == "-" + n && a != "--" && !IsSpecial(flags, a) && '=' !in a
  {
    assert a[0] == '-' && a == "-" + n;
    assert "--help"[..2] == "--" && "--version"[..2] == "--" && "--no-"[..2] == "--" && "-h"[1..] == "h" && "-v"[1..] == "v";
    if |a| >= 5 {
      var head := a[..5];
      assert head[..2] == a[..2];
    }
  }

  lemma LongForm(flags: Flags, a: string, n: string)
    requires StartsWith(a, "--") && '=' !in a && n == a[2..] && Ordinary(n)
    ensures a == "--" + n && a != "--" && !IsSpecial(flags, a)
  {
    assert a[..2] == "--" && a == "--" + n;
    assert "--help"[2..] == "help" && "--version"[2..] == "version" && "--no-"[2..] == "no-";
    assert |"-h"| == 2 && |"-v"| == 2 && "-h"[1] == 'h' && "-v"[1] == 'v' && a[1] == '-';
    if |a| >= 5 {
      var head := a[..5];
      assert head[2..] == n[..3];
    }
  }

  // ------------------------------------------------------------- turns of the parser

  function Push(st: Parsed, words: seq<string>): Parsed {
    st.(positionals := st.positionals + words)
  }

  lemma WordByWord(words: seq<string>, rest: seq<string>, st: Parsed)
    requires words != [] && RL.NoFlags(words)
    ensures words + rest == [words[0]] + (words[1..] + rest) && !StartsWith(words[0], "-") && RL.NoFlags(words[1..])
    ensures Push(Push(st, [words[0]]), words[1..]) == Push(st, words)
  {
    assert (st.positionals + [words[0]]) + words[1..] == st.positionals + words;
  }

  lemma {:induction false} WordsAreKept(num: ToNumber, flags: Flags, words: seq<string>, rest: seq<string>, st: Parsed)
    requires RL.NoFlags(words) && !st.dashdash
    ensures Tokens(num, flags, words + rest, st) == Tokens(num, flags, rest, Push(st, words))
    decreases |words|
  {
    if words == [] {
      NoWords(rest, st);
    } else {
      WordByWord(words, rest, st);
      OneWord(num, flags, words[0], words[1..] + rest, st);
      WordsAreKept(num, flags, words[1..], rest, Push(st, [words[0]]));
    }
  }

  lemma NoWords(rest: seq<string>, st: Parsed)
    ensures [] + rest == rest && Push(st, []) == st
  {
    assert st.positionals + [] == st.positionals;
  }

  lemma WordsAreNotSpecial(word: string)
    requires !StartsWith(word, "-")
    ensures word !in ["--", "--help", "-h", "--version", "-v"] && !StartsWith(word, "--no-")
  {
    assert "--"[..1] == "-" && "--help"[..1] == "-" && "-h"[..1] == "-" && "--version"[..1] == "-" && "-v"[..1] == "-";
    if |word| >= 5 {
      var head := word[..5];
      assert head[..1] == word[..1] && "--no-"[..1] == "-";
    }
  }

  lemma OneWord(num: ToNumber, flags: Flags, word: string, rest: seq<string>, st: Parsed)
    requires !StartsWith(word, "-") && !st.dashdash
    ensures Tokens(num, flags, [word] + rest, st) == Tokens(num, flags, rest, Push(st, [word]))
  {
    WordToken(num, flags, [word] + rest, st);
    PL.OneToken(num, flags, word, rest, st);
  }

  lemma WordToken(num: ToNumber, flags: Flags, args: seq<string>, st: Parsed)
    requires args != [] && !StartsWith(args[0], "-") && !st.dashdash
    ensures Token(num, flags, args, st) == Next(Push(st, [args[0]]), 1)
  {
    WordsAreNotSpecial(args[0]);
  }

  /** A flag reads and writes no positionals. */
  lemma FlagLeavesWords(num: ToNumber, flags: Flags, args: seq<string>, st: Parsed, words: seq<string>)
    requires args != [] && StartsWith(args[0], "-") && args[0] != "--" && !st.dashdash
    ensures Token(num, flags, args, Push(st, words)) ==
      match Token(num, flags, args, st)
      case Fail(x) => Fail(x)
      case Next(s, used) => Next(Push(s, words), used)
    ensures Token(num, flags, args, st).Next? ==> !Token(num, flags, args, st).state.dashdash
  {
  }

  /** A flag that takes no value is one token, whatever follows, unless it is a switch before a truth value. */
  lemma OneWide(num: ToNumber, flags: Flags, f: string, rest: seq<string>, st: Parsed)
    requires StartsWith(f, "-") && f != "--" && !Valued(flags, f) && !st.dashdash
    requires Switch(flags, f) ==> rest == [] || !SpellsTruth(rest[0])
    ensures Token(num, flags, [f] + rest, st) == Token(num, flags, [f], st)
    ensures Token(num, flags, [f], st).Next? ==> Token(num, flags, [f], st).used == 1
  {
    assert ([f] + rest)[0] == f;
    if rest != [] { assert ([f] + rest)[1] == rest[0]; }
    assert ToLower("") == "";
  }

  lemma TwoWide(num: ToNumber, flags: Flags, f: string, v: string, rest: seq<string>, st: Parsed)
    requires (Valued(flags, f) || Rejected(flags, f)) && !st.dashdash
    ensures Token(num, flags, [f, v] + rest, st) == Token(num, flags, [f, v], st)
    ensures Token(num, flags, [f, v], st).Next? ==> Token(num, flags, [f, v], st).used == 2
  {
    assert ([f, v] + rest)[0] == f && ([f, v] + rest)[1] == v;
  }

  /** What the tokens add does not depend on what came before. */
  lemma {:induction false} SameGrowth(num: ToNumber, flags: Flags, args: seq<string>, a: Parsed, b: Parsed)
    requires a.dashdash == b.dashdash
    ensures var x, y := Tokens(num, flags, args, a), Tokens(num, flags, args, b);
      if x.Err? then y == Err(x.error)
      else
        y.Ok? && |x.value.positionals| - |a.positionals| == |y.value.positionals| - |b.positionals|
    decreases |args|
  {
    if args != [] {
      SameTurn(num, flags, args, a, b);
      var t, u := Token(num, flags, args, a), Token(num, flags, args, b);
      PL.OneTurn(num, flags, args, a);
      PL.OneTurn(num, flags, args, b);
      if t.Next? { SameGrowth(num, flags, args[t.used..], t.state, u.state); }
    }
  }

  lemma SameTurn(num: ToNumber, flags: Flags, args: seq<string>, a: Parsed, b: Parsed)
    requires args != [] && a.dashdash == b.dashdash
    ensures var t, u := Token(num, flags, args, a), Token(num, flags, args, b);
      if t.Fail? then u == Fail(t.error)
      else
        && u.Next? && u.used == t.used && u.state.dashdash == t.state.dashdash
        && |t.state.positionals| - |a.positionals| == |u.state.positionals| - |b.positionals|
  {
  }

  // ------------------------------------------------------- typed against split and routed

  /** Somewhere the splitter reads, a switch stands right before a word that spells a truth value. */
  predicate Swallows(globals: Globals, flags: Flags, args: seq<string>)
    decreases |args|
  {
    if args == [] then false
    else if !StartsWith(args[0], "-") then Swallows(globals, flags, args[1..])
    else if FlagName(args[0]) !in globals then false
    else
      || (Switch(flags, args[0]) && |args| > 1 && SpellsTruth(args[1]))
      || Swallows(globals, flags, args[Width(globals, args)..])
  }

  /** The splitter stops here and passes everything through. */
  predicate Stopped(globals: Globals, post: seq<string>) {
    post == [] || (StartsWith(post[0], "-") &&
      (FlagName(post[0]) !in globals || (TakesNext(globals, post[0]) && |post| == 1)))
  }

  /** The parse of the arguments as typed, and of the words before all flags, as routing leaves them. */
  function Typed(num: ToNumber, flags: Flags, pre: seq<string>, post: seq<string>, st: Parsed): Result<Parsed, Error> {
    Tokens(num, flags, pre + post, st)
  }

  function Moved(num: ToNumber, globals: Globals, flags: Flags, pre: seq<string>, post: seq<string>, st: Parsed): Result<Parsed, Error> {
    var s := SplitArgs(globals, pre);
    Tokens(num, flags, s.segments + (s.passthrough + post), st)
  }

  /** The same error, or both fine; then equal, unless a truth value was swallowed, when the moved parse has more positionals. */
  predicate Compare(t: Result<Parsed, Error>, m: Result<Parsed, Error>, swallows: bool) {
    if t.Err? then m == t
    else
      && m.Ok?
      && (if swallows then |t.value.positionals| < |m.value.positionals| else m == t)
  }

  lemma WordCase(num: ToNumber, globals: Globals, flags: Flags, pre: seq<string>, post: seq<string>, st: Parsed)
    requires pre != [] && !StartsWith(pre[0], "-") && !st.dashdash
    ensures Typed(num, flags, pre, post, st) == Typed(num, flags, pre[1..], post, Push(st, [pre[0]]))
    ensures Moved(num, globals, flags, pre, post, st) == Moved(num, globals, flags, pre[1..], post, Push(st, [pre[0]]))
    ensures Swallows(globals, flags, pre) == Swallows(globals, flags, pre[1..])
  {
    var s := SplitArgs(globals, pre[1..]);
    assert pre + post == [pre[0]] + (pre[1..] + post);
    OneWord(num, flags, pre[0], pre[1..] + post, st);
    var tail := s.passthrough + post;
    assert [] + s.passthrough == s.passthrough;
    assert ([pre[0]] + s.segments) + tail == [pre[0]] + (s.segments + tail);
    OneWord(num, flags, pre[0], s.segments + tail, st);
  }

  /** The tokens `g` are one turn of the parser when `rest` follows. */
  predicate OneItem(flags: Flags, g: seq<string>, rest: seq<string>) {
    || (|g| == 1 && StartsWith(g[0], "-") && g[0] != "--" && !Valued(flags, g[0])
        && (Switch(flags, g[0]) ==> rest == [] || !SpellsTruth(rest[0])))
    || (|g| == 2 && (Valued(flags, g[0]) || Rejected(flags, g[0])))
  }

  function Finished(t: Step, rest: Result<Parsed, Error>): Result<Parsed, Error> {
    if t.Fail? then Err(t.error) else rest
  }

  lemma ItemTurn(num: ToNumber, flags: Flags, g: seq<string>, rest: seq<string>, st: Parsed)
    requires OneItem(flags, g, rest) && !st.dashdash
    ensures var t := Token(num, flags, g, st);
      && (t.Next? ==> t.used == |g| && !t.state.dashdash)
      && (t.Fail? ==> Tokens(num, flags, g + rest, st) == Err(t.error))
      && (t.Next? ==> Tokens(num, flags, g + rest, st) == Tokens(num, flags, rest, t.state))
  {
    if |g| == 1 {
      assert g == [g[0]];
      OneWide(num, flags, g[0], rest, st);
    } else {
      assert g == [g[0], g[1]];
      TwoWide(num, flags, g[0], g[1], rest, st);
    }
    PL.OneTurn(num, flags, g + rest, st);
    assert (g + rest)[|g|..] == rest;
    FlagLeavesWords(num, flags, g, st, []);
  }

  /** An item after words: the words are set aside, and the item does the same. */
  lemma ItemAfterWords(num: ToNumber, flags: Flags, words: seq<string>, g: seq<string>, rest: seq<string>, st: Parsed)
    requires RL.NoFlags(words) && OneItem(flags, g, rest) && !st.dashdash
    ensures var t := Token(num, flags, g, st);
      && (t.Fail? ==> Tokens(num, flags, words + (g + rest), st) == Err(t.error))
      && (t.Next? ==> Tokens(num, flags, words + (g + rest), st) == Tokens(num, flags, words + rest, t.state))
  {
    WordsAreKept(num, flags, words, g + rest, st);
    FlagLeavesWords(num, flags, g, st, words);
    ItemTurn(num, flags, g, rest, Push(st, words));
    ItemTurn(num, flags, g, rest, st);
    var t := Token(num, flags, g, st);
    if t.Next? { WordsAreKept(num, flags, words, rest, t.state); }
  }

  lemma DashIsNoTruth(arg: string)
    requires StartsWith(arg, "-")
    ensures !SpellsTruth(arg)
  {
    assert ToLower(arg)[0] == '-';
  }

  lemma {:induction false} PassedBeginsWithFlag(globals: Globals, pre: seq<string>)
    requires RL.Consumed(globals, pre)
    ensures var p := SplitArgs(globals, pre).passthrough; p == [] || StartsWith(p[0], "-")
    decreases |pre|
  {
    if pre != [] && !StartsWith(pre[0], "-") { PassedBeginsWithFlag(globals, pre[1..]); }
  }

  /** What follows a flag once the words are out of the way is another flag, or nothing. */
  lemma NextIsFlag(globals: Globals, pre: seq<string>, post: seq<string>)
    requires RL.Consumed(globals, pre) && Stopped(globals, post)
    ensures var x := SplitArgs(globals, pre).passthrough + post; x == [] || !SpellsTruth(x[0])
  {
    PassedBeginsWithFlag(globals, pre);
    var x := SplitArgs(globals, pre).passthrough + post;
    if x != [] { DashIsNoTruth(x[0]); }
  }

  /** The items of the arguments are those of the splitter. */
  lemma ItemOf(globals: Globals, flags: Flags, pre: seq<string>, rest: seq<string>)
    requires Matching(globals, flags) && pre != [] && StartsWith(pre[0], "-") && RL.Consumed(globals, pre)
    requires Switch(flags, pre[0]) ==> rest == [] || !SpellsTruth(rest[0])
    ensures OneItem(flags, pre[..Width(globals, pre)], rest) && RL.Consumed(globals, pre[Width(globals, pre)..])
  {
    var f := pre[0];
    assert FlagName(f) in globals;
  }

  lemma FlagCase(num: ToNumber, globals: Globals, flags: Flags, pre: seq<string>, post: seq<string>, st: Parsed)
    requires Matching(globals, flags) && RL.Consumed(globals, pre) && Stopped(globals, post) && !st.dashdash
    requires pre != [] && StartsWith(pre[0], "-") && !(Switch(flags, pre[0]) && |pre| > 1 && SpellsTruth(pre[1]))
    ensures var n := Width(globals, pre);
      var t := Token(num, flags, pre[..n], st);
      && (t.Fail? ==> Typed(num, flags, pre, post, st) == Moved(num, globals, flags, pre, post, st) == Err(t.error))
      && (t.Next? ==> !t.state.dashdash)
      && (t.Next? ==> Typed(num, flags, pre, post, st) == Typed(num, flags, pre[n..], post, t.state))
      && (t.Next? ==> Moved(num, globals, flags, pre, post, st) == Moved(num, globals, flags, pre[n..], post, t.state))
  {
    var n := Width(globals, pre);
    var g, s := pre[..n], SplitArgs(globals, pre[n..]);
    var after := pre[n..] + post;
    if after != [] && Switch(flags, pre[0]) { AfterSwitch(globals, flags, pre, post); }
    ItemOf(globals, flags, pre, after);
    CutJoin(pre, n, post);
    ItemTurn(num, flags, g, after, st);
    NextIsFlag(globals, pre[n..], post);
    ItemOf(globals, flags, pre, s.passthrough + post);
    RL.SegmentsAreWords(globals, pre[n..]);
    ItemAfterWords(num, flags, s.segments, g, s.passthrough + post, st);
    MovedCut(globals, pre, post);
  }

  lemma AfterSwitch(globals: Globals, flags: Flags, pre: seq<string>, post: seq<string>)
    requires Matching(globals, flags) && RL.Consumed(globals, pre) && Stopped(globals, post)
    requires pre != [] && Switch(flags, pre[0]) && !(|pre| > 1 && SpellsTruth(pre[1]))
    ensures Width(globals, pre) == 1
    ensures var after := pre[1..] + post; after == [] || !SpellsTruth(after[0])
  {
    assert FlagName(pre[0]) in globals;
    if |pre| == 1 && post != [] { DashIsNoTruth(post[0]); }
  }

  lemma CutJoin(pre: seq<string>, n: nat, post: seq<string>)
    requires n <= |pre|
    ensures pre + post == pre[..n] + (pre[n..] + post)
  {
  }

  lemma MovedCut(globals: Globals, pre: seq<string>, post: seq<string>)
    requires pre != [] && StartsWith(pre[0], "-")
    ensures var n := Width(globals, pre);
      var s, r := SplitArgs(globals, pre), SplitArgs(globals, pre[n..]);
      s.segments + (s.passthrough + post) == r.segments + (pre[..n] + (r.passthrough + post))
  {
    var n := Width(globals, pre);
    var r := SplitArgs(globals, pre[n..]);
    assert [] + r.segments == r.segments;
    assert (pre[..n] + r.passthrough) + post == pre[..n] + (r.passthrough + post);
  }

  /** A swallowed truth value: both parses fail alike, or the moved one has one positional more than it would. */
  lemma SwallowCase(num: ToNumber, globals: Globals, flags: Flags, pre: seq<string>, post: seq<string>, st: Parsed)
    returns (next: Parsed)
    requires Matching(globals, flags) && RL.Consumed(globals, pre) && Stopped(globals, post) && !st.dashdash
    requires pre != [] && StartsWith(pre[0], "-") && Switch(flags, pre[0]) && |pre| > 1 && SpellsTruth(pre[1])
    ensures !next.dashdash && RL.Consumed(globals, pre[2..])
    ensures Typed(num, flags, pre, post, st) == Typed(num, flags, pre[2..], post, next)
    ensures var m, k := Moved(num, globals, flags, pre, post, st), Moved(num, globals, flags, pre[2..], post, next);
      if k.Err? then m == k else m.Ok? && |m.value.positionals| == |k.value.positionals| + 1
  {
    var f, w := pre[0], pre[1];
    assert FlagName(f) in globals;
    if StartsWith(w, "-") { DashIsNoTruth(w); }
    next := st.(options := st.options[flags[f].key := Bool(ToLower(w) in ["true", "1"])]);
    TypedSwallow(num, flags, pre, post, st);
    var r := SplitArgs(globals, pre[2..]);
    assert pre[1..][1..] == pre[2..] && pre[1..][0] == w;
    RL.SegmentsAreWords(globals, pre[2..]);
    NextIsFlag(globals, pre[2..], post);
    var rest := r.passthrough + post;
    MovedSwallow(globals, pre, post);
    ItemAfterWords(num, flags, [w] + r.segments, [f], rest, st);
    OneWide(num, flags, f, [], st);
    var on := Token(num, flags, [f], st).state;
    WordsAreKept(num, flags, [w] + r.segments, rest, on);
    WordsAreKept(num, flags, r.segments, rest, next);
    SameGrowth(num, flags, rest, Push(next, r.segments), Push(on, [w] + r.segments));
  }

  lemma TypedSwallow(num: ToNumber, flags: Flags, pre: seq<string>, post: seq<string>, st: Parsed)
    requires !st.dashdash && |pre| > 1 && Switch(flags, pre[0]) && SpellsTruth(pre[1])
    ensures Typed(num, flags, pre, post, st) ==
      Typed(num, flags, pre[2..], post, st.(options := st.options[flags[pre[0]].key := Bool(ToLower(pre[1]) in ["true", "1"])]))
  {
    assert (pre + post)[0] == pre[0] && (pre + post)[1] == pre[1] && (pre + post)[2..] == pre[2..] + post;
    PL.OneTurn(num, flags, pre + post, st);
  }

  lemma MovedSwallow(globals: Globals, pre: seq<string>, post: seq<string>)
    requires |pre| > 1 && StartsWith(pre[0], "-") && FlagName(pre[0]) in globals && !TakesNext(globals, pre[0])
    requires !StartsWith(pre[1], "-")
    ensures var s, r := SplitArgs(globals, pre), SplitArgs(globals, pre[2..]);
      s.segments + (s.passthrough + post) == ([pre[1]] + r.segments) + ([pre[0]] + (r.passthrough + post))
  {
    var r := SplitArgs(globals, pre[2..]);
    MovedCut(globals, pre, post);
    assert pre[1..][1..] == pre[2..] && pre[1..][0] == pre[1] && pre[..1] == [pre[0]];
    assert [] + r.passthrough == r.passthrough;
  }

  /** For every consumed prefix and every suffix the splitter stops at. */
  lemma {:induction false} MovedAgrees(num: ToNumber, globals: Globals, flags: Flags, pre: seq<string>, post: seq<string>, st: Parsed)
    requires Matching(globals, flags) && RL.Consumed(globals, pre) && Stopped(globals, post) && !st.dashdash
    ensures Compare(Typed(num, flags, pre, post, st), Moved(num, globals, flags, pre, post, st), Swallows(globals, flags, pre))
    ensures var t, m := Typed(num, flags, pre, post, st), Moved(num, globals, flags, pre, post, st);
      t.Ok? ==> |t.value.positionals| <= |m.value.positionals|
    decreases |pre|
  {
    if pre == [] {
      NothingMoved(globals, post);
    } else if !StartsWith(pre[0], "-") {
      WordCase(num, globals, flags, pre, post, st);
      MovedAgrees(num, globals, flags, pre[1..], post, Push(st, [pre[0]]));
    } else if Switch(flags, pre[0]) && |pre| > 1 && SpellsTruth(pre[1]) {
      var next := SwallowCase(num, globals, flags, pre, post, st);
      MovedAgrees(num, globals, flags, pre[2..], post, next);
    } else {
      var n := Width(globals, pre);
      FlagCase(num, globals, flags, pre, post, st);
      var t := Token(num, flags, pre[..n], st);
      if t.Next? { MovedAgrees(num, globals, flags, pre[n..], post, t.state); }
    }
  }

  lemma NothingMoved(globals: Globals, post: seq<string>)
    ensures var s := SplitArgs(globals, []); s.segments + (s.passthrough + post) == [] + post
  {
  }

  // ----------------------------------------------------------------- all arguments

  /** All arguments are what the splitter reads and what it stops at. */
  lemma {:induction false} WhereItStops(globals: Globals, args: seq<string>) returns (pre: seq<string>, post: seq<string>)
    ensures args == pre + post && RL.Consumed(globals, pre) && Stopped(globals, post)
    decreases |args|
  {
    if Stopped(globals, args) {
      pre, post := [], args;
    } else {
      var n := Width(globals, args);
      pre, post := WhereItStops(globals, args[n..]);
      var whole := args[..n] + pre;
      assert whole[0] == args[0] && whole[n..] == pre && |whole| >= n;
      assert args == whole + post;
      pre := whole;
    }
  }

  lemma StoppedPasses(globals: Globals, flags: Flags, post: seq<string>)
    requires Matching(globals, flags) && Stopped(globals, post)
    ensures SplitArgs(globals, post) == Split([], post) && !Swallows(globals, flags, post)
  {
    if post != [] {
      assert post[|post|..] == [] && post[..|post|] == post;
      assert SplitArgs(globals, []) == Split([], []);
      PlusIsAssociative(Split([], post), Split([], []), Split([], []));
      if FlagName(post[0]) in globals { assert TakesNext(globals, post[0]); }
    }
  }

  lemma {:induction false} SwallowsInPrefix(globals: Globals, flags: Flags, pre: seq<string>, post: seq<string>)
    requires Matching(globals, flags) && RL.Consumed(globals, pre) && Stopped(globals, post)
    ensures Swallows(globals, flags, pre + post) == Swallows(globals, flags, pre)
    decreases |pre|
  {
    if pre == [] {
      assert pre + post == post;
      StoppedPasses(globals, flags, post);
    } else {
      var n := Width(globals, pre);
      assert (pre + post)[0] == pre[0] && (pre + post)[n..] == pre[n..] + post;
      if StartsWith(pre[0], "-") { ItemOf(globals, flags, pre, []); }
      if |pre| == 1 && post != [] { DashIsNoTruth(post[0]); }
      SwallowsInPrefix(globals, flags, pre[n..], post);
    }
  }

  /** The arguments after a leaf command's path, as typed and as splitting and routing hand them on, parse to the same result
      exactly when they fail anyway or no switch the splitter reads stands before a word that spells a truth value. */
  lemma RoutedParsesAsTyped(groups: seq<Group>, commands: seq<Command>, globals: Globals, num: ToNumber, entries: seq<Entry>,
    p: RouterModel.Path, args: seq<string>)
    requires Matching(globals, FlagTable(entries))
    requires var t := TreeOf(Entered(groups, commands)); p in t && RL.NoFlags(p) && t[p].order == []
    ensures var split := SplitArgs(globals, p + args);
      var routed := Route(TreeOf(Entered(groups, commands)), [], split.segments);
      var typed := Tokens(num, FlagTable(entries), args, Start);
      && routed.Ok? && routed.value.path == p
      && var moved := Tokens(num, FlagTable(entries), routed.value.rest + split.passthrough, Start);
      && (typed == moved <==> typed.Err? || !Swallows(globals, FlagTable(entries), args))
      && Compare(typed, moved, Swallows(globals, FlagTable(entries), args))
  {
    var flags := FlagTable(entries);
    var pre, post := WhereItStops(globals, args);
    SplitOfAll(globals, flags, p, pre, post);
    var s := SplitArgs(globals, pre);
    RL.PathsRouteToThemselves(groups, commands, p, s.segments);
    MovedAgrees(num, globals, flags, pre, post, Start);
    SwallowsInPrefix(globals, flags, pre, post);
  }

  lemma SplitOfAll(globals: Globals, flags: Flags, p: RouterModel.Path, pre: seq<string>, post: seq<string>)
    requires Matching(globals, flags) && RL.NoFlags(p) && RL.Consumed(globals, pre) && Stopped(globals, post)
    ensures var s := SplitArgs(globals, pre);
      SplitArgs(globals, p + (pre + post)) == Split(p + s.segments, s.passthrough + post)
  {
    RL.WordsAreRead(globals, p);
    RL.SplitAppends(globals, p, pre + post);
    RL.SplitAppends(globals, pre, post);
    StoppedPasses(globals, flags, post);
    var s := SplitArgs(globals, pre);
    assert s.segments + [] == s.segments && [] + (s.passthrough + post) == s.passthrough + post;
  }

  /** So it is with the whole parse: environment, defaults and checks included. */
  lemma WholeParseAgrees(num: ToNumber, env: Env, globals: Globals, entries: seq<Entry>, typed: seq<string>, moved: seq<string>)
    requires var flags := FlagTable(entries);
      Compare(Tokens(num, flags, typed, Start), Tokens(num, flags, moved, Start), Swallows(globals, flags, typed))
    ensures var a, b := ParseArgv(num, env, entries, typed), ParseArgv(num, env, entries, moved);
      && (!Swallows(globals, FlagTable(entries), typed) ==> a == b)
      && (a.Ok? && b.Ok? ==> (a == b <==> !Swallows(globals, FlagTable(entries), typed)))
  {
  }

  /** For every global switch: `flag true` sets the option as typed, and leaves `true` a positional once split and routed. */
  lemma SwitchLosesItsWord(num: ToNumber, globals: Globals, flags: Flags, f: string, word: string)
    requires StartsWith(f, "-") && FlagName(f) in globals && Switch(flags, f) && SpellsTruth(word) && !TakesNext(globals, f)
    ensures SplitArgs(globals, [f, word]) == Split([word], [f])
    ensures Tokens(num, flags, [f, word], Start) ==
      Ok(Start.(options := map[flags[f].key := Bool(ToLower(word) in ["true", "1"])]))
    ensures Tokens(num, flags, [word] + [f], Start) ==
      Ok(Start.(options := map[flags[f].key := Bool(true)], positionals := [word]))
  {
    if StartsWith(word, "-") { DashIsNoTruth(word); }
    RL.WordAfterGlobalIsMoved(globals, f, word);
    TypedSwallow(num, flags, [f, word], [], Start);
    assert [f, word] + [] == [f, word] && [f, word][2..] + [] == [];
    OneWord(num, flags, word, [f], Start);
    OneWide(num, flags, f, [], Push(Start, [word]));
    assert [f] + [] == [f] && [f][1..] == [] && [] + [word] == [word];
    PL.OneTurn(num, flags, [f], Push(Start, [word]));
  }
}
