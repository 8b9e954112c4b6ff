/** The command tree and how arguments find a command in it, as values
    (packages/cli-framework/src/router.ts). A node is named by its path. */
module RouterModel {
  import opened Basics

  type Path = seq<string>

  datatype Group = Group(path: Path, aliases: seq<string>)

  datatype Command = Command(path: Path, aliases: Option<seq<string>>, config: nat)

  /** What a node of the tree holds: its children in insertion order, and its own marks. */
  datatype Info = Info(order: seq<string>, aliases: seq<string>, hasCommand: bool)

  type Tree = map<Path, Info>

  // ------------------------------------------------ the tree, without building it

  /** What has been entered, last first: groups, commands, and the path being entered. */
  datatype Log =
    | Empty
    | Visit(before: Log, path: Path)
    | AddGroup(before: Log, group: Group)
    | AddCommand(before: Log, command: Command)

  function LastPath(log: Log): Path
    requires !log.Empty?
  {
    match log
    case Visit(_, path) => path
    case AddGroup(_, g) => g.path
    case AddCommand(_, c) => c.path
  }

  function Prefixes(q: Path): set<Path> {
    if q == [] then {[]} else Prefixes(q[..|q| - 1]) + {q}
  }

  lemma {:induction false} PrefixesAre(p: Path, q: Path)
    ensures p in Prefixes(q) <==> p <= q
  {
    if q != [] {
      PrefixesAre(p, q[..|q| - 1]);
      assert q == q[..|q| - 1] + [q[|q| - 1]];
      if p <= q && p != q { assert p == q[..|q| - 1][..|p|]; }
    }
  }

  /** Every prefix of every path entered, and the root. */
  function Closure(log: Log): set<Path> {
    if log.Empty? then {[]} else Closure(log.before) + Prefixes(LastPath(log))
  }

  lemma {:induction false} RootIsIn(log: Log)
    ensures [] in Closure(log)
  {
    if !log.Empty? { RootIsIn(log.before); }
  }

  const Blank := Info([], [], false)

  /** A path through `p` lists its next segment among the children of `p`. */
  function Passed(i: Info, p: Path, q: Path): Info {
    if p < q && q[|p|] !in i.order then i.(order := i.order + [q[|p|]]) else i
  }

  /** A command marks its node, and replaces the aliases only when it has some. */
  function Commanded(i: Info, c: Command): Info {
    var marked := i.(hasCommand := true);
    if c.aliases.Some? then marked.(aliases := c.aliases.value) else marked
  }

  function InfoOf(log: Log, p: Path): Info {
    if log.Empty? then Blank
    else
      var i := Passed(InfoOf(log.before, p), p, LastPath(log));
      match log
      case Visit(_, _) => i
      case AddGroup(_, g) => if g.path == p then i.(aliases := g.aliases) else i
      case AddCommand(_, c) => if c.path == p then Commanded(i, c) else i
  }

  function TreeOf(log: Log): Tree {
    map p | p in Closure(log) :: InfoOf(log, p)
  }

  function Groups(groups: seq<Group>): Log {
    if groups == [] then Empty else AddGroup(Groups(groups[..|groups| - 1]), groups[|groups| - 1])
  }

  /** All groups in order, then all commands in order. */
  function Entered(groups: seq<Group>, commands: seq<Command>): Log {
    if commands == [] then Groups(groups)
    else AddCommand(Entered(groups, commands[..|commands| - 1]), commands[|commands| - 1])
  }

  // ----------------------------------------------------------------- routing

  datatype Unknown = Unknown(segment: string, candidates: seq<string>)

  datatype Routed = Routed(path: Path, rest: seq<string>)

  function ByAlias(t: Tree, p: Path, order: seq<string>, segment: string): Option<string> {
    if order == [] then None
    else if p + [order[0]] in t && segment in t[p + [order[0]]].aliases then Some(order[0])
    else ByAlias(t, p, order[1..], segment)
  }

  /** The child of `p` that a segment names: its own name first, then the first child with that alias. */
  function Match(t: Tree, p: Path, segment: string): Option<string>
    requires p in t
  {
    if p + [segment] in t then Some(segment) else ByAlias(t, p, t[p].order, segment)
  }

  function ChildAliases(t: Tree, p: Path, order: seq<string>): seq<string> {
    if order == [] then []
    else
      (if p + [order[0]] in t then t[p + [order[0]]].aliases else []) + ChildAliases(t, p, order[1..])
  }

  /** The names a wrong segment is compared with. */
  function Candidates(t: Tree, p: Path): seq<string>
    requires p in t
  {
    t[p].order + ChildAliases(t, p, t[p].order)
  }

  /** Each child a node lists is in the tree. */
  ghost predicate Closed(t: Tree) {
    forall p, s | p in t :: s in t[p].order <==> p + [s] in t
  }

  function Route(t: Tree, p: Path, args: seq<string>): Result<Routed, Unknown>
    decreases |args|
  {
    if args == [] || StartsWith(args[0], "-") || p !in t then Ok(Routed(p, args))
    else
      match Match(t, p, args[0])
      case Some(s) => Route(t, p + [s], args[1..])
      case None =>
        if t[p].order != [] then Err(Unknown(args[0], Candidates(t, p)))
        else Ok(Routed(p, args))
  }

  // ------------------------------------------------------------ the command map

  function CommandMap(log: Log): map<string, nat> {
    match log
    case Empty => map[]
    case AddCommand(before, c) => CommandMap(before)[Join(c.path) := c.config]
    case _ => CommandMap(log.before)
  }

  // ------------------------------------------------------- splitting the arguments

  datatype OptionKind = IsBoolean | HasValue

  type Globals = map<string, OptionKind>

  function FlagName(arg: string): string
    requires StartsWith(arg, "-")
  {
    if StartsWith(arg, "--") then
      (if IndexOf(arg, '=') >= 2 then arg[2..IndexOf(arg, '=')] else arg[2..])
    else arg[1..]
  }

  /** Whether a global flag takes the next token as its value. */
  predicate TakesNext(globals: Globals, arg: string)
    requires StartsWith(arg, "-") && FlagName(arg) in globals
  {
    globals[FlagName(arg)].HasValue? && !(StartsWith(arg, "--") && IndexOf(arg, '=') >= 0)
  }

  datatype Split = Split(segments: seq<string>, passthrough: seq<string>)

  function Plus(a: Split, b: Split): Split {
    Split(a.segments + b.segments, a.passthrough + b.passthrough)
  }

  /** How many tokens one turn of the splitter takes: all of them from an unknown flag on. */
  function Width(globals: Globals, args: seq<string>): (n: nat)
    requires args != []
    ensures 1 <= n <= |args|
  {
    if !StartsWith(args[0], "-") then 1
    else if FlagName(args[0]) !in globals then |args|
    else if TakesNext(globals, args[0]) && |args| > 1 then 2
    else 1
  }

  /** Where one turn of the splitter puts the tokens it takes. */
  function Dealt(globals: Globals, args: seq<string>): Split
    requires args != []
  {
    if !StartsWith(args[0], "-") then Split([args[0]], []) else Split([], args[..Width(globals, args)])
  }

  function SplitArgs(globals: Globals, args: seq<string>): Split
    decreases |args|
  {
    if args == [] then Split([], [])
    else Plus(Dealt(globals, args), SplitArgs(globals, args[Width(globals, args)..]))
  }

  lemma PlusIsAssociative(a: Split, b: Split, c: Split)
    ensures Plus(Plus(a, b), c) == Plus(a, Plus(b, c))
    ensures Plus(a, Split([], [])) == a && Plus(Split([], []), a) == a
  {
    assert (a.segments + b.segments) + c.segments == a.segments + (b.segments + c.segments);
    assert (a.passthrough + b.passthrough) + c.passthrough == a.passthrough + (b.passthrough + c.passthrough);
  }
}
