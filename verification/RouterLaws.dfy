/** What the router promises about every tree and every argument list. */
module RouterLaws {
  import opened Basics
  import opened RouterModel

  // ------------------------------------------------------------------ the tree

  lemma {:induction false} GroupPathsIn(groups: seq<Group>, p: Path)
    ensures p in Closure(Groups(groups)) <==> p == [] || exists i | 0 <= i < |groups| :: p <= groups[i].path
  {
    if groups != [] {
      var n := |groups| - 1;
      GroupPathsIn(groups[..n], p);
      PrefixesAre(p, groups[n].path);
      assert forall i | 0 <= i < n :: groups[..n][i] == groups[i];
    }
  }

  /** The paths of the built tree are exactly the prefixes of the group and command paths. */
  lemma {:induction false} PathsArePrefixes(groups: seq<Group>, commands: seq<Command>, p: Path)
    ensures p in TreeOf(Entered(groups, commands)) <==>
      || p == []
      || (exists i | 0 <= i < |groups| :: p <= groups[i].path)
      || (exists i | 0 <= i < |commands| :: p <= commands[i].path)
    decreases |commands|
  {
    if commands == [] {
      GroupPathsIn(groups, p);
    } else {
      var n := |commands| - 1;
      PathsArePrefixes(groups, commands[..n], p);
      PrefixesAre(p, commands[n].path);
      assert forall i | 0 <= i < n :: commands[..n][i] == commands[i];
    }
  }

  /** A node lists a child exactly when the child's path is in the tree, and lists it once. */
  lemma {:induction false} ChildrenAreListed(log: Log, p: Path, s: string)
    ensures s in InfoOf(log, p).order <==> p + [s] in Closure(log)
    ensures forall i, j | 0 <= i < j < |InfoOf(log, p).order| :: InfoOf(log, p).order[i] != InfoOf(log, p).order[j]
  {
    if !log.Empty? {
      ChildrenAreListed(log.before, p, s);
      var q := LastPath(log);
      PrefixesAre(p + [s], q);
      assert p + [s] <= q <==> p < q && q[|p|] == s by {
        if p < q && q[|p|] == s { assert q[..|p| + 1] == p + [s]; }
      }
    }
  }

  /** What is entered later comes after: the children a node has keep their places. */
  lemma LaterChildrenFollow(log: Log, p: Path)
    requires !log.Empty?
    ensures InfoOf(log.before, p).order <= InfoOf(log, p).order
    ensures |InfoOf(log, p).order| <= |InfoOf(log.before, p).order| + 1
  { }

  // ------------------------------------------------------------------- routing

  lemma {:induction false} AliasMatches(t: Tree, p: Path, order: seq<string>, segment: string)
    requires forall s | s in order :: p + [s] in t
    ensures ByAlias(t, p, order, segment).None? <==> segment !in ChildAliases(t, p, order)
    ensures var m := ByAlias(t, p, order, segment);
      m.Some? ==> exists i | 0 <= i < |order| ::
        order[i] == m.value && segment in t[p + [order[i]]].aliases
        && forall j | 0 <= j < i :: segment !in t[p + [order[j]]].aliases
    decreases |order|
  {
    if order != [] {
      AliasMatches(t, p, order[1..], segment);
      if segment !in t[p + [order[0]]].aliases {
        var m := ByAlias(t, p, order[1..], segment);
        if m.Some? {
          var i :| 0 <= i < |order| - 1 && order[1..][i] == m.value && segment in t[p + [order[1..][i]]].aliases
            && forall j | 0 <= j < i :: segment !in t[p + [order[1..][j]]].aliases;
          assert order[i + 1] == m.value;
          forall j | 0 <= j < i + 1 ensures segment !in t[p + [order[j]]].aliases {
            if j > 0 { assert order[1..][j - 1] == order[j]; }
          }
        }
      }
    }
  }

  predicate NoFlags(args: seq<string>) {
    forall i | 0 <= i < |args| :: !StartsWith(args[i], "-")
  }

  ghost predicate Listed(t: Tree) {
    && [] in t
    && forall p, s {:trigger s in t[p].order} | p in t :: s in t[p].order <==> p + [s] in t
  }

  lemma BuiltIsListed(log: Log)
    ensures Listed(TreeOf(log))
  {
    var t := TreeOf(log);
    RootIsIn(log);
    forall p, s | p in t ensures s in t[p].order <==> p + [s] in t { ChildrenAreListed(log, p, s); }
  }

  /** Walking down the names of a path that is in the tree arrives there; names beat aliases. */
  lemma {:induction false} WalkDown(t: Tree, p: Path, names: Path, rest: seq<string>)
    requires NoFlags(names)
    requires forall k | 0 <= k <= |names| :: p + names[..k] in t
    ensures Route(t, p, names + rest) == Route(t, p + names, rest)
    decreases |names|
  {
    if names == [] {
      assert p + names == p && names + rest == rest;
    } else {
      assert p + names[..0] == p && p + names[..1] == p + [names[0]];
      assert (names + rest)[1..] == names[1..] + rest;
      forall k | 0 <= k <= |names[1..]| ensures (p + [names[0]]) + names[1..][..k] in t {
        assert (p + [names[0]]) + names[1..][..k] == p + names[..k + 1];
      }
      WalkDown(t, p + [names[0]], names[1..], rest);
      assert (p + [names[0]]) + names[1..] == p + names;
    }
  }

  lemma {:induction false} PrefixesIn(log: Log, p: Path, k: nat)
    requires p in Closure(log) && k <= |p|
    ensures p[..k] in Closure(log)
  {
    if !log.Empty? {
      if p in Closure(log.before) {
        PrefixesIn(log.before, p, k);
      } else {
        PrefixesAre(p, LastPath(log));
        PrefixesAre(p[..k], LastPath(log));
      }
    }
  }

  /** A path of the tree routes to itself; a leaf gives back all that follows, whatever it is. */
  lemma PathsRouteToThemselves(groups: seq<Group>, commands: seq<Command>, p: Path, rest: seq<string>)
    requires p in TreeOf(Entered(groups, commands)) && NoFlags(p)
    requires rest == [] || StartsWith(rest[0], "-") || TreeOf(Entered(groups, commands))[p].order == []
    ensures Route(TreeOf(Entered(groups, commands)), [], p + rest) == Ok(Routed(p, rest))
  {
    var log := Entered(groups, commands);
    var t := TreeOf(log);
    forall k | 0 <= k <= |p| ensures [] + p[..k] in t {
      PrefixesIn(log, p, k);
      assert [] + p[..k] == p[..k];
    }
    WalkDown(t, [], p, rest);
    assert [] + p == p;
    BuiltIsListed(log);
    if t[p].order == [] && rest != [] && !StartsWith(rest[0], "-") {
      assert rest[0] !in t[p].order;
    }
  }

  /** The walk fails at segment `k`, at the node `q` the segments before it reach. */
  ghost predicate FailsAt(t: Tree, p: Path, args: seq<string>, u: Unknown, k: nat, q: Path) {
    && k < |args| && q in t && Route(t, p, args[..k]) == Ok(Routed(q, []))
    && u == Unknown(args[k], Candidates(t, q)) && args[k] !in Candidates(t, q) && t[q].order != []
  }

  /** The whole answer of a walk: it reads as many segments as it descends, each naming or aliasing
      its child, and stops at the end, at a flag, or at a leaf; it fails only on a segment that is
      neither the name nor an alias of any child of the node the segments before it reach. */
  ghost predicate RightAnswer(t: Tree, p: Path, args: seq<string>, r: Result<Routed, Unknown>) {
    match r
    case Ok(x) =>
      && x.path in t && p <= x.path && |x.path| - |p| <= |args|
      && x.rest == args[|x.path| - |p|..]
      && (forall k | 0 <= k < |x.path| - |p| ::
            !StartsWith(args[k], "-") && x.path[..|p| + k] in t
            && Match(t, x.path[..|p| + k], args[k]) == Some(x.path[|p| + k]))
      && (x.rest == [] || StartsWith(x.rest[0], "-") || t[x.path].order == [])
    case Err(u) =>
      exists k, q :: FailsAt(t, p, args, u, k, q)
  }

  lemma {:induction false} RouteIsRight(t: Tree, p: Path, args: seq<string>)
    requires Listed(t) && p in t
    ensures RightAnswer(t, p, args, Route(t, p, args))
    decreases |args|
  {
    if args == [] || StartsWith(args[0], "-") || (Match(t, p, args[0]).None? && t[p].order == []) {
      StopsHere(t, p, args);
    } else if Match(t, p, args[0]).None? {
      FailsHere(t, p, args);
    } else {
      var s := Match(t, p, args[0]).value;
      MatchIsIn(t, p, args[0]);
      RouteIsRight(t, p + [s], args[1..]);
      var r := Route(t, p + [s], args[1..]);
      if r.Ok? { OneDeeper(t, p, args, s, r.value); } else { OneDeeperErr(t, p, args, s); }
    }
  }

  lemma MatchIsIn(t: Tree, p: Path, segment: string)
    requires Listed(t) && p in t
    ensures var m := Match(t, p, segment);
      if m.Some? then p + [m.value] in t else segment !in Candidates(t, p)
  {
    forall s | s in t[p].order ensures p + [s] in t {}
    AliasMatches(t, p, t[p].order, segment);
    assert segment in t[p].order <==> p + [segment] in t;
  }

  lemma StopsHere(t: Tree, p: Path, args: seq<string>)
    requires p in t
    requires args == [] || StartsWith(args[0], "-") || t[p].order == []
    ensures RightAnswer(t, p, args, Ok(Routed(p, args)))
  {
  }

  lemma FailsHere(t: Tree, p: Path, args: seq<string>)
    requires Listed(t) && p in t && args != [] && !StartsWith(args[0], "-")
    requires Match(t, p, args[0]).None? && t[p].order != []
    ensures RightAnswer(t, p, args, Err(Unknown(args[0], Candidates(t, p))))
  {
    MatchIsIn(t, p, args[0]);
    assert args[..0] == [] && Route(t, p, args[..0]) == Ok(Routed(p, []));
    assert FailsAt(t, p, args, Unknown(args[0], Candidates(t, p)), 0, p);
  }

  lemma OneDeeper(t: Tree, p: Path, args: seq<string>, s: string, x: Routed)
    requires p in t && args != [] && !StartsWith(args[0], "-") && Match(t, p, args[0]) == Some(s)
    requires RightAnswer(t, p + [s], args[1..], Ok(x))
    ensures RightAnswer(t, p, args, Ok(x))
  {
    assert x.path[..|p|] == (p + [s])[..|p|] == p;
    forall k | 0 <= k < |x.path| - |p|
      ensures !StartsWith(args[k], "-") && x.path[..|p| + k] in t
        && Match(t, x.path[..|p| + k], args[k]) == Some(x.path[|p| + k])
    {
      if k == 0 {
        assert x.path[|p|] == s;
      } else {
        assert args[1..][k - 1] == args[k];
      }
    }
    var n := |x.path| - |p|;
    assert args[1..][n - 1..] == args[n..];
  }

  lemma FailsDeeper(t: Tree, p: Path, args: seq<string>, s: string, u: Unknown, k: nat, q: Path)
    requires p in t && args != [] && !StartsWith(args[0], "-") && Match(t, p, args[0]) == Some(s)
    requires FailsAt(t, p + [s], args[1..], u, k, q)
    ensures FailsAt(t, p, args, u, k + 1, q)
  {
    assert args[..k + 1][1..] == args[1..][..k] && args[..k + 1][0] == args[0];
    assert args[1..][k] == args[k + 1];
  }

  lemma OneDeeperErr(t: Tree, p: Path, args: seq<string>, s: string)
    requires p in t && args != [] && !StartsWith(args[0], "-") && Match(t, p, args[0]) == Some(s)
    requires Route(t, p + [s], args[1..]).Err?
    requires RightAnswer(t, p + [s], args[1..], Route(t, p + [s], args[1..]))
    ensures RightAnswer(t, p, args, Route(t, p, args))
  {
    var u := Route(t, p + [s], args[1..]).error;
    var k: nat, q :| FailsAt(t, p + [s], args[1..], u, k, q);
    FailsDeeper(t, p, args, s, u, k, q);
  }

  // ------------------------------------------------------------ what a wrong segment is compared with

  lemma {:induction false} AliasesAreOfChildren(t: Tree, p: Path, order: seq<string>, x: string)
    ensures x in ChildAliases(t, p, order) <==> exists s | s in order :: p + [s] in t && x in t[p + [s]].aliases
  {
    if order != [] {
      AliasesAreOfChildren(t, p, order[1..], x);
      assert forall s :: s in order <==> s == order[0] || s in order[1..];
    }
  }

  /** The candidates of a node are the names of its children, in order, and then all their aliases. */
  lemma CandidatesAre(t: Tree, p: Path, x: string)
    requires p in t && Listed(t)
    ensures x in Candidates(t, p) <==> p + [x] in t || exists s | p + [s] in t :: x in t[p + [s]].aliases
    ensures t[p].order <= Candidates(t, p)
  {
    AliasesAreOfChildren(t, p, t[p].order, x);
    assert x in Candidates(t, p) <==> x in t[p].order || x in ChildAliases(t, p, t[p].order);
  }

  // ------------------------------------------------------------ what a node is marked with

  predicate HasCommand(commands: seq<Command>, p: Path) {
    exists i | 0 <= i < |commands| :: commands[i].path == p
  }

  /** The aliases the last of the groups gives the path, or none. */
  function GroupAliases(groups: seq<Group>, p: Path): (r: seq<string>)
    ensures (forall i | 0 <= i < |groups| :: groups[i].path != p) ==> r == []
    ensures (exists i | 0 <= i < |groups| :: groups[i].path == p) ==> exists i | 0 <= i < |groups| ::
      groups[i].path == p && groups[i].aliases == r && forall j | i < j < |groups| :: groups[j].path != p
  {
    if groups == [] then []
    else if groups[|groups| - 1].path == p then groups[|groups| - 1].aliases
    else GroupAliases(groups[..|groups| - 1], p)
  }

  predicate NamesAliases(c: Command, p: Path) {
    c.path == p && c.aliases.Some?
  }

  /** The aliases the last command at the path gives it that gives any, or else those of the groups. */
  function AliasesAt(groups: seq<Group>, commands: seq<Command>, p: Path): (r: seq<string>)
    ensures (forall i | 0 <= i < |commands| :: !NamesAliases(commands[i], p)) ==> r == GroupAliases(groups, p)
    ensures (exists i | 0 <= i < |commands| :: NamesAliases(commands[i], p)) ==> exists i | 0 <= i < |commands| ::
      NamesAliases(commands[i], p) && commands[i].aliases.value == r && forall j | i < j < |commands| :: !NamesAliases(commands[j], p)
  {
    if commands == [] then GroupAliases(groups, p)
    else if NamesAliases(commands[|commands| - 1], p) then commands[|commands| - 1].aliases.value
    else AliasesAt(groups, commands[..|commands| - 1], p)
  }

  lemma {:induction false} GroupsMark(groups: seq<Group>, p: Path)
    ensures InfoOf(Groups(groups), p).aliases == GroupAliases(groups, p) && !InfoOf(Groups(groups), p).hasCommand
  {
    if groups != [] { GroupsMark(groups[..|groups| - 1], p); }
  }

  /** A node of the built tree carries the aliases last given to its path, and a command exactly when one was entered there. */
  lemma {:induction false} NodesAreMarked(groups: seq<Group>, commands: seq<Command>, p: Path)
    ensures InfoOf(Entered(groups, commands), p).aliases == AliasesAt(groups, commands, p)
    ensures InfoOf(Entered(groups, commands), p).hasCommand <==> HasCommand(commands, p)
  {
    if commands == [] {
      GroupsMark(groups, p);
    } else {
      var n := |commands| - 1;
      NodesAreMarked(groups, commands[..n], p);
      assert HasCommand(commands, p) <==> HasCommand(commands[..n], p) || commands[n].path == p by {
        assert forall i | 0 <= i < n :: commands[..n][i] == commands[i];
      }
    }
  }

  /** So in the tree that is built. */
  lemma TreeIsMarked(groups: seq<Group>, commands: seq<Command>, p: Path)
    requires p in TreeOf(Entered(groups, commands))
    ensures TreeOf(Entered(groups, commands))[p].aliases == AliasesAt(groups, commands, p)
    ensures TreeOf(Entered(groups, commands))[p].hasCommand <==> HasCommand(commands, p)
  {
    NodesAreMarked(groups, commands, p);
  }

  // --------------------------------------------------------------- the command run

  /** The last command whose path joins to `key`. */
  function LastJoined(commands: seq<Command>, key: string): (r: Option<nat>)
    ensures r.None? <==> forall i | 0 <= i < |commands| :: Join(commands[i].path) != key
    ensures r.Some? ==> r.value < |commands| && Join(commands[r.value].path) == key
    ensures r.Some? ==> forall i | r.value < i < |commands| :: Join(commands[i].path) != key
  {
    if commands == [] then None
    else if Join(commands[|commands| - 1].path) == key then Some(|commands| - 1)
    else
      var r := LastJoined(commands[..|commands| - 1], key);
      assert forall i | 0 <= i < |commands| - 1 :: commands[..|commands| - 1][i] == commands[i];
      r
  }

  lemma {:induction false} GroupsHaveNoCommand(groups: seq<Group>)
    ensures CommandMap(Groups(groups)) == map[]
  {
    if groups != [] { GroupsHaveNoCommand(groups[..|groups| - 1]); }
  }

  /** The map answers a joined path with the last command that joins to it. */
  lemma {:induction false} MapHoldsTheLast(groups: seq<Group>, commands: seq<Command>, key: string)
    ensures var m := CommandMap(Entered(groups, commands));
      var last := LastJoined(commands, key);
      (key in m <==> last.Some?) && (last.Some? ==> m[key] == commands[last.value].config)
    decreases |commands|
  {
    if commands == [] {
      GroupsHaveNoCommand(groups);
    } else {
      MapHoldsTheLast(groups, commands[..|commands| - 1], key);
    }
  }

  /** A path shares its joined path with another one exactly when it is not a single, non-empty, slash-free segment. */
  lemma JoinCollides(p: Path)
    ensures (exists q :: q != p && Join(q) == Join(p)) <==> !(|p| == 1 && p[0] != "" && '/' !in p[0])
  {
    if |p| == 1 && p[0] != "" && '/' !in p[0] {
      forall q | Join(q) == Join(p) ensures q == p { OnlySegment(q, p[0]); }
    } else {
      var q := Partner(p);
    }
  }

  lemma OnlySegment(q: Path, s: string)
    requires Join(q) == s && s != "" && '/' !in s
    ensures q == [s]
  {
    if |q| > 1 { JoinHasSlash(q); }
  }

  lemma JoinHasSlash(q: Path)
    requires |q| > 1
    ensures '/' in Join(q)
  {
    assert Join(q)[|q[0]|] == '/';
  }

  lemma Partner(p: Path) returns (q: Path)
    requires !(|p| == 1 && p[0] != "" && '/' !in p[0])
    ensures q != p && Join(q) == Join(p)
  {
    if p == [] {
      q := [""];
    } else if p == [""] {
      q := [];
    } else if |p| == 1 {
      var i :| 0 <= i < |p[0]| && p[0][i] == '/';
      q := [p[0][..i], p[0][i + 1..]];
      assert q[1..] == [p[0][i + 1..]];
      assert p[0] == p[0][..i] + "/" + p[0][i + 1..];
    } else {
      q := [Join(p)];
    }
  }

  lemma LastJoinedAnswers(groups: seq<Group>, commands: seq<Command>, i: nat)
    requires i < |commands|
    requires forall j, k | 0 <= j < k < |commands| :: commands[j].config != commands[k].config
    ensures var table, key := CommandMap(Entered(groups, commands)), Join(commands[i].path);
      && key in table
      && (table[key] == commands[i].config <==> forall j | i < j < |commands| :: Join(commands[j].path) != key)
  {
    MapHoldsTheLast(groups, commands, Join(commands[i].path));
    var last := LastJoined(commands, Join(commands[i].path)).value;
    assert last >= i;
  }

  /** A registered command path, typed as it is, arrives at its node and runs the last command that joins to it. */
  lemma RegisteredPathRunsLast(groups: seq<Group>, commands: seq<Command>, i: nat)
    requires i < |commands| && NoFlags(commands[i].path)
    requires forall j, k | 0 <= j < k < |commands| :: commands[j].config != commands[k].config
    ensures var log := Entered(groups, commands);
      var p := commands[i].path;
      && Route(TreeOf(log), [], p) == Ok(Routed(p, []))
      && Join(p) in CommandMap(log)
      && (CommandMap(log)[Join(p)] == commands[i].config <==>
            forall j | i < j < |commands| :: Join(commands[j].path) != Join(p))
  {
    var p := commands[i].path;
    PathsArePrefixes(groups, commands, p);
    assert p + [] == p;
    PathsRouteToThemselves(groups, commands, p, []);
    LastJoinedAnswers(groups, commands, i);
  }

  /** Among slash-free paths that is the last command registered at the path itself. */
  lemma SlashFreePathRunsItsLast(groups: seq<Group>, commands: seq<Command>, i: nat)
    requires i < |commands| && NoFlags(commands[i].path)
    requires forall j, k | 0 <= j < k < |commands| :: commands[j].config != commands[k].config
    requires forall j | 0 <= j < |commands| :: SlashFree(commands[j].path)
    requires forall j | i < j < |commands| :: commands[j].path != commands[i].path
    ensures var log := Entered(groups, commands);
      && Route(TreeOf(log), [], commands[i].path) == Ok(Routed(commands[i].path, []))
      && Join(commands[i].path) in CommandMap(log) && CommandMap(log)[Join(commands[i].path)] == commands[i].config
  {
    RegisteredPathRunsLast(groups, commands, i);
    forall j | i < j < |commands| ensures Join(commands[j].path) != Join(commands[i].path) {
      if Join(commands[j].path) == Join(commands[i].path) { JoinIsInjective(commands[j].path, commands[i].path); }
    }
  }

  // --------------------------------------------------------- splitting the arguments

  /** `mask` deals `args` out in order: the marked tokens to `a`, the others to `b`. */
  predicate Deals(args: seq<string>, mask: seq<bool>, a: seq<string>, b: seq<string>)
    requires |mask| == |args|
  {
    if args == [] then a == [] && b == []
    else if mask[0] then a != [] && a[0] == args[0] && Deals(args[1..], mask[1..], a[1..], b)
    else b != [] && b[0] == args[0] && Deals(args[1..], mask[1..], a, b[1..])
  }

  lemma {:induction false} AllPassThrough(args: seq<string>) returns (mask: seq<bool>)
    ensures |mask| == |args| && Deals(args, mask, [], args)
  {
    if args == [] {
      mask := [];
    } else {
      var rest := AllPassThrough(args[1..]);
      mask := [false] + rest;
    }
  }

  lemma {:induction false} DealsJoin(x: seq<string>, m: seq<bool>, r: Split, y: seq<string>, n: seq<bool>, s: Split)
    requires |m| == |x| && |n| == |y| && Deals(x, m, r.segments, r.passthrough) && Deals(y, n, s.segments, s.passthrough)
    ensures Deals(x + y, m + n, r.segments + s.segments, r.passthrough + s.passthrough)
    decreases |x|
  {
    if x == [] {
      assert x + y == y && m + n == n && r.segments + s.segments == s.segments && r.passthrough + s.passthrough == s.passthrough;
    } else {
      assert (x + y)[1..] == x[1..] + y && (m + n)[1..] == m[1..] + n;
      if m[0] {
        DealsJoin(x[1..], m[1..], r.(segments := r.segments[1..]), y, n, s);
        assert (r.segments + s.segments)[1..] == r.segments[1..] + s.segments;
      } else {
        DealsJoin(x[1..], m[1..], r.(passthrough := r.passthrough[1..]), y, n, s);
        assert (r.passthrough + s.passthrough)[1..] == r.passthrough[1..] + s.passthrough;
      }
    }
  }

  lemma OneTurnDeals(globals: Globals, args: seq<string>) returns (mask: seq<bool>)
    requires args != []
    ensures |mask| == Width(globals, args)
    ensures Deals(args[..|mask|], mask, Dealt(globals, args).segments, Dealt(globals, args).passthrough)
  {
    if StartsWith(args[0], "-") {
      mask := AllPassThrough(args[..Width(globals, args)]);
    } else {
      mask := [true];
    }
  }

  /** The splitter deals every token to exactly one side, in order. */
  lemma {:induction false} SplitDealsAll(globals: Globals, args: seq<string>) returns (mask: seq<bool>)
    ensures |mask| == |args| && Deals(args, mask, SplitArgs(globals, args).segments, SplitArgs(globals, args).passthrough)
    decreases |args|
  {
    if args == [] {
      mask := [];
    } else {
      var n := Width(globals, args);
      var first := OneTurnDeals(globals, args);
      var rest := SplitDealsAll(globals, args[n..]);
      mask := first + rest;
      DealsJoin(args[..n], first, Dealt(globals, args), args[n..], rest, SplitArgs(globals, args[n..]));
      CutAndJoin(args, n);
    }
  }

  lemma CutAndJoin(args: seq<string>, n: nat)
    requires n <= |args|
    ensures args[..n] + args[n..] == args
  {
  }

  /** No flag is ever taken for a command name. */
  lemma {:induction false} SegmentsAreWords(globals: Globals, args: seq<string>)
    ensures NoFlags(SplitArgs(globals, args).segments)
    decreases |args|
  {
    if args != [] { SegmentsAreWords(globals, args[Width(globals, args)..]); }
  }

  /** The splitter reads all of `pre`: every flag in it is global and has its value. */
  predicate Consumed(globals: Globals, pre: seq<string>)
    decreases |pre|
  {
    if pre == [] then true
    else if !StartsWith(pre[0], "-") then Consumed(globals, pre[1..])
    else if FlagName(pre[0]) !in globals then false
    else if TakesNext(globals, pre[0]) then |pre| > 1 && Consumed(globals, pre[2..])
    else Consumed(globals, pre[1..])
  }

  lemma {:induction false} SplitAppends(globals: Globals, pre: seq<string>, post: seq<string>)
    requires Consumed(globals, pre)
    ensures SplitArgs(globals, pre + post) == Plus(SplitArgs(globals, pre), SplitArgs(globals, post))
    decreases |pre|
  {
    if pre == [] {
      assert pre + post == post;
      PlusIsAssociative(SplitArgs(globals, post), Split([], []), Split([], []));
    } else {
      var n := Width(globals, pre);
      assert (pre + post)[0] == pre[0] && (pre + post)[n..] == pre[n..] + post && (pre + post)[..n] == pre[..n];
      SplitAppends(globals, pre[n..], post);
      PlusIsAssociative(Dealt(globals, pre), SplitArgs(globals, pre[n..]), SplitArgs(globals, post));
      assert Width(globals, pre + post) == n && Dealt(globals, pre + post) == Dealt(globals, pre);
    }
  }

  lemma FlagIsDealt(globals: Globals, flag: seq<string>)
    requires flag != [] && StartsWith(flag[0], "-") && FlagName(flag[0]) in globals
    requires |flag| == if TakesNext(globals, flag[0]) then 2 else 1
    ensures Consumed(globals, flag) && SplitArgs(globals, flag) == Split([], flag)
  {
    assert flag[|flag|..] == [] && flag[..|flag|] == flag;
    assert SplitArgs(globals, []) == Split([], []);
    PlusIsAssociative(Split([], flag), Split([], []), Split([], []));
  }

  /** The name of a flag is what follows its dashes, up to an equals sign after two. */
  lemma NamesOfFlags(name: string, value: string)
    requires '=' !in name
    ensures FlagName("--" + name) == name && FlagName("--" + name + "=" + value) == name
    ensures IndexOf("--" + name, '=') < 0 && IndexOf("--" + name + "=" + value, '=') == |name| + 2
    ensures StartsWith("--" + name, "--") && StartsWith("--" + name + "=" + value, "--")
    ensures !StartsWith(name, "-") ==> FlagName("-" + name) == name && !StartsWith("-" + name, "--")
  {
    var joined := "--" + name + "=" + value;
    assert joined[|name| + 2] == '=' && joined[2..|name| + 2] == name && joined[..2] == "--";
    assert forall j | 0 <= j < |name| :: joined[j + 2] == name[j];
    assert ("--" + name)[2..] == name && ("--" + name)[..2] == "--" && ("-" + name)[1..] == name;
    if StartsWith("-" + name, "--") { assert ("-" + name)[1] == '-' && name[..1] == "-"; }
  }

  lemma OneFlag(globals: Globals, flag: seq<string>, post: seq<string>)
    requires flag != [] && StartsWith(flag[0], "-") && FlagName(flag[0]) in globals
    requires |flag| == if TakesNext(globals, flag[0]) then 2 else 1
    ensures SplitArgs(globals, flag + post) == Plus(Split([], flag), SplitArgs(globals, post))
  {
    FlagIsDealt(globals, flag);
    SplitAppends(globals, flag, post);
  }

  /** A global goes to the parser in each of its spellings, with the next token when it takes a value and is not given one. */
  lemma GlobalsAreRead(globals: Globals, name: string, value: string, post: seq<string>)
    requires name in globals && '=' !in name
    ensures SplitArgs(globals, ["--" + name + "=" + value] + post) == Plus(Split([], ["--" + name + "=" + value]), SplitArgs(globals, post))
    ensures forall flag | flag == "--" + name || (flag == "-" + name && !StartsWith(name, "-")) ::
      if globals[name].IsBoolean? then SplitArgs(globals, [flag] + post) == Plus(Split([], [flag]), SplitArgs(globals, post))
      else SplitArgs(globals, [flag, value] + post) == Plus(Split([], [flag, value]), SplitArgs(globals, post))
  {
    NamesOfFlags(name, value);
    OneFlag(globals, ["--" + name + "=" + value], post);
    forall flag | flag == "--" + name || (flag == "-" + name && !StartsWith(name, "-"))
      ensures if globals[name].IsBoolean? then SplitArgs(globals, [flag] + post) == Plus(Split([], [flag]), SplitArgs(globals, post))
        else SplitArgs(globals, [flag, value] + post) == Plus(Split([], [flag, value]), SplitArgs(globals, post))
    {
      OneFlag(globals, if globals[name].IsBoolean? then [flag] else [flag, value], post);
    }
  }

  /** Any other flag ends the reading: it and all that follows is for the command. */
  lemma OtherFlagsStop(globals: Globals, name: string, value: string, post: seq<string>)
    requires name !in globals && '=' !in name
    ensures forall flag | flag in {"--" + name, "--" + name + "=" + value} || (flag == "-" + name && !StartsWith(name, "-")) ::
      SplitArgs(globals, [flag] + post) == Split([], [flag] + post)
  {
    NamesOfFlags(name, value);
    forall flag | flag in {"--" + name, "--" + name + "=" + value} || (flag == "-" + name && !StartsWith(name, "-"))
      ensures SplitArgs(globals, [flag] + post) == Split([], [flag] + post)
    {
      var all := [flag] + post;
      assert all[..|all|] == all && all[|all|..] == [] && StartsWith(flag, "-");
      assert SplitArgs(globals, []) == Split([], []);
      PlusIsAssociative(Split([], all), Split([], []), Split([], []));
    }
  }

  /** A global flag, with its value, can stand anywhere the splitter still reads: the command routed to is the same. */
  lemma GlobalsDoNotRoute(globals: Globals, pre: seq<string>, flag: seq<string>, post: seq<string>)
    requires Consumed(globals, pre)
    requires flag != [] && StartsWith(flag[0], "-") && FlagName(flag[0]) in globals
    requires |flag| == if TakesNext(globals, flag[0]) then 2 else 1
    ensures SplitArgs(globals, pre + (flag + post)).segments == SplitArgs(globals, pre + post).segments
  {
    FlagIsDealt(globals, flag);
    SplitAppends(globals, pre, flag + post);
    SplitAppends(globals, flag, post);
    SplitAppends(globals, pre, post);
    assert [] + SplitArgs(globals, post).segments == SplitArgs(globals, post).segments;
  }

  /** For a leaf command, the words after its path and everything from the first unknown flag on
      come back to the command's own parser as they were typed. */
  lemma LeafArgumentsComeBack(groups: seq<Group>, commands: seq<Command>, globals: Globals, p: Path, words: seq<string>, tail: seq<string>)
    requires var t := TreeOf(Entered(groups, commands)); p in t && NoFlags(p) && t[p].order == []
    requires NoFlags(words)
    requires tail == [] || (StartsWith(tail[0], "-") && FlagName(tail[0]) !in globals)
    ensures var split := SplitArgs(globals, p + words + tail);
      var r := Route(TreeOf(Entered(groups, commands)), [], split.segments);
      r.Ok? && r.value.path == p && r.value.rest + split.passthrough == words + tail
  {
    LeafSplit(globals, p + words, tail);
    PathsRouteToThemselves(groups, commands, p, words);
  }

  lemma LeafSplit(globals: Globals, words: seq<string>, tail: seq<string>)
    requires NoFlags(words)
    requires tail == [] || (StartsWith(tail[0], "-") && FlagName(tail[0]) !in globals)
    ensures SplitArgs(globals, words + tail) == Split(words, tail)
  {
    WordsAreRead(globals, words);
    SplitAppends(globals, words, tail);
    TailPassesThrough(globals, tail);
    assert words + [] == words && [] + tail == tail;
  }

  lemma TailPassesThrough(globals: Globals, tail: seq<string>)
    requires tail == [] || (StartsWith(tail[0], "-") && FlagName(tail[0]) !in globals)
    ensures SplitArgs(globals, tail) == Split([], tail)
  {
    if tail != [] {
      assert tail[|tail|..] == [] && tail[..|tail|] == tail;
      assert SplitArgs(globals, []) == Split([], []);
      PlusIsAssociative(Split([], tail), Split([], []), Split([], []));
    }
  }

  lemma {:induction false} WordsAreRead(globals: Globals, words: seq<string>)
    requires NoFlags(words)
    ensures Consumed(globals, words) && SplitArgs(globals, words) == Split(words, [])
    decreases |words|
  {
    if words != [] {
      WordsAreRead(globals, words[1..]);
      assert words == [words[0]] + words[1..];
    }
  }

  /** A word after a boolean global goes to the command path or the positionals, whatever the word is: the parser
      never sees `true` or `false` behind the flag. */
  lemma WordAfterGlobalIsMoved(globals: Globals, flag: string, word: string)
    requires StartsWith(flag, "-") && FlagName(flag) in globals && !TakesNext(globals, flag) && !StartsWith(word, "-")
    ensures SplitArgs(globals, [flag, word]) == Split([word], [flag])
  {
    FlagIsDealt(globals, [flag]);
    SplitAppends(globals, [flag], [word]);
    WordsAreRead(globals, [word]);
    assert [flag] + [word] == [flag, word];
    assert [] + [word] == [word] && [flag] + [] == [flag];
  }
}
