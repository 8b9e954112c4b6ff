/** The command tree built in place, and the walks over it (packages/cli-framework/src/router.ts). */
module RouterClass {
  import opened Basics
  import opened RouterModel

  /** A tree node; children are indices into the tree's nodes. */
  datatype Node = Node(name: string, children: map<string, nat>, info: Info)

  ghost predicate Placed(nodes: seq<Node>, at: map<Path, nat>) {
    && [] in at && at[[]] == 0
    && (forall p | p in at :: at[p] < |nodes|)
    && (forall p, q | p in at && q in at && at[p] == at[q] :: p == q)
  }

  ghost predicate Named(nodes: seq<Node>, at: map<Path, nat>)
    requires Placed(nodes, at)
  {
    forall p | p in at && p != [] :: nodes[at[p]].name == p[|p| - 1]
  }

  /** The node at `p` has a child for exactly the segments that continue `p`. */
  ghost predicate Joined(node: Node, at: map<Path, nat>, p: Path) {
    forall s {:trigger s in node.children} ::
      && (s in node.children <==> p + [s] in at)
      && (s in node.info.order <==> s in node.children)
      && (s in node.children ==> node.children[s] == at[p + [s]])
  }

  ghost predicate Linked(nodes: seq<Node>, at: map<Path, nat>)
    requires Placed(nodes, at)
  {
    forall p {:trigger at[p]} | p in at :: Joined(nodes[at[p]], at, p)
  }

  /** Every entered path has its node, and the node holds what was entered for it. */
  ghost predicate Filled(nodes: seq<Node>, at: map<Path, nat>, log: Log)
    requires Placed(nodes, at)
  {
    && at.Keys == Closure(log)
    && forall p | p in at :: nodes[at[p]].info == InfoOf(log, p)
  }

  ghost predicate Shaped(nodes: seq<Node>, at: map<Path, nat>, log: Log) {
    Placed(nodes, at) && Named(nodes, at) && Linked(nodes, at) && Filled(nodes, at, log)
  }

  // ------------------------------------------------- one more segment of a path

  lemma ClosureStep(before: Log, p: Path, s: string)
    ensures Closure(Visit(before, p + [s])) == Closure(Visit(before, p)) + {p + [s]}
  {
    assert (p + [s])[..|p + [s]| - 1] == p;
  }

  lemma InfoStep(before: Log, p: Path, s: string, r: Path)
    ensures InfoOf(Visit(before, p + [s]), r) ==
      if r == p && s !in InfoOf(Visit(before, p), r).order
      then InfoOf(Visit(before, p), r).(order := InfoOf(Visit(before, p), r).order + [s])
      else InfoOf(Visit(before, p), r)
  {
    assert r < p + [s] <==> r < p || r == p;
  }

  lemma {:induction false} OutsideIsBlank(log: Log, p: Path)
    requires p !in Closure(log)
    ensures InfoOf(log, p) == Blank
  {
    if !log.Empty? {
      OutsideIsBlank(log.before, p);
      PrefixesAre(p, LastPath(log));
    }
  }

  lemma {:induction false} ParentsAreIn(log: Log, q: Path, t: string)
    requires q + [t] in Closure(log)
    ensures q in Closure(log)
  {
    if !log.Empty? {
      if q + [t] in Closure(log.before) {
        ParentsAreIn(log.before, q, t);
      } else {
        PrefixesAre(q + [t], LastPath(log));
        PrefixesAre(q, LastPath(log));
      }
    }
  }

  lemma SnocIsInjective(p: Path, s: string, q: Path, t: string)
    requires p + [s] == q + [t]
    ensures p == q && s == t
  {
    assert p == (p + [s])[..|p|] && q == (q + [t])[..|q|];
    assert (p + [s])[|p|] == s && (q + [t])[|q|] == t;
  }

  function WithChild(nodes: seq<Node>, n: nat, s: string): seq<Node>
    requires n < |nodes|
  {
    var parent := nodes[n];
    nodes[n := Node(parent.name, parent.children[s := |nodes|], parent.info.(order := parent.info.order + [s]))]
    + [Node(s, map[], Blank)]
  }

  lemma WithChildPlaced(nodes: seq<Node>, at: map<Path, nat>, p: Path, s: string)
    requires Placed(nodes, at) && Named(nodes, at) && p in at && p + [s] !in at
    ensures var more, at2 := WithChild(nodes, at[p], s), at[p + [s] := |nodes|];
      Placed(more, at2) && Named(more, at2)
  {
  }

  lemma StaysJoined(node: Node, at: map<Path, nat>, q: Path, p: Path, s: string, m: nat)
    requires Joined(node, at, q) && q != p
    ensures Joined(node, at[p + [s] := m], q)
  {
    forall t ensures q + [t] != p + [s] {
      if q + [t] == p + [s] { SnocIsInjective(q, t, p, s); }
    }
  }

  lemma ParentJoined(node: Node, at: map<Path, nat>, p: Path, s: string, m: nat)
    requires Joined(node, at, p) && p + [s] !in at
    ensures Joined(Node(node.name, node.children[s := m], node.info.(order := node.info.order + [s])), at[p + [s] := m], p)
  {
    forall t | t != s ensures p + [t] != p + [s] {
      if p + [t] == p + [s] { SnocIsInjective(p, t, p, s); }
    }
  }

  lemma WithChildLinked(nodes: seq<Node>, at: map<Path, nat>, p: Path, s: string)
    requires Placed(nodes, at) && Named(nodes, at) && Linked(nodes, at) && p in at && p + [s] !in at
    requires forall t :: (p + [s]) + [t] !in at
    ensures var more, at2 := WithChild(nodes, at[p], s), at[p + [s] := |nodes|];
      Placed(more, at2) && Linked(more, at2)
  {
    var more, at2 := WithChild(nodes, at[p], s), at[p + [s] := |nodes|];
    WithChildPlaced(nodes, at, p, s);
    forall q | q in at2 ensures Joined(more[at2[q]], at2, q) {
      if q == p {
        ParentJoined(nodes[at[p]], at, p, s, |nodes|);
      } else if q in at {
        StaysJoined(nodes[at[q]], at, q, p, s, |nodes|);
        assert more[at2[q]] == nodes[at[q]];
      } else {
        assert forall t :: |(p + [s]) + [t]| != |p + [s]|;
      }
    }
  }

  lemma WithChildFilled(nodes: seq<Node>, at: map<Path, nat>, before: Log, p: Path, s: string)
    requires Placed(nodes, at) && Named(nodes, at) && Linked(nodes, at) && p in at && p + [s] !in at
    requires Filled(nodes, at, Visit(before, p))
    ensures var more, at2 := WithChild(nodes, at[p], s), at[p + [s] := |nodes|];
      Placed(more, at2) && Filled(more, at2, Visit(before, p + [s]))
  {
    var more, at2 := WithChild(nodes, at[p], s), at[p + [s] := |nodes|];
    WithChildPlaced(nodes, at, p, s);
    ClosureStep(before, p, s);
    OutsideIsBlank(Visit(before, p), p + [s]);
    assert s !in nodes[at[p]].children;
    forall q | q in at2 ensures more[at2[q]].info == InfoOf(Visit(before, p + [s]), q) {
      InfoStep(before, p, s, q);
      if q == p {
        assert more[at2[q]].info.order == nodes[at[q]].info.order + [s];
      } else if q in at {
        assert more[at2[q]] == nodes[at[q]];
      }
    }
  }

  lemma WithChildShaped(nodes: seq<Node>, at: map<Path, nat>, before: Log, p: Path, s: string)
    requires Shaped(nodes, at, Visit(before, p)) && p in at && p + [s] !in at
    ensures Shaped(WithChild(nodes, at[p], s), at[p + [s] := |nodes|], Visit(before, p + [s]))
  {
    forall t ensures (p + [s]) + [t] !in at {
      if (p + [s]) + [t] in at { ParentsAreIn(Visit(before, p), p + [s], t); }
    }
    WithChildPlaced(nodes, at, p, s);
    WithChildLinked(nodes, at, p, s);
    WithChildFilled(nodes, at, before, p, s);
  }

  lemma SameChildShaped(nodes: seq<Node>, at: map<Path, nat>, before: Log, p: Path, s: string)
    requires Shaped(nodes, at, Visit(before, p)) && p in at && p + [s] in at
    ensures Shaped(nodes, at, Visit(before, p + [s]))
  {
    ClosureStep(before, p, s);
    assert Joined(nodes[at[p]], at, p) && s in nodes[at[p]].children;
    forall q | q in at ensures nodes[at[q]].info == InfoOf(Visit(before, p + [s]), q) {
      InfoStep(before, p, s, q);
    }
  }

  // ------------------------------------------------------ starting and finishing a path

  lemma RootShaped()
    ensures Shaped([Node("", map[], Blank)], map[[] := 0], Empty)
  {
  }

  lemma StartShaped(nodes: seq<Node>, at: map<Path, nat>, before: Log)
    requires Shaped(nodes, at, before)
    ensures Shaped(nodes, at, Visit(before, []))
  {
    RootIsIn(before);
    assert Closure(Visit(before, [])) == Closure(before);
    forall p ensures InfoOf(Visit(before, []), p) == InfoOf(before, p) {}
  }

  lemma SameLinks(node: Node, other: Node, at: map<Path, nat>, p: Path)
    requires Joined(node, at, p) && other.children == node.children && other.info.order == node.info.order
    ensures Joined(other, at, p)
  {
    forall s
      ensures (s in other.children <==> p + [s] in at) && (s in other.info.order <==> s in other.children)
      ensures s in other.children ==> other.children[s] == at[p + [s]]
    { assert s in node.children <==> s in other.children; }
  }

  /** Writing the marks of the last node finishes its path. */
  lemma FinishShaped(nodes: seq<Node>, at: map<Path, nat>, before: Log, log: Log, info: Info)
    requires !log.Empty? && log.before == before && LastPath(log) in at
    requires Shaped(nodes, at, Visit(before, LastPath(log)))
    requires info == InfoOf(log, LastPath(log)) && info.order == InfoOf(Visit(before, LastPath(log)), LastPath(log)).order
    ensures var n := at[LastPath(log)]; Shaped(nodes[n := nodes[n].(info := info)], at, log)
  {
    var n := at[LastPath(log)];
    var more := nodes[n := nodes[n].(info := info)];
    forall p | p in at ensures Joined(more[at[p]], at, p) {
      assert Joined(nodes[at[p]], at, p);
      SameLinks(nodes[at[p]], more[at[p]], at, p);
    }
    assert Closure(log) == Closure(Visit(before, LastPath(log)));
    forall p | p in at && p != LastPath(log) ensures InfoOf(log, p) == InfoOf(Visit(before, LastPath(log)), p) {}
  }

  lemma TakeOneMore<T>(s: seq<T>, k: nat)
    requires k < |s|
    ensures s[..k + 1] == s[..k] + [s[k]]
    ensures s[..k + 1][..k] == s[..k]
  {
  }

  lemma TakeAll<T>(s: seq<T>)
    ensures s[..|s|] == s
  {
  }

  /** The children a node lists are nodes with the aliases that the tree shows for them. */
  ghost predicate Shows(nodes: seq<Node>, n: nat, t: Tree, p: Path) {
    n < |nodes| && forall s | s in nodes[n].info.order ::
      && s in nodes[n].children && nodes[n].children[s] < |nodes|
      && p + [s] in t && nodes[nodes[n].children[s]].info.aliases == t[p + [s]].aliases
  }

  method AliasesOfChildren(nodes: seq<Node>, n: nat, ghost t: Tree, ghost p: Path) returns (aliases: seq<string>)
    requires Shows(nodes, n, t, p)
    ensures aliases == ChildAliases(t, p, nodes[n].info.order)
  {
    var order := nodes[n].info.order;
    aliases := [];
    assert order[0..] == order;
    for k := 0 to |order|
      invariant aliases + ChildAliases(t, p, order[k..]) == ChildAliases(t, p, order)
    {
      assert order[k..][1..] == order[k + 1..];
      aliases := aliases + nodes[nodes[n].children[order[k]]].info.aliases;
    }
  }

  lemma ChildLookup(nodes: seq<Node>, at: map<Path, nat>, p: Path, s: string)
    requires Placed(nodes, at) && Linked(nodes, at) && p in at
    ensures s in nodes[at[p]].children <==> p + [s] in at
    ensures s in nodes[at[p]].children ==> nodes[at[p]].children[s] == at[p + [s]]
  {
    assert Joined(nodes[at[p]], at, p);
  }

  lemma VisitsRunNothing(before: Log, p: Path, q: Path)
    ensures CommandMap(Visit(before, p)) == CommandMap(Visit(before, q))
  { }

  class CommandTree {
    var nodes: seq<Node>
    var commandMap: map<string, nat>
    ghost var at: map<Path, nat>
    ghost var log: Log

    ghost predicate Valid() reads this {
      Shaped(nodes, at, log) && commandMap == CommandMap(log)
    }

    /** The tree as a value. */
    ghost function View(): Tree
      reads this
      requires Valid()
    {
      map p | p in at :: nodes[at[p]].info
    }

    lemma ViewIsTree()
      requires Valid()
      ensures View() == TreeOf(log)
    {
    }

    constructor ()
      ensures Valid() && log == Empty
    {
      nodes := [Node("", map[], Blank)];
      commandMap := map[];
      at := map[[] := 0];
      log := Empty;
      new;
      RootShaped();
    }

    /** The tree after a change that keeps its shape. */
    method Become(nodes: seq<Node>, ghost at: map<Path, nat>, ghost log: Log)
      requires Shaped(nodes, at, log) && commandMap == CommandMap(log)
      modifies this`nodes, this`at, this`log
      ensures this.nodes == nodes && this.at == at && this.log == log
    {
      this.nodes, this.at, this.log := nodes, at, log;
    }

    /** A new node under the node at `p`. */
    method AddChild(n: nat, s: string, ghost before: Log, ghost p: Path) returns (m: nat)
      requires Valid() && p in at && n == at[p] && log == Visit(before, p) && p + [s] !in at
      modifies this`nodes, this`at, this`log
      ensures Valid() && log == Visit(before, p + [s])
      ensures p + [s] in at && m == at[p + [s]]
    {
      m := |nodes|;
      VisitsRunNothing(before, p, p + [s]);
      WithChildShaped(nodes, at, before, p, s);
      Become(WithChild(nodes, n, s), at[p + [s] := m], Visit(before, p + [s]));
    }

    /** Enter the child `s` of the node at `p`, adding it when it is missing. */
    method Descend(n: nat, s: string, ghost before: Log, ghost p: Path) returns (m: nat)
      requires Valid() && p in at && n == at[p] && log == Visit(before, p)
      modifies this`nodes, this`at, this`log
      ensures Valid() && log == Visit(before, p + [s])
      ensures p + [s] in at && m == at[p + [s]]
    {
      ChildLookup(nodes, at, p, s);
      if s in nodes[n].children {
        m := nodes[n].children[s];
        SameChildShaped(nodes, at, before, p, s);
        log := Visit(before, p + [s]);
      } else {
        m := AddChild(n, s, before, p);
      }
    }

    method Start() returns (n: nat)
      requires Valid()
      modifies this`log
      ensures Valid() && log == Visit(old(log), []) && [] in at && n == at[[]]
    {
      StartShaped(nodes, at, log);
      log := Visit(log, []);
      n := 0;
    }

    method Insert(path: Path) returns (n: nat)
      requires Valid()
      modifies this`nodes, this`at, this`log
      ensures Valid() && log == Visit(old(log), path)
      ensures path in at && n == at[path]
    {
      ghost var before := log;
      n := Start();
      ghost var p: Path := [];
      for k := 0 to |path|
        invariant Valid() && log == Visit(before, p)
        invariant p in at && n == at[p]
        invariant p == path[..k]
      {
        TakeOneMore(path, k);
        p := path[..k + 1];
        n := Descend(n, path[k], before, path[..k]);
      }
      TakeAll(path);
    }

    method EnterGroup(g: Group)
      requires Valid()
      modifies this
      ensures Valid() && log == AddGroup(old(log), g)
    {
      ghost var before := log;
      var n := Insert(g.path);
      FinishShaped(nodes, at, before, AddGroup(before, g), nodes[n].info.(aliases := g.aliases));
      Become(nodes[n := nodes[n].(info := nodes[n].info.(aliases := g.aliases))], at, AddGroup(before, g));
    }

    method EnterCommand(c: Command)
      requires Valid()
      modifies this
      ensures Valid() && log == AddCommand(old(log), c)
    {
      ghost var before := log;
      var n := Insert(c.path);
      FinishShaped(nodes, at, before, AddCommand(before, c), Commanded(nodes[n].info, c));
      var info := nodes[n].info.(hasCommand := true);
      if c.aliases.Some? { info := info.(aliases := c.aliases.value); }
      commandMap := commandMap[Join(c.path) := c.config];
      Become(nodes[n := nodes[n].(info := info)], at, AddCommand(before, c));
    }

    /** Building in place gives the tree of the groups and commands, and the map of the last command at each joined path. */
    constructor Build(groups: seq<Group>, commands: seq<Command>)
      ensures Valid() && View() == TreeOf(Entered(groups, commands))
      ensures commandMap == CommandMap(Entered(groups, commands))
    {
      nodes := [Node("", map[], Blank)];
      commandMap := map[];
      at := map[[] := 0];
      log := Empty;
      new;
      RootShaped();
      for i := 0 to |groups|
        invariant Valid() && log == Groups(groups[..i])
      {
        TakeOneMore(groups, i);
        EnterGroup(groups[i]);
      }
      TakeAll(groups);
      for i := 0 to |commands|
        invariant Valid() && log == Entered(groups, commands[..i])
      {
        TakeOneMore(commands, i);
        EnterCommand(commands[i]);
      }
      TakeAll(commands);
      ViewIsTree();
    }

    // ---------------------------------------------------------------- walks

    /** `getNode`: the node at a path, if the tree has one. */
    method GetNode(path: Path) returns (n: Option<nat>)
      requires Valid()
      ensures n == if path in at then Some(at[path]) else None
    {
      var m := 0;
      for k := 0 to |path|
        invariant path[..k] in at && m == at[path[..k]]
      {
        TakeOneMore(path, k);
        assert Joined(nodes[m], at, path[..k]);
        if path[k] !in nodes[m].children {
          if path in at { PrefixIn(path, k + 1); }
          return None;
        }
        m := nodes[m].children[path[k]];
      }
      TakeAll(path);
      return Some(m);
    }

    lemma PrefixIn(path: Path, k: nat)
      requires Valid() && path in at && k <= |path|
      ensures path[..k] in at
      decreases |path| - k
    {
      if k == |path| {
        TakeAll(path);
      } else {
        PrefixIn(path, k + 1);
        TakeOneMore(path, k);
        ParentsAreIn(log, path[..k], path[k]);
      }
    }

    method AliasChild(n: nat, segment: string, ghost p: Path) returns (child: Option<nat>)
      requires Valid() && p in at && n == at[p]
      ensures var s := ByAlias(View(), p, View()[p].order, segment);
        if s.None? then child.None? else p + [s.value] in at && child == Some(at[p + [s.value]])
    {
      var order := nodes[n].info.order;
      assert order[0..] == order;
      for k := 0 to |order|
        invariant ByAlias(View(), p, order[k..], segment) == ByAlias(View(), p, order, segment)
      {
        assert Joined(nodes[n], at, p) && order[k] in nodes[n].children;
        assert order[k..][1..] == order[k + 1..];
        var m := nodes[n].children[order[k]];
        if segment in nodes[m].info.aliases { return Some(m); }
      }
      return None;
    }

    method Suggestions(n: nat, ghost p: Path) returns (candidates: seq<string>)
      requires Valid() && p in at && n == at[p]
      ensures candidates == Candidates(View(), p)
    {
      ChildrenShown(n, p);
      var aliases := AliasesOfChildren(nodes, n, View(), p);
      candidates := nodes[n].info.order + aliases;
    }

    lemma ChildrenShown(n: nat, p: Path)
      requires Valid() && p in at && n == at[p]
      ensures Shows(nodes, n, View(), p)
    {
      forall s | s in nodes[n].info.order
        ensures s in nodes[n].children && p + [s] in at && nodes[n].children[s] == at[p + [s]]
      {
        assert Joined(nodes[n], at, p) && s in nodes[n].children;
      }
    }

    /** One step of the walk: the child that a segment selects. */
    method ChildFor(n: nat, segment: string, ghost p: Path) returns (child: Option<nat>)
      requires Valid() && p in at && n == at[p]
      ensures var s := Match(View(), p, segment);
        if s.None? then child.None? else p + [s.value] in at && child == Some(at[p + [s.value]])
    {
      assert Joined(nodes[n], at, p);
      if segment in nodes[n].children { return Some(nodes[n].children[segment]); }
      child := AliasChild(n, segment, p);
    }

    method RouteCommand(args: seq<string>) returns (r: Result<Routed, Unknown>)
      requires Valid()
      ensures r == Route(View(), [], args)
    {
      var path: Path := [];
      var n, i := 0, 0;
      assert args[0..] == args;
      while i < |args| && !StartsWith(args[i], "-")
        invariant 0 <= i <= |args| && path in at && n == at[path]
        invariant Route(View(), path, args[i..]) == Route(View(), [], args)
      {
        var child := ChildFor(n, args[i], path);
        if child.None? {
          if nodes[n].info.order != [] {
            var candidates := Suggestions(n, path);
            return Err(Unknown(args[i], candidates));
          }
          return Ok(Routed(path, args[i..]));
        }
        assert args[i..][1..] == args[i + 1..];
        path := path + [nodes[child.value].name];
        n := child.value;
        i := i + 1;
      }
      return Ok(Routed(path, args[i..]));
    }
  }

  /** The loop of `splitArgsForRouting`. */
  method SplitForRouting(globals: Globals, args: seq<string>) returns (segments: seq<string>, passthrough: seq<string>)
    ensures Split(segments, passthrough) == SplitArgs(globals, args)
  {
    segments, passthrough := [], [];
    var i := 0;
    NothingSplit(globals, args);
    while i < |args|
      invariant 0 <= i <= |args|
      invariant Plus(Split(segments, passthrough), SplitArgs(globals, args[i..])) == SplitArgs(globals, args)
    {
      SplitStep(globals, args, i, Split(segments, passthrough));
      if !StartsWith(args[i], "-") {
        segments := segments + [args[i]];
      } else if FlagName(args[i]) in globals {
        passthrough := passthrough + [args[i]];
        if TakesNext(globals, args[i]) && i + 1 < |args| {
          passthrough := passthrough + [args[i + 1]];
          i := i + 1;
        }
      } else {
        return segments, passthrough + args[i..];
      }
      i := i + 1;
    }
    PlusIsAssociative(Split(segments, passthrough), Split([], []), Split([], []));
  }

  lemma NothingSplit(globals: Globals, args: seq<string>)
    ensures Plus(Split([], []), SplitArgs(globals, args[0..])) == SplitArgs(globals, args)
  {
    assert args[0..] == args;
    PlusIsAssociative(SplitArgs(globals, args), Split([], []), Split([], []));
  }

  /** What the splitter does with the token at `i`. */
  lemma SplitStep(globals: Globals, args: seq<string>, i: nat, done: Split)
    requires i < |args|
    ensures var all := Plus(done, SplitArgs(globals, args[i..]));
      if !StartsWith(args[i], "-") then
        all == Plus(done.(segments := done.segments + [args[i]]), SplitArgs(globals, args[i + 1..]))
      else if FlagName(args[i]) !in globals then
        all == done.(passthrough := done.passthrough + args[i..])
      else if TakesNext(globals, args[i]) && i + 1 < |args| then
        all == Plus(done.(passthrough := done.passthrough + [args[i]] + [args[i + 1]]), SplitArgs(globals, args[i + 2..]))
      else
        all == Plus(done.(passthrough := done.passthrough + [args[i]]), SplitArgs(globals, args[i + 1..]))
  {
    var a := args[i..];
    var n := Width(globals, a);
    assert a[0] == args[i] && a[n..] == args[i + n..];
    PlusIsAssociative(done, Dealt(globals, a), SplitArgs(globals, args[i + n..]));
    assert Plus(done, SplitArgs(globals, a)) == Plus(Plus(done, Dealt(globals, a)), SplitArgs(globals, args[i + n..]));
    TakenTokens(args, i, n);
    assert done.segments + [] == done.segments && done.passthrough + [] == done.passthrough;
    if n == 2 {
      assert done.passthrough + [args[i], args[i + 1]] == done.passthrough + [args[i]] + [args[i + 1]];
    }
    if n == |a| {
      assert args[i + n..] == [];
      PlusIsAssociative(Plus(done, Dealt(globals, a)), Split([], []), Split([], []));
    }
  }

  lemma TakenTokens(args: seq<string>, i: nat, n: nat)
    requires i + n <= |args|
    ensures n == 1 ==> args[i..][..n] == [args[i]]
    ensures n == 2 ==> args[i..][..n] == [args[i], args[i + 1]]
    ensures i + n == |args| ==> args[i..][..n] == args[i..]
  {
  }
}
