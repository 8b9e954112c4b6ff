/** Process trees and whom to signal (packages/pty-daemon/src/process-tree.ts). */
module ProcessTree {
  import opened Basics
  import opened Reach

  datatype Row = Row(pid: int, ppid: int, pgid: int)

  function Children(table: seq<Row>, p: int): seq<Row> {
    if table == [] then []
    else Children(table[..|table| - 1], p) + (if table[|table| - 1].ppid == p then [table[|table| - 1]] else [])
  }

  function Edges(table: seq<Row>): set<(int, int)> {
    set r | r in table :: (r.ppid, r.pid)
  }

  function At(m: map<int, seq<Row>>, p: int): seq<Row> {
    if p in m then m[p] else []
  }

  method GroupByParent(table: seq<Row>) returns (m: map<int, seq<Row>>)
    ensures forall p :: At(m, p) == Children(table, p)
  {
    m := map[];
    for i := 0 to |table|
      invariant forall p :: At(m, p) == Children(table[..i], p)
    {
      var row := table[i];
      assert table[..i + 1][..i] == table[..i];
      ghost var before := m;
      m := m[row.ppid := At(m, row.ppid) + [row]];
      forall p ensures At(m, p) == Children(table[..i + 1], p) {
        assert At(before, p) + [] == At(before, p);
      }
    }
    assert table[..|table|] == table;
  }

  lemma {:induction false} ChildrenAreEdges(table: seq<Row>, p: int, c: int)
    ensures (p, c) in Edges(table) <==> exists k | 0 <= k < |Children(table, p)| :: Children(table, p)[k].pid == c
  {
    if table != [] {
      var n := |table| - 1;
      ChildrenAreEdges(table[..n], p, c);
      var fewer, all := Children(table[..n], p), Children(table, p);
      assert forall r :: r in table <==> r in table[..n] || r == table[n];
      assert (p, c) in Edges(table) <==> (p, c) in Edges(table[..n]) || (table[n].ppid == p && table[n].pid == c);
      assert forall k | 0 <= k < |fewer| :: all[k] == fewer[k];
      if table[n].ppid == p { assert all[|fewer|] == table[n]; }
    }
  }

  predicate Distinct(s: seq<int>) {
    forall a, b | 0 <= a < b < |s| :: s[a] != s[b]
  }

  /** Every process but the root stands after a parent of its. */
  ghost predicate ParentsFirst(table: seq<Row>, order: seq<int>) {
    forall b | 0 < b < |order| :: exists a | 0 <= a < b :: (order[a], order[b]) in Edges(table)
  }

  ghost predicate Sound(table: seq<Row>, root: int, queue: seq<int>) {
    && queue != [] && queue[0] == root
    && Distinct(queue) && ParentsFirst(table, queue)
    && forall k | 0 <= k < |queue| :: Reaches(Edges(table), root, queue[k])
  }

  lemma Grows(table: seq<Row>, root: int, queue: seq<int>, i: nat, c: int)
    requires Sound(table, root, queue) && i < |queue| && (queue[i], c) in Edges(table) && c !in queue
    ensures Sound(table, root, queue + [c])
  {
    OneFurther(Edges(table), root, queue[i], c);
    var more := queue + [c];
    forall b | 0 < b < |more| ensures exists a | 0 <= a < b :: (more[a], more[b]) in Edges(table) {
      if b < |queue| {
        var a :| 0 <= a < b && (queue[a], queue[b]) in Edges(table);
        assert more[a] == queue[a];
      } else {
        assert more[i] == queue[i];
      }
    }
  }

  /** One row of the search: the children of the process at `i` join the queue when new. */
  method Visit(table: seq<Row>, rows: seq<Row>, root: int, before: seq<int>, i: nat) returns (queue: seq<int>)
    requires Sound(table, root, before) && i < |before| && rows == Children(table, before[i])
    ensures Sound(table, root, queue) && before <= queue
    ensures forall k | 0 <= k < |rows| :: rows[k].pid in queue
    ensures forall n | n in queue :: n in before || exists r | r in table :: r.pid == n
  {
    queue := before;
    for k := 0 to |rows|
      invariant Sound(table, root, queue) && before <= queue
      invariant forall j | 0 <= j < k :: rows[j].pid in queue
      invariant forall n | n in queue :: n in before || exists r | r in table :: r.pid == n
    {
      var c := rows[k].pid;
      ChildrenAreEdges(table, before[i], c);
      if c !in queue {
        assert queue[i] == before[i];
        Grows(table, root, queue, i, c);
        queue := queue + [c];
      }
    }
  }

  function Universe(table: seq<Row>, root: int): set<int> {
    {root} + set r | r in table :: r.pid
  }

  lemma {:induction false} DistinctFits(s: seq<int>, universe: set<int>)
    requires Distinct(s) && forall k | 0 <= k < |s| :: s[k] in universe
    ensures |s| <= |universe|
  {
    if s != [] {
      var n := |s| - 1;
      forall k | 0 <= k < n ensures s[..n][k] in universe - {s[n]} { assert s[..n][k] == s[k] && s[k] != s[n]; }
      DistinctFits(s[..n], universe - {s[n]});
    }
  }

  /** The children of the first `i` processes have all been found. */
  ghost predicate Explored(table: seq<Row>, queue: seq<int>, i: nat)
    requires i <= |queue|
  {
    forall k, c | 0 <= k < i && (queue[k], c) in Edges(table) :: c in queue
  }

  lemma OneMoreExplored(table: seq<Row>, before: seq<int>, queue: seq<int>, i: nat)
    requires i < |before| && before <= queue && Explored(table, before, i)
    requires forall k | 0 <= k < |Children(table, before[i])| :: Children(table, before[i])[k].pid in queue
    ensures Explored(table, queue, i + 1)
  {
    forall k, c | 0 <= k < i + 1 && (queue[k], c) in Edges(table) ensures c in queue {
      assert queue[k] == before[k];
      if k == i {
        ChildrenAreEdges(table, before[i], c);
      } else {
        assert c in before && forall j | 0 <= j < |before| :: queue[j] == before[j];
      }
    }
  }

  lemma AllExplored(table: seq<Row>, root: int, queue: seq<int>)
    requires Sound(table, root, queue) && Explored(table, queue, |queue|)
    ensures forall n :: n in queue <==> Reaches(Edges(table), root, n)
  {
    var v := set n | n in queue;
    assert root in v;
    forall m, n | m in v && (m, n) in Edges(table) ensures n in v {
      var k :| 0 <= k < |queue| && queue[k] == m;
    }
    ClosedIsReachable(Edges(table), root, v);
  }

  /** The tree of a process is exactly the processes reachable from it by parent links, each once,
      parents before children, whatever cycles and repeated rows the table holds. */
  method CollectProcessTree(root: int, table: seq<Row>) returns (pids: seq<int>)
    ensures forall n :: n in pids <==> Reaches(Edges(table), root, n)
    ensures pids != [] && pids[0] == root && Distinct(pids) && ParentsFirst(table, pids)
  {
    var children := GroupByParent(table);
    RootReaches(Edges(table), root);
    pids := [root];
    var i := 0;
    while i < |pids|
      invariant 0 <= i <= |pids| && Sound(table, root, pids) && Explored(table, pids, i)
      invariant forall n | n in pids :: n in Universe(table, root)
      decreases |Universe(table, root)| - i
    {
      ghost var before := pids;
      DistinctFits(pids, Universe(table, root));
      pids := Visit(table, At(children, pids[i]), root, pids, i);
      OneMoreExplored(table, before, pids, i);
      i := i + 1;
    }
    AllExplored(table, root, pids);
  }

  // ------------------------------------------------------------------ signal targets

  datatype Target = Group(id: int) | Process(id: int)

  datatype Options = Options(includeRoot: bool, signalGroups: bool, signalPids: bool, excludeOwnGroup: bool)

  /** `getProcessGroupId`: the group of the first row of a process. */
  function FirstGroup(table: seq<Row>, pid: int): (r: Option<int>)
    ensures r.None? <==> forall i | 0 <= i < |table| :: table[i].pid != pid
    ensures r.Some? ==> exists i | 0 <= i < |table| ::
      table[i].pid == pid && table[i].pgid == r.value && forall j | 0 <= j < i :: table[j].pid != pid
  {
    if table == [] then None
    else if table[0].pid == pid then Some(table[0].pgid)
    else
      var r := FirstGroup(table[1..], pid);
      assert forall i | 0 < i < |table| :: table[i] == table[1..][i - 1];
      assert r.Some? ==> exists i | 0 < i < |table| ::
        table[i].pid == pid && table[i].pgid == r.value && forall j | 0 <= j < i :: table[j].pid != pid by {
        if r.Some? {
          var k :| 0 <= k < |table[1..]| && table[1..][k].pid == pid && table[1..][k].pgid == r.value
            && forall j | 0 <= j < k :: table[1..][j].pid != pid;
          assert table[k + 1] == table[1..][k];
          assert forall j | 0 < j < k + 1 :: table[j] == table[1..][j - 1];
        }
      }
      r
  }

  /** The row a map built from the table keeps for a process: the last. */
  function LastRow(table: seq<Row>, pid: int): (r: Option<Row>)
    ensures r.None? <==> forall i | 0 <= i < |table| :: table[i].pid != pid
    ensures r.Some? ==> exists i | 0 <= i < |table| ::
      table[i] == r.value && table[i].pid == pid && forall j | i < j < |table| :: table[j].pid != pid
  {
    if table == [] then None
    else if table[|table| - 1].pid == pid then Some(table[|table| - 1])
    else LastRow(table[..|table| - 1], pid)
  }

  method InfoByPid(table: seq<Row>) returns (m: map<int, Row>)
    ensures forall pid :: (if pid in m then Some(m[pid]) else None) == LastRow(table, pid)
  {
    m := map[];
    for i := 0 to |table|
      invariant forall pid :: (if pid in m then Some(m[pid]) else None) == LastRow(table[..i], pid)
    {
      assert table[..i + 1][..i] == table[..i];
      m := m[table[i].pid := table[i]];
    }
    assert table[..|table|] == table;
  }

  /** The group through which a process of the tree is signalled. */
  function GroupFor(o: Options, table: seq<Row>, self: int, root: int, pid: int): Option<int> {
    var row := LastRow(table, pid);
    if !o.includeRoot && pid == root then None
    else if row.None? || row.value.pgid <= 1 then None
    else if o.excludeOwnGroup && FirstGroup(table, self) == Some(row.value.pgid) then None
    else if !o.includeRoot && FirstGroup(table, root) == Some(row.value.pgid) then None
    else Some(row.value.pgid)
  }

  method CollectGroups(o: Options, table: seq<Row>, self: int, root: int, pids: seq<int>) returns (pgids: seq<int>)
    ensures Distinct(pgids)
    ensures forall g :: g in pgids <==> exists pid | pid in pids :: GroupFor(o, table, self, root, pid) == Some(g)
  {
    var info := InfoByPid(table);
    var own := if o.excludeOwnGroup then FirstGroup(table, self) else None;
    var rootGroup := FirstGroup(table, root);
    pgids := [];
    for i := 0 to |pids|
      invariant Distinct(pgids)
      invariant forall g :: g in pgids <==> exists k | 0 <= k < i :: GroupFor(o, table, self, root, pids[k]) == Some(g)
    {
      var pid := pids[i];
      var skip := (!o.includeRoot && pid == root) || pid !in info || info[pid].pgid <= 1
        || own == Some(info[pid].pgid) || (!o.includeRoot && rootGroup == Some(info[pid].pgid));
      assert LastRow(table, pid) == if pid in info then Some(info[pid]) else None;
      if !skip && info[pid].pgid !in pgids { pgids := pgids + [info[pid].pgid]; }
    }
  }

  method CollectSignalTargets(o: Options, table: seq<Row>, self: int, root: int) returns (targets: seq<Target>)
    ensures root <= 0 ==> targets == []
    ensures root > 0 ==> forall t :: t in targets <==> Wanted(o, table, self, root, t)
    ensures forall a, b | 0 <= a < b < |targets| :: targets[a] != targets[b]
    ensures forall a, b | 0 <= a < b < |targets| && targets[b].Group? :: targets[a].Group?
    ensures forall t | t in targets && t.Group? :: t.id > 1 && (o.excludeOwnGroup ==> FirstGroup(table, self) != Some(t.id))
    ensures !o.includeRoot ==> Process(root) !in targets
  {
    targets := [];
    if root <= 0 { return; }
    var pids := CollectProcessTree(root, table);
    var pgids := CollectGroups(o, table, self, root, pids);
    var groups, wanted := [], [];
    if o.signalGroups { groups := AddGroups(pgids); }
    if o.signalPids { wanted := AddProcesses(o, root, pids); }
    targets := groups + wanted;
    forall t ensures t in targets <==> Wanted(o, table, self, root, t) {
      assert t in targets <==> t in groups || t in wanted;
      GroupTargetsAre(pgids, t);
      if t.Group? { SomeGroupIsWanted(o, table, self, root, pids, t.id); }
      ProcessTargetsAre(o, root, pids, t);
    }
    ProcessTargetsDistinct(o, root, pids);
    GroupsThenProcesses(groups, wanted);
    forall t | t in targets && t.Group? ensures t.id > 1 && (o.excludeOwnGroup ==> FirstGroup(table, self) != Some(t.id)) {
      assert Wanted(o, table, self, root, t);
    }
    assert !Wanted(o, table, self, root, Process(root)) || o.includeRoot;
  }

  /** Every process of the tree, and every group of one that may be signalled. */
  ghost predicate Wanted(o: Options, table: seq<Row>, self: int, root: int, t: Target) {
    match t
    case Process(pid) => o.signalPids && Reaches(Edges(table), root, pid) && (o.includeRoot || pid != root)
    case Group(g) =>
      && o.signalGroups && g > 1
      && (o.excludeOwnGroup ==> FirstGroup(table, self) != Some(g)) && (!o.includeRoot ==> FirstGroup(table, root) != Some(g))
      && exists pid :: Reaches(Edges(table), root, pid) && (o.includeRoot || pid != root) && InGroup(table, pid, g)
  }

  predicate InGroup(table: seq<Row>, pid: int, g: int) {
    LastRow(table, pid).Some? && LastRow(table, pid).value.pgid == g
  }

  lemma SomeGroupIsWanted(o: Options, table: seq<Row>, self: int, root: int, pids: seq<int>, g: int)
    requires forall n :: n in pids <==> Reaches(Edges(table), root, n)
    ensures o.signalGroups ==>
      (Wanted(o, table, self, root, Group(g)) <==> exists pid | pid in pids :: GroupFor(o, table, self, root, pid) == Some(g))
  {
    if pid :| pid in pids && GroupFor(o, table, self, root, pid) == Some(g) { assert InGroup(table, pid, g); }
    if o.signalGroups && Wanted(o, table, self, root, Group(g)) {
      var pid :| Reaches(Edges(table), root, pid) && (o.includeRoot || pid != root) && InGroup(table, pid, g);
      assert pid in pids && GroupFor(o, table, self, root, pid) == Some(g);
    }
  }

  function GroupTargets(pgids: seq<int>): (r: seq<Target>)
    ensures |r| == |pgids| && forall k | 0 <= k < |r| :: r[k] == Group(pgids[k])
  {
    seq(|pgids|, k requires 0 <= k < |pgids| => Group(pgids[k]))
  }

  function ProcessTargets(o: Options, root: int, pids: seq<int>): seq<Target> {
    if pids == [] then []
    else
      ProcessTargets(o, root, pids[..|pids| - 1]) +
      (if !o.includeRoot && pids[|pids| - 1] == root then [] else [Process(pids[|pids| - 1])])
  }

  method AddGroups(pgids: seq<int>) returns (targets: seq<Target>)
    ensures targets == GroupTargets(pgids)
  {
    targets := [];
    for i := 0 to |pgids|
      invariant |targets| == i && forall k | 0 <= k < i :: targets[k] == Group(pgids[k])
    { targets := targets + [Group(pgids[i])]; }
  }

  method AddProcesses(o: Options, root: int, pids: seq<int>) returns (targets: seq<Target>)
    ensures targets == ProcessTargets(o, root, pids)
  {
    targets := [];
    for i := 0 to |pids|
      invariant targets == ProcessTargets(o, root, pids[..i])
    {
      assert pids[..i + 1][..i] == pids[..i];
      if o.includeRoot || pids[i] != root { targets := targets + [Process(pids[i])]; }
    }
    assert pids[..|pids|] == pids;
  }

  lemma GroupTargetsAre(pgids: seq<int>, t: Target)
    ensures t in GroupTargets(pgids) <==> t.Group? && t.id in pgids
  {
    if t.Group? && t.id in pgids {
      var k :| 0 <= k < |pgids| && pgids[k] == t.id;
      assert GroupTargets(pgids)[k] == t;
    }
  }

  lemma {:induction false} ProcessTargetsAre(o: Options, root: int, pids: seq<int>, t: Target)
    ensures t in ProcessTargets(o, root, pids) <==> t.Process? && t.id in pids && (o.includeRoot || t.id != root)
  {
    if pids != [] {
      var n := |pids| - 1;
      ProcessTargetsAre(o, root, pids[..n], t);
      assert t.id in pids <==> t.id in pids[..n] || t.id == pids[n];
    }
  }

  lemma {:induction false} ProcessTargetsDistinct(o: Options, root: int, pids: seq<int>)
    requires Distinct(pids)
    ensures var r := ProcessTargets(o, root, pids);
      (forall k | 0 <= k < |r| :: r[k].Process?) && forall a, b | 0 <= a < b < |r| :: r[a] != r[b]
  {
    if pids != [] {
      var n := |pids| - 1;
      ProcessTargetsDistinct(o, root, pids[..n]);
      ProcessTargetsAre(o, root, pids[..n], Process(pids[n]));
    }
  }

  lemma GroupsThenProcesses(g: seq<Target>, w: seq<Target>)
    requires forall a, b | 0 <= a < b < |g| :: g[a] != g[b]
    requires forall a, b | 0 <= a < b < |w| :: w[a] != w[b]
    requires (forall k | 0 <= k < |g| :: g[k].Group?) && (forall k | 0 <= k < |w| :: w[k].Process?)
    ensures forall a, b | 0 <= a < b < |g + w| :: (g + w)[a] != (g + w)[b]
    ensures forall a, b | 0 <= a < b < |g + w| && (g + w)[b].Group? :: (g + w)[a].Group?
  {
  }
}
