/** Two more searches: the chunks a child entrypoint loads (apps/desktop/scripts/validate-native-runtime.ts)
    and the packages copied with their dependencies (packages/cli/scripts/build-dist.ts). */
module Closures {
  import opened Basics
  import opened Reach

  // --------------------------------------------------------- chunks that load electron

  /** A file of the bundle: whether it requires electron at top level, and the files it requires. */
  datatype Chunk = Chunk(offends: bool, requires_: seq<string>)

  type Bundle = map<string, Chunk>

  function Loads(b: Bundle): set<(string, string)> {
    set p, i | p in b && 0 <= i < |b[p].requires_| && b[p].requires_[i] in b :: (p, b[p].requires_[i])
  }

  /** A chunk the entry loads, directly or not. */
  ghost predicate Loaded(b: Bundle, entry: string, p: string) {
    entry in b && p in b && Reaches(Loads(b), entry, p)
  }

  /** Everything visited is loaded, everything queued is loaded or missing, and what the visited load is visited or queued. */
  ghost predicate Searching(b: Bundle, entry: string, visited: set<string>, queue: seq<string>) {
    && (entry in visited || entry in queue)
    && (forall p | p in visited :: Loaded(b, entry, p))
    && (forall p | p in queue && p in b :: Loaded(b, entry, p))
    && (forall m, n | m in visited && (m, n) in Loads(b) :: n in visited || n in queue)
  }

  lemma Skipped(b: Bundle, entry: string, visited: set<string>, queue: seq<string>)
    requires queue != [] && Searching(b, entry, visited, queue)
    requires queue[|queue| - 1] in visited || queue[|queue| - 1] !in b
    ensures entry in b ==> Searching(b, entry, visited, queue[..|queue| - 1])
    ensures entry !in b ==> visited == {}
  {
    var rest := queue[..|queue| - 1];
    assert forall p :: p in queue <==> p in rest || p == queue[|queue| - 1];
  }

  lemma Visited(b: Bundle, entry: string, visited: set<string>, queue: seq<string>)
    requires queue != [] && Searching(b, entry, visited, queue) && queue[|queue| - 1] in b
    ensures var current := queue[|queue| - 1];
      Searching(b, entry, visited + {current}, queue[..|queue| - 1] + b[current].requires_)
  {
    var current, rest := queue[|queue| - 1], queue[..|queue| - 1];
    var children := b[current].requires_;
    assert forall p :: p in queue <==> p in rest || p == current;
    forall p | p in children && p in b ensures Loaded(b, entry, p) {
      var i :| 0 <= i < |children| && children[i] == p;
      assert (current, p) in Loads(b);
      OneFurther(Loads(b), entry, current, p);
    }
    forall m, n | m in visited + {current} && (m, n) in Loads(b) ensures n in visited + {current} || n in rest + children {
      if m == current { assert n in children; }
    }
  }

  lemma SearchIsComplete(b: Bundle, entry: string, visited: set<string>)
    requires entry in b && Searching(b, entry, visited, [])
    ensures forall p :: p in visited <==> Loaded(b, entry, p)
  {
    ClosedIsReachable(Loads(b), entry, visited);
  }

  ghost predicate Reported(b: Bundle, visited: set<string>, offenders: seq<string>) {
    && (forall p :: p in offenders <==> p in visited && p in b && b[p].offends)
    && (forall i, j | 0 <= i < j < |offenders| :: offenders[i] != offenders[j])
  }

  /** The search reports exactly the chunks that offend and are loaded from the entry, each once. */
  method FindOffenders(b: Bundle, entry: string) returns (offenders: seq<string>)
    ensures forall p :: p in offenders <==> Loaded(b, entry, p) && b[p].offends
    ensures forall i, j | 0 <= i < j < |offenders| :: offenders[i] != offenders[j]
  {
    offenders := [];
    if entry !in b { return; }
    var visited: set<string> := {};
    var queue := [entry];
    RootReaches(Loads(b), entry);
    while queue != []
      invariant Searching(b, entry, visited, queue) && Reported(b, visited, offenders)
      decreases |b.Keys - visited|, |queue|
    {
      var current := queue[|queue| - 1];
      if current in visited || current !in b {
        Skipped(b, entry, visited, queue);
        queue := queue[..|queue| - 1];
      } else {
        Visited(b, entry, visited, queue);
        assert b.Keys - (visited + {current}) == (b.Keys - visited) - {current};
        visited := visited + {current};
        if b[current].offends { offenders := offenders + [current]; }
        queue := queue[..|queue| - 1] + b[current].requires_;
      }
    }
    SearchIsComplete(b, entry, visited);
  }

  // --------------------------------------------------------------------- packages

  /** An installed package: what it depends on, and the peers it needs beside it (optional ones left out). */
  datatype Package = Package(deps: seq<string>, peers: seq<string>)

  /** `findPackagePath`, by name and the directory searched from; a source path is its package. */
  datatype Store = Store(find: map<(string, string), string>, at: map<string, Package>)

  /** What a copied package needs is copied too; a peer may instead not be installed. */
  predicate Served(s: Store, copied: map<string, string>, name: string)
    requires name in copied
  {
    copied[name] in s.at ==>
      && (forall d | d in s.at[copied[name]].deps :: d in copied)
      && (forall d | d in s.at[copied[name]].peers :: d in copied || (d, copied[name]) !in s.find)
  }

  predicate NeededBy(s: Store, source: string, name: string, from: string) {
    && source in s.at && (name in s.at[source].deps || name in s.at[source].peers)
    && (name, source) in s.find && s.find[(name, source)] == from
  }

  /** Who needs whom among the copied packages, each found from where its needer was copied. */
  function Needs(s: Store, copied: map<string, string>): set<(string, string)> {
    set m, n | m in copied && n in copied && NeededBy(s, copied[m], n, copied[n]) :: (m, n)
  }

  function Names(s: Store): set<string> {
    set k | k in s.find :: k.0
  }

  ghost predicate Grown(s: Store, before: map<string, string>, after: map<string, string>) {
    && (forall n | n in before :: n in after && after[n] == before[n])
    && (forall n | n in after && n !in before :: n in Names(s))
  }

  /** Everything copied since `first` is reached from `name` by needs. */
  ghost predicate AllReached(s: Store, first: map<string, string>, copied: map<string, string>, name: string) {
    forall n | n in copied && n !in first :: Reaches(Needs(s, copied), name, n)
  }

  /** A copied package, since `first`, depends on one that is not installed where it was copied from. */
  ghost predicate Broken(s: Store, first: map<string, string>, copied: map<string, string>) {
    exists n, d :: n in copied && n !in first && LacksDep(s, copied[n], d)
  }

  predicate LacksDep(s: Store, source: string, d: string) {
    source in s.at && d in s.at[source].deps && (d, source) !in s.find
  }

  lemma StillBroken(s: Store, first: map<string, string>, before: map<string, string>, after: map<string, string>)
    requires Grown(s, first, before) && Grown(s, before, after) && Broken(s, before, after)
    ensures Broken(s, first, after)
  {
    var n, d :| n in after && n !in before && LacksDep(s, after[n], d);
    assert n !in first;
  }

  lemma StillReached(s: Store, first: map<string, string>, before: map<string, string>, after: map<string, string>, name: string)
    requires Grown(s, before, after) && AllReached(s, first, before, name)
    ensures forall n | n in before && n !in first :: Reaches(Needs(s, after), name, n)
  {
    assert Needs(s, before) <= Needs(s, after);
    forall n | n in before && n !in first ensures Reaches(Needs(s, after), name, n) {
      ReachGrows(Needs(s, before), Needs(s, after), name, n);
    }
  }

  lemma BothReached(s: Store, first: map<string, string>, before: map<string, string>, after: map<string, string>, name: string)
    requires Grown(s, before, after) && AllReached(s, first, before, name) && AllReached(s, before, after, name)
    ensures AllReached(s, first, after, name)
  {
    StillReached(s, first, before, after, name);
  }

  lemma ReachedThrough(s: Store, before: map<string, string>, after: map<string, string>, needer: string, name: string)
    requires needer in after && name in after && NeededBy(s, after[needer], name, after[name])
    requires AllReached(s, before, after, name)
    ensures AllReached(s, before, after, needer)
  {
    RootReaches(Needs(s, after), needer);
    OneFurther(Needs(s, after), needer, needer, name);
    forall n | n in after && n !in before ensures Reaches(Needs(s, after), needer, n) {
      ReachIsTransitive(Needs(s, after), needer, name, n);
    }
  }

  class PackageCopy {
    const store: Store
    /** `copied`, with the source each package was copied from. */
    var copied: map<string, string>

    constructor (store: Store)
      ensures this.store == store && copied == map[]
    {
      this.store, copied := store, map[];
    }

    /** Copy a package and all it needs; false is the thrown error of a missing package. */
    method Copy(name: string, start: string, optional: bool) returns (ok: bool)
      modifies this`copied
      ensures Grown(store, old(copied), copied)
      ensures ok ==> name in copied || (optional && (name, start) !in store.find)
      ensures ok ==> forall n | n in copied && n !in old(copied) :: Served(store, copied, n)
      ensures AllReached(store, old(copied), copied, name)
      ensures name in old(copied) || (name, start) !in store.find ==>
        copied == old(copied) && ok == (name in old(copied) || optional)
      ensures name !in old(copied) && (name, start) in store.find ==> name in copied && copied[name] == store.find[(name, start)]
      ensures !ok ==> (name !in old(copied) && (name, start) !in store.find && !optional) || Broken(store, old(copied), copied)
      decreases Names(store) - copied.Keys, 1
    {
      if name in copied { return true; }
      if (name, start) !in store.find { return optional; }
      var source := store.find[(name, start)];
      assert name in Names(store) - copied.Keys;
      copied := copied[name := source];
      RootReaches(Needs(store, copied), name);
      if source !in store.at { return true; }
      ghost var first := copied;
      ok := CopyAll(name, store.at[source].deps, source, false);
      BothReached(store, old(copied), first, copied, name);
      if !ok {
        if Broken(store, first, copied) {
          StillBroken(store, old(copied), first, copied);
        } else {
          var d :| LacksDep(store, source, d);
          assert name in copied && copied[name] == source;
        }
        return;
      }
      ghost var second := copied;
      ok := CopyAll(name, store.at[source].peers, source, true);
      BothReached(store, old(copied), second, copied, name);
      if !ok { StillBroken(store, old(copied), second, copied); }
    }

    /** The needs of a package already copied, one after the other. */
    method CopyAll(needer: string, names: seq<string>, start: string, optional: bool) returns (ok: bool)
      requires needer in copied && copied[needer] == start && start in store.at
      requires names == (if optional then store.at[start].peers else store.at[start].deps)
      modifies this`copied
      ensures Grown(store, old(copied), copied)
      ensures ok ==> forall n | n in names :: n in copied || (optional && (n, start) !in store.find)
      ensures ok ==> forall n | n in copied && n !in old(copied) :: Served(store, copied, n)
      ensures AllReached(store, old(copied), copied, needer)
      ensures !ok ==> (!optional && exists d :: LacksDep(store, start, d)) || Broken(store, old(copied), copied)
      decreases Names(store) - copied.Keys, 2
    {
      for i := 0 to |names|
        invariant Grown(store, old(copied), copied)
        invariant forall k | 0 <= k < i :: names[k] in copied || (optional && (names[k], start) !in store.find)
        invariant forall n | n in copied && n !in old(copied) :: Served(store, copied, n)
        invariant AllReached(store, old(copied), copied, needer)
      {
        ghost var before := copied;
        ok := Copy(names[i], start, optional);
        if copied != before {
          ReachedThrough(store, before, copied, needer, names[i]);
          BothReached(store, old(copied), before, copied, needer);
        }
        if !ok {
          if Broken(store, before, copied) {
            StillBroken(store, old(copied), before, copied);
          } else {
            assert LacksDep(store, start, names[i]);
          }
          return;
        }
      }
      return true;
    }
  }
}
