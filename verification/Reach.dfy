/** Reachability in a finite graph, the reference for every search over processes, chunks and packages. */
module Reach {

  ghost predicate Within<N(!new)>(edges: set<(N, N)>, root: N, n: N, k: nat) {
    if k == 0 then n == root else exists m :: Within(edges, root, m, k - 1) && (m, n) in edges
  }

  ghost predicate Reaches<N(!new)>(edges: set<(N, N)>, root: N, n: N) {
    exists k: nat :: Within(edges, root, n, k)
  }

  lemma RootReaches<N(!new)>(edges: set<(N, N)>, root: N)
    ensures Reaches(edges, root, root)
  {
    assert Within(edges, root, root, 0);
  }

  lemma OneFurther<N(!new)>(edges: set<(N, N)>, root: N, m: N, n: N)
    requires Reaches(edges, root, m) && (m, n) in edges
    ensures Reaches(edges, root, n)
  {
    var k: nat :| Within(edges, root, m, k);
    assert Within(edges, root, n, k + 1);
  }

  ghost predicate Closed<N(!new)>(edges: set<(N, N)>, v: set<N>) {
    forall m, n | m in v && (m, n) in edges :: n in v
  }

  lemma {:induction false} ClosedHoldsWithin<N(!new)>(edges: set<(N, N)>, root: N, v: set<N>, n: N, k: nat)
    requires root in v && Closed(edges, v) && Within(edges, root, n, k)
    ensures n in v
  {
    if k > 0 {
      var m :| Within(edges, root, m, k - 1) && (m, n) in edges;
      ClosedHoldsWithin(edges, root, v, m, k - 1);
    }
  }

  /** A closed set that holds the root, and only what is reachable, holds exactly what is reachable. */
  lemma ClosedIsReachable<N(!new)>(edges: set<(N, N)>, root: N, v: set<N>)
    requires root in v && Closed(edges, v)
    requires forall n | n in v :: Reaches(edges, root, n)
    ensures forall n :: n in v <==> Reaches(edges, root, n)
  {
    forall n | Reaches(edges, root, n) ensures n in v {
      var k: nat :| Within(edges, root, n, k);
      ClosedHoldsWithin(edges, root, v, n, k);
    }
  }

  lemma {:induction false} WithinGrows<N(!new)>(few: set<(N, N)>, more: set<(N, N)>, root: N, n: N, k: nat)
    requires few <= more && Within(few, root, n, k)
    ensures Within(more, root, n, k)
  {
    if k > 0 {
      var m :| Within(few, root, m, k - 1) && (m, n) in few;
      WithinGrows(few, more, root, m, k - 1);
    }
  }

  lemma ReachGrows<N(!new)>(few: set<(N, N)>, more: set<(N, N)>, root: N, n: N)
    requires few <= more && Reaches(few, root, n)
    ensures Reaches(more, root, n)
  {
    var k: nat :| Within(few, root, n, k);
    WithinGrows(few, more, root, n, k);
  }

  lemma {:induction false} FromFurtherBack<N(!new)>(edges: set<(N, N)>, root: N, m: N, n: N, k: nat)
    requires Reaches(edges, root, m) && Within(edges, m, n, k)
    ensures Reaches(edges, root, n)
  {
    if k > 0 {
      var p :| Within(edges, m, p, k - 1) && (p, n) in edges;
      FromFurtherBack(edges, root, m, p, k - 1);
      OneFurther(edges, root, p, n);
    }
  }

  lemma ReachIsTransitive<N(!new)>(edges: set<(N, N)>, root: N, m: N, n: N)
    requires Reaches(edges, root, m) && Reaches(edges, m, n)
    ensures Reaches(edges, root, n)
  {
    var k: nat :| Within(edges, m, n, k);
    FromFurtherBack(edges, root, m, n, k);
  }
}
