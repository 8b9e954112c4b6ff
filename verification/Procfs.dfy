/** Who listens on a socket, and the limiter of the reads that find out (packages/port-scanner/src/procfs.ts). */
module Procfs {
  import opened Basics

  // --------------------------------------------------- one pid for each socket inode

  /** A readlink that found `pid` holding the socket `inode`. */
  datatype Seen = Seen(pid: nat, inode: nat)

  /** The caller's order of pids; a pid it does not name ranks after all. */
  type Ranks = map<nat, nat>

  predicate Before(ranks: Ranks, p: nat, q: nat) {
    p in ranks && (q in ranks ==> ranks[p] < ranks[q])
  }

  function Merge(ranks: Ranks, m: map<nat, nat>, s: Seen): map<nat, nat> {
    if s.inode !in m || Before(ranks, s.pid, m[s.inode]) then m[s.inode := s.pid] else m
  }

  function Merged(ranks: Ranks, order: seq<Seen>): map<nat, nat> {
    if order == [] then map[] else Merge(ranks, Merged(ranks, order[..|order| - 1]), order[|order| - 1])
  }

  /** The updates, in the order the readlinks complete. */
  method MergeAll(ranks: Ranks, order: seq<Seen>) returns (m: map<nat, nat>)
    ensures m == Merged(ranks, order)
  {
    m := map[];
    for i := 0 to |order|
      invariant m == Merged(ranks, order[..i])
    {
      var s := order[i];
      assert order[..i + 1][..i] == order[..i];
      if s.inode !in m || Before(ranks, s.pid, m[s.inode]) { m := m[s.inode := s.pid]; }
    }
    assert order[..|order|] == order;
  }

  /** `pid` is seen on `inode`, and no pid seen there ranks before it. */
  ghost predicate Least(ranks: Ranks, seen: set<Seen>, pid: nat, inode: nat) {
    Seen(pid, inode) in seen && forall q | Seen(q, inode) in seen :: !Before(ranks, q, pid)
  }

  function Elements(order: seq<Seen>): set<Seen> {
    set s | s in order
  }

  /** Every inode seen, and no other, goes to a least pid seen on it. */
  lemma {:induction false} MergedIsLeast(ranks: Ranks, order: seq<Seen>, inode: nat)
    ensures inode in Merged(ranks, order) <==> exists p :: Seen(p, inode) in order
    ensures inode in Merged(ranks, order) ==> Least(ranks, Elements(order), Merged(ranks, order)[inode], inode)
    ensures inode in Merged(ranks, order) ==> forall q | Seen(q, inode) in order && q in ranks ::
      Merged(ranks, order)[inode] in ranks && ranks[Merged(ranks, order)[inode]] <= ranks[q]
  {
    if order != [] {
      var n := |order| - 1;
      MergedIsLeast(ranks, order[..n], inode);
      assert forall s :: s in order <==> s in order[..n] || s == order[n];
      if order[n].inode == inode { assert Seen(order[n].pid, inode) in order; }
    }
  }

  /** No two least pids: ranks tell the pids of each socket apart. */
  ghost predicate NoTies(ranks: Ranks, seen: set<Seen>) {
    forall p, q, inode | Least(ranks, seen, p, inode) && Least(ranks, seen, q, inode) :: p == q
  }

  lemma {:induction false} FirstLeastStays(ranks: Ranks, order: seq<Seen>)
    requires order != [] && Least(ranks, Elements(order), order[0].pid, order[0].inode)
    ensures order[0].inode in Merged(ranks, order) && Merged(ranks, order)[order[0].inode] == order[0].pid
  {
    var n := |order| - 1;
    if n > 0 {
      assert order[..n][0] == order[0] && forall s | s in order[..n] :: s in order;
      FirstLeastStays(ranks, order[..n]);
      assert order[n] in Elements(order);
      assert order[n].inode == order[0].inode ==> Seen(order[n].pid, order[0].inode) == order[n];
    } else {
      assert order[..0] == [] && Merged(ranks, order[..0]) == map[];
    }
  }

  lemma SequenceOf(seen: set<Seen>) returns (order: seq<Seen>)
    ensures Elements(order) == seen
  {
    if seen == {} {
      order := [];
    } else {
      var s :| s in seen;
      var rest := SequenceOf(seen - {s});
      order := [s] + rest;
      forall x ensures x in order <==> x in seen { assert x in rest <==> x in Elements(rest); }
    }
  }

  /** The map does not depend on the order in which the readlinks complete exactly when no two pids tie. */
  lemma OrderIsIrrelevantWithoutTies(ranks: Ranks, seen: set<Seen>)
    ensures NoTies(ranks, seen) <==>
      forall a, b | Elements(a) == seen && Elements(b) == seen :: Merged(ranks, a) == Merged(ranks, b)
  {
    if NoTies(ranks, seen) {
      forall a, b | Elements(a) == seen && Elements(b) == seen ensures Merged(ranks, a) == Merged(ranks, b) {
        SameMap(ranks, seen, a, b);
      }
    } else {
      var p, q, inode :| Least(ranks, seen, p, inode) && Least(ranks, seen, q, inode) && p != q;
      var rest := SequenceOf(seen);
      var a, b := [Seen(p, inode)] + rest, [Seen(q, inode)] + rest;
      assert Elements(a) == seen && Elements(b) == seen by {
        forall s ensures s in Elements(a) <==> s in seen { assert s in rest <==> s in Elements(rest); }
        forall s ensures s in Elements(b) <==> s in seen { assert s in rest <==> s in Elements(rest); }
      }
      FirstLeastStays(ranks, a);
      FirstLeastStays(ranks, b);
    }
  }

  lemma SameMap(ranks: Ranks, seen: set<Seen>, a: seq<Seen>, b: seq<Seen>)
    requires NoTies(ranks, seen) && Elements(a) == seen && Elements(b) == seen
    ensures Merged(ranks, a) == Merged(ranks, b)
  {
    forall inode
      ensures inode in Merged(ranks, a) <==> inode in Merged(ranks, b)
      ensures inode in Merged(ranks, a) ==> Merged(ranks, a)[inode] == Merged(ranks, b)[inode]
    {
      MergedIsLeast(ranks, a, inode);
      MergedIsLeast(ranks, b, inode);
      assert forall s :: s in a <==> s in Elements(a);
      assert forall s :: s in b <==> s in Elements(b);
    }
  }

  /** The scan asks only for pids it ranks, each at its own place: there are no ties. */
  lemma RankedPidsDoNotTie(ranks: Ranks, seen: set<Seen>)
    requires forall s | s in seen :: s.pid in ranks
    requires forall p, q | p in ranks && q in ranks && ranks[p] == ranks[q] :: p == q
    ensures NoTies(ranks, seen)
  {
    forall p, q, inode | Least(ranks, seen, p, inode) && Least(ranks, seen, q, inode) ensures p == q {
      assert !Before(ranks, p, q) && !Before(ranks, q, p);
    }
  }
}
