/** Edit distance and suggestions (packages/cli-framework/src/errors.ts). */
module EditDistance {
  import opened Basics

  function Min(x: nat, y: nat): nat {
    if x <= y then x else y
  }

  // ------------------------------------------------------------- edit scripts

  /** One edit.  A script works left to right and never edits what it already wrote. */
  datatype Edit =
    | Keep(c: char)
    | Substitute(c: char, d: char)
    | Delete(c: char)
    | Insert(d: char)
    | Swap(c: char, d: char)

  function Reads(e: Edit): string {
    match e
    case Keep(c) => [c]
    case Substitute(c, _) => [c]
    case Delete(c) => [c]
    case Insert(_) => []
    case Swap(c, d) => [c, d]
  }

  function Writes(e: Edit): string {
    match e
    case Keep(c) => [c]
    case Substitute(_, d) => [d]
    case Delete(_) => []
    case Insert(d) => [d]
    case Swap(c, d) => [d, c]
  }

  datatype Script = Done | Then(before: Script, e: Edit)

  function Source(s: Script): string {
    match s
    case Done => ""
    case Then(r, e) => Source(r) + Reads(e)
  }

  function Target(s: Script): string {
    match s
    case Done => ""
    case Then(r, e) => Target(r) + Writes(e)
  }

  function Price(e: Edit): nat {
    if e.Keep? then 0 else 1
  }

  function Cost(s: Script): nat {
    match s
    case Done => 0
    case Then(r, e) => Cost(r) + Price(e)
  }

  predicate Turns(s: Script, a: string, b: string) {
    Source(s) == a && Target(s) == b
  }

  ghost predicate Reach(a: string, b: string, n: nat) {
    exists s :: Turns(s, a, b) && Cost(s) == n
  }

  /** `n` is the least cost of a script that turns `a` into `b`. */
  ghost predicate IsDistance(a: string, b: string, n: nat) {
    Reach(a, b, n) && forall s | Turns(s, a, b) :: n <= Cost(s)
  }

  /** A script extended by one edit. */
  lemma Extends(a: string, b: string, n: nat, e: Edit, c: string, d: string)
    requires Reach(a, b, n) && c == a + Reads(e) && d == b + Writes(e)
    ensures Reach(c, d, n + Price(e))
  {
    var s :| Turns(s, a, b) && Cost(s) == n;
    assert Turns(Then(s, e), c, d) && Cost(Then(s, e)) == n + Price(e);
  }

  /** The strings before the last edit. */
  lemma LastEdit(s: Script, a: string, b: string)
    requires Turns(s, a, b) && a != "" && b != ""
    ensures s.Then? && |Reads(s.e)| <= |a| && |Writes(s.e)| <= |b|
    ensures Turns(s.before, a[..|a| - |Reads(s.e)|], b[..|b| - |Writes(s.e)|])
    ensures s.e.Keep? ==> a[|a| - 1] == b[|b| - 1]
    ensures s.e.Swap? ==> Crossed(a, b)
  {
    assert Source(s.before) == a[..|a| - |Reads(s.e)|];
    assert Target(s.before) == b[..|b| - |Writes(s.e)|];
  }

  // ------------------------------------------- one cell of the dynamic program

  /** Row zero and column zero. */
  lemma EdgeIsDistance(a: string)
    ensures IsDistance(a, "", |a|) && IsDistance("", a, |a|)
  {
    OneSided(a);
    forall s | Turns(s, a, "") ensures |a| <= Cost(s) { CostCoversLengths(s); }
    forall s | Turns(s, "", a) ensures |a| <= Cost(s) { CostCoversLengths(s); }
  }

  lemma {:induction false} OneSided(a: string)
    ensures Reach(a, "", |a|) && Reach("", a, |a|)
  {
    if a == "" {
      assert Turns(Done, a, "") && Cost(Done) == |a|;
    } else {
      var n := |a| - 1;
      OneSided(a[..n]);
      Extends(a[..n], "", n, Delete(a[n]), a, "");
      Extends("", a[..n], n, Insert(a[n]), "", a);
    }
  }

  lemma {:induction false} CostCoversLengths(s: Script)
    ensures |Source(s)| - |Target(s)| <= Cost(s) && |Target(s)| - |Source(s)| <= Cost(s)
  {
    if s.Then? { CostCoversLengths(s.before); }
  }

  predicate Crossed(a: string, b: string) {
    |a| > 1 && |b| > 1 && a[|a| - 1] == b[|b| - 2] && a[|a| - 2] == b[|b| - 1]
  }

  /** The four values a cell may take, from its neighbours' values. */
  function CellValue(a: string, b: string, up: nat, left: nat, diag: nat, two: nat): nat
    requires a != "" && b != ""
  {
    var cost := if a[|a| - 1] == b[|b| - 1] then 0 else 1;
    var val := Min(Min(up + 1, left + 1), diag + cost);
    if Crossed(a, b) then Min(val, two + cost) else val
  }

  ghost predicate Neighbours(a: string, b: string, up: nat, left: nat, diag: nat, two: nat) {
    && a != "" && b != ""
    && IsDistance(a[..|a| - 1], b, up)
    && IsDistance(a, b[..|b| - 1], left)
    && IsDistance(a[..|a| - 1], b[..|b| - 1], diag)
    && (Crossed(a, b) ==> IsDistance(a[..|a| - 2], b[..|b| - 2], two))
  }

  lemma CellIsReached(a: string, b: string, up: nat, left: nat, diag: nat, two: nat)
    requires a != "" && b != ""
    requires Reach(a[..|a| - 1], b, up) && Reach(a, b[..|b| - 1], left) && Reach(a[..|a| - 1], b[..|b| - 1], diag)
    requires Crossed(a, b) ==> Reach(a[..|a| - 2], b[..|b| - 2], two)
    ensures Reach(a, b, CellValue(a, b, up, left, diag, two))
  {
    var v, x, y := CellValue(a, b, up, left, diag, two), a[|a| - 1], b[|b| - 1];
    var a', b' := a[..|a| - 1], b[..|b| - 1];
    if v == up + 1 {
      Extends(a', b, up, Delete(x), a, b);
    } else if v == left + 1 {
      Extends(a, b', left, Insert(y), a, b);
    } else if v == diag + if x == y then 0 else 1 {
      Extends(a', b', diag, if x == y then Keep(x) else Substitute(x, y), a, b);
    } else {
      CrossedIsReached(a, b, two);
    }
  }

  lemma CrossedIsReached(a: string, b: string, two: nat)
    requires Crossed(a, b) && Reach(a[..|a| - 2], b[..|b| - 2], two)
    ensures Reach(a, b, two + if a[|a| - 1] == b[|b| - 1] then 0 else 1)
  {
    var x, y := a[|a| - 2], a[|a| - 1];
    var a', b' := a[..|a| - 2], b[..|b| - 2];
    if x == y {
      Extends(a', b', two, Keep(x), a' + [x], b' + [x]);
      Extends(a' + [x], b' + [x], two, Keep(x), a, b);
    } else {
      Extends(a', b', two, Swap(x, y), a, b);
    }
  }

  lemma CellIsLeast(a: string, b: string, up: nat, left: nat, diag: nat, two: nat, s: Script)
    requires Neighbours(a, b, up, left, diag, two) && Turns(s, a, b)
    ensures CellValue(a, b, up, left, diag, two) <= Cost(s)
  {
    LastEdit(s, a, b);
    assert a[..|a|] == a && b[..|b|] == b;
    assert s.e.Delete? ==> up <= Cost(s.before);
    assert s.e.Insert? ==> left <= Cost(s.before);
    assert s.e.Keep? || s.e.Substitute? ==> diag <= Cost(s.before);
    assert s.e.Swap? ==> two <= Cost(s.before);
  }

  lemma CellIsDistance(a: string, b: string, up: nat, left: nat, diag: nat, two: nat)
    requires Neighbours(a, b, up, left, diag, two)
    ensures IsDistance(a, b, CellValue(a, b, up, left, diag, two))
  {
    CellIsReached(a, b, up, left, diag, two);
    forall s | Turns(s, a, b) ensures CellValue(a, b, up, left, diag, two) <= Cost(s) {
      CellIsLeast(a, b, up, left, diag, two, s);
    }
  }

  // ------------------------------------------------------- the matrix program

  /** Entry (i, j) holds the distance between the prefixes of those lengths. */
  ghost predicate Right(a: string, b: string, i: nat, j: nat, v: nat) {
    i <= |a| && j <= |b| && IsDistance(a[..i], b[..j], v)
  }

  lemma EdgeIsRight(a: string, b: string)
    ensures forall i: nat | i <= |a| :: Right(a, b, i, 0, i)
    ensures forall j: nat | j <= |b| :: Right(a, b, 0, j, j)
  {
    forall i: nat | i <= |a| ensures Right(a, b, i, 0, i) { EdgeIsDistance(a[..i]); }
    forall j: nat | j <= |b| ensures Right(a, b, 0, j, j) { EdgeIsDistance(b[..j]); }
  }

  /** The same cell value, read off at positions of the whole strings. */
  function CellAt(a: string, b: string, i: nat, j: nat, up: nat, left: nat, diag: nat, two: nat): nat
    requires 0 < i <= |a| && 0 < j <= |b|
  {
    var cost := if a[i - 1] == b[j - 1] then 0 else 1;
    var val := Min(Min(up + 1, left + 1), diag + cost);
    if i > 1 && j > 1 && a[i - 1] == b[j - 2] && a[i - 2] == b[j - 1] then Min(val, two + cost) else val
  }

  lemma CellIsRight(a: string, b: string, i: nat, j: nat, up: nat, left: nat, diag: nat, two: nat)
    requires 0 < i <= |a| && 0 < j <= |b|
    requires Right(a, b, i - 1, j, up) && Right(a, b, i, j - 1, left) && Right(a, b, i - 1, j - 1, diag)
    requires i > 1 && j > 1 ==> Right(a, b, i - 2, j - 2, two)
    ensures Right(a, b, i, j, CellAt(a, b, i, j, up, left, diag, two))
  {
    assert a[..i][..i - 1] == a[..i - 1] && b[..j][..j - 1] == b[..j - 1];
    if i > 1 && j > 1 { assert a[..i][..i - 2] == a[..i - 2] && b[..j][..j - 2] == b[..j - 2]; }
    CellIsDistance(a[..i], b[..j], up, left, diag, two);
  }

  method FillEdges(a: string, b: string, d: array2<nat>)
    requires d.Length0 == |a| + 1 && d.Length1 == |b| + 1
    modifies d
    ensures forall i | 0 <= i <= |a| :: Right(a, b, i, 0, d[i, 0])
    ensures forall j | 0 <= j <= |b| :: Right(a, b, 0, j, d[0, j])
  {
    for i := 0 to |a| + 1
      invariant forall k | 0 <= k < i :: d[k, 0] == k
    {
      d[i, 0] := i;
    }
    for j := 0 to |b| + 1
      invariant forall k | 0 <= k <= |a| :: d[k, 0] == k
      invariant forall k | 0 <= k < j :: d[0, k] == k
    {
      d[0, j] := j;
    }
    EdgeIsRight(a, b);
  }

  method FillCell(a: string, b: string, d: array2<nat>, i: nat, j: nat)
    requires d.Length0 == |a| + 1 && d.Length1 == |b| + 1 && 0 < i <= |a| && 0 < j <= |b|
    requires Right(a, b, i - 1, j, d[i - 1, j]) && Right(a, b, i, j - 1, d[i, j - 1])
    requires Right(a, b, i - 1, j - 1, d[i - 1, j - 1])
    requires i > 1 && j > 1 ==> Right(a, b, i - 2, j - 2, d[i - 2, j - 2])
    modifies d
    ensures Right(a, b, i, j, d[i, j])
    ensures forall p, q | 0 <= p <= |a| && 0 <= q <= |b| && (p != i || q != j) :: d[p, q] == old(d[p, q])
  {
    var cost := if a[i - 1] == b[j - 1] then 0 else 1;
    var del := d[i - 1, j] + 1;
    var ins := d[i, j - 1] + 1;
    var sub := d[i - 1, j - 1] + cost;
    var val := Min(Min(del, ins), sub);
    ghost var two := if i > 1 && j > 1 then d[i - 2, j - 2] else 0;
    if i > 1 && j > 1 && a[i - 1] == b[j - 2] && a[i - 2] == b[j - 1] {
      val := Min(val, d[i - 2, j - 2] + cost);
    }
    CellIsRight(a, b, i, j, d[i - 1, j], d[i, j - 1], d[i - 1, j - 1], two);
    d[i, j] := val;
  }

  method DamerauLevenshtein(a: string, b: string) returns (r: nat)
    ensures IsDistance(a, b, r)
  {
    var lenA, lenB := |a|, |b|;
    var d := new nat[lenA + 1, lenB + 1]((i, j) => 0);
    FillEdges(a, b, d);
    for i := 1 to lenA + 1
      invariant forall k | 0 <= k <= lenA :: Right(a, b, k, 0, d[k, 0])
      invariant forall p, q | 0 <= p < i && 0 <= q <= lenB :: Right(a, b, p, q, d[p, q])
    {
      for j := 1 to lenB + 1
        invariant forall k | 0 <= k <= lenA :: Right(a, b, k, 0, d[k, 0])
        invariant forall p, q | 0 <= p < i && 0 <= q <= lenB :: Right(a, b, p, q, d[p, q])
        invariant forall q | 0 <= q < j :: Right(a, b, i, q, d[i, q])
      {
        FillCell(a, b, d, i, j);
      }
    }
    assert Right(a, b, lenA, lenB, d[lenA, lenB]);
    assert a[..lenA] == a && b[..lenB] == b;
    return d[lenA, lenB];
  }

  // ------------------------------------------------------------------ its laws

  function Undo(e: Edit): Edit {
    match e
    case Keep(c) => Keep(c)
    case Substitute(c, d) => Substitute(d, c)
    case Delete(c) => Insert(c)
    case Insert(d) => Delete(d)
    case Swap(c, d) => Swap(d, c)
  }

  function Reversed(s: Script): (r: Script)
    ensures Source(r) == Target(s) && Target(r) == Source(s) && Cost(r) == Cost(s)
  {
    match s
    case Done => Done
    case Then(r, e) => Then(Reversed(r), Undo(e))
  }

  lemma DistanceIsSymmetric(a: string, b: string, n: nat)
    requires IsDistance(a, b, n)
    ensures IsDistance(b, a, n)
  {
    var s :| Turns(s, a, b) && Cost(s) == n;
    assert Turns(Reversed(s), b, a) && Cost(Reversed(s)) == n;
    forall q | Turns(q, b, a) ensures n <= Cost(q) {
      assert Turns(Reversed(q), a, b);
    }
  }

  lemma {:induction false} FreeScriptsKeep(s: Script)
    requires Cost(s) == 0
    ensures Source(s) == Target(s)
  {
    if s.Then? { FreeScriptsKeep(s.before); }
  }

  /** Substituting position by position and padding costs at most the longer length, and nothing on equal strings. */
  lemma {:induction false} Diagonal(a: string, b: string) returns (s: Script)
    requires |a| == |b|
    ensures Turns(s, a, b) && Cost(s) <= |a| && (a == b ==> Cost(s) == 0)
  {
    if a == "" {
      s := Done;
    } else {
      var n := |a| - 1;
      var r := Diagonal(a[..n], b[..n]);
      var e := if a[n] == b[n] then Keep(a[n]) else Substitute(a[n], b[n]);
      s := Then(r, e);
    }
  }

  lemma {:induction false} Padded(a: string, b: string) returns (s: Script)
    ensures Turns(s, a, b) && Cost(s) <= (if |a| <= |b| then |b| else |a|)
    decreases |a| + |b|
  {
    if |a| == |b| {
      s := Diagonal(a, b);
    } else if |a| < |b| {
      var n := |b| - 1;
      var r := Padded(a, b[..n]);
      s := Then(r, Insert(b[n]));
    } else {
      var n := |a| - 1;
      var r := Padded(a[..n], b);
      s := Then(r, Delete(a[n]));
    }
  }

  /** Zero exactly on equal strings, and between the length difference and the longer length. */
  lemma DistanceBounds(a: string, b: string, n: nat)
    requires IsDistance(a, b, n)
    ensures n == 0 <==> a == b
    ensures |a| - |b| <= n && |b| - |a| <= n <= (if |a| <= |b| then |b| else |a|)
  {
    var s :| Turns(s, a, b) && Cost(s) == n;
    CostCoversLengths(s);
    var p := Padded(a, b);
    if n == 0 { FreeScriptsKeep(s); }
    if a == b { var q := Diagonal(a, b); }
  }

  // ---------------------------------------------------------------- suggestions

  ghost function Distance(a: string, b: string): (n: nat)
    ensures IsDistance(a, b, n)
  {
    DistanceExists(a, b);
    var n :| IsDistance(a, b, n);
    n
  }

  lemma DistanceExists(a: string, b: string)
    ensures exists n :: IsDistance(a, b, n)
  {
    var s := Padded(a, b);
    LeastBelow(a, b, Cost(s), s);
  }

  lemma {:induction false} LeastBelow(a: string, b: string, n: nat, s: Script)
    requires Turns(s, a, b) && Cost(s) == n
    ensures exists m :: IsDistance(a, b, m)
    decreases n
  {
    if forall r | Turns(r, a, b) :: n <= Cost(r) {
      assert IsDistance(a, b, n);
    } else {
      var r :| Turns(r, a, b) && Cost(r) < n;
      LeastBelow(a, b, Cost(r), r);
    }
  }

  /** `candidates[k]` is the first of the closest candidates, and close enough. */
  ghost predicate IsFirstClosest(input: string, candidates: seq<string>, threshold: int, k: nat) {
    && k < |candidates|
    && Distance(input, candidates[k]) <= threshold
    && (forall j | 0 <= j < |candidates| :: Distance(input, candidates[k]) <= Distance(input, candidates[j]))
    && (forall j | 0 <= j < k :: Distance(input, candidates[k]) < Distance(input, candidates[j]))
  }

  method SuggestSimilar(input: string, candidates: seq<string>, threshold: int := 3) returns (best: Option<string>)
    ensures best.Some? ==> exists k: nat :: IsFirstClosest(input, candidates, threshold, k) && candidates[k] == best.value
    ensures best.None? <==> forall j | 0 <= j < |candidates| :: Distance(input, candidates[j]) > threshold
  {
    best := None;
    var bestDistance := threshold + 1;
    ghost var at: nat := 0;
    for n := 0 to |candidates|
      invariant best.None? ==> bestDistance == threshold + 1
      invariant best.None? ==> forall j | 0 <= j < n :: Distance(input, candidates[j]) > threshold
      invariant best.Some? ==> at < n && candidates[at] == best.value && Distance(input, best.value) == bestDistance <= threshold
      invariant best.Some? ==> forall j | 0 <= j < n :: bestDistance <= Distance(input, candidates[j])
      invariant best.Some? ==> forall j | 0 <= j < at :: bestDistance < Distance(input, candidates[j])
    {
      var distance := DamerauLevenshtein(input, candidates[n]);
      assert distance == Distance(input, candidates[n]);
      if distance < bestDistance {
        bestDistance := distance;
        best := Some(candidates[n]);
        at := n;
      }
    }
    if best.Some? {
      assert IsFirstClosest(input, candidates, threshold, at);
    }
  }
}
