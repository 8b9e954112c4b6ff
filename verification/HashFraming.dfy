/** What the digest of a build output says about the files hashed (scripts/release/build-checkpoints.ts, hashFiles). */
module HashFraming {
  import opened Basics
  import opened JournalModel

  // -------------------------------------------------------------------- framing

  predicate NulFree(f: Frame) {
    NUL !in Join(f.path)
  }

  /** The label is what stands before the first NUL, the size what stands before the second. */
  lemma FrameParts(f: Frame, rest: string)
    requires NulFree(f)
    ensures var s := Header(f) + f.content + rest;
      var i := IndexOf(s, NUL);
      && i == |Join(f.path)| && s[..i] == Join(f.path)
      && var u := s[i + 1..]; var j := IndexOf(u, NUL);
      j == |Decimal(|f.content|)| && u[..j] == Decimal(|f.content|) && u[j + 1..] == f.content + rest
  {
    var name, size := Join(f.path), Decimal(|f.content|);
    var s := Header(f) + f.content + rest;
    var tail := size + ([NUL] + (f.content + rest));
    assert s == name + ([NUL] + tail);
    FirstNul(name, tail);
    forall i | 0 <= i < |size| ensures size[i] != NUL { assert IsDigit(size[i]); }
    FirstNul(size, f.content + rest);
  }

  lemma FirstNul(a: string, b: string)
    requires NUL !in a
    ensures var s := a + ([NUL] + b); IndexOf(s, NUL) == |a| && s[..|a|] == a && s[|a| + 1..] == b
  {
    var s := a + ([NUL] + b);
    assert s[|a|] == NUL;
    assert forall j | 0 <= j < |a| :: s[j] == a[j];
  }

  lemma SomethingIsFed(a: seq<Frame>)
    ensures a == [] <==> Stream(a) == ""
  {
    if a != [] { assert |Header(a[0])| > 0; }
  }

  lemma SameFirstFrame(a: Frame, x: string, b: Frame, y: string)
    requires NulFree(a) && SlashFree(a.path) && NulFree(b) && SlashFree(b.path)
    requires Header(a) + a.content + x == Header(b) + b.content + y
    ensures a == b && x == y
  {
    FrameParts(a, x);
    FrameParts(b, y);
    JoinIsInjective(a.path, b.path);
    DecimalIsInjective(|a.content|, |b.content|);
    SameHead(a.content, x, b.content, y);
  }

  /** Equal streams were fed by equal files in equal order, whatever the contents. */
  lemma {:induction false} StreamIsInjective(a: seq<Frame>, b: seq<Frame>)
    requires forall i | 0 <= i < |a| :: NulFree(a[i]) && SlashFree(a[i].path)
    requires forall i | 0 <= i < |b| :: NulFree(b[i]) && SlashFree(b[i].path)
    requires Stream(a) == Stream(b)
    ensures a == b
    decreases |a|
  {
    SomethingIsFed(a);
    SomethingIsFed(b);
    if a != [] && b != [] {
      SameFirstFrame(a[0], Stream(a[1..]), b[0], Stream(b[1..]));
      StreamIsInjective(a[1..], b[1..]);
      assert a == [a[0]] + a[1..] && b == [b[0]] + b[1..];
    }
  }

  lemma SameHead(a: string, x: string, b: string, y: string)
    requires |a| == |b| && a + x == b + y
    ensures a == b && x == y
  {
    assert a == (a + x)[..|a|] && b == (b + y)[..|b|];
    assert x == (a + x)[|a|..] && y == (b + y)[|b|..];
  }

  // ------------------------------------------------- what a stream says about a tree

  function Prune(n: Node): Node {
    match n
    case File(_) => n
    case Dir(entries) => Dir(PruneIn(entries))
  }

  /** The entries without those that hold no file. */
  function PruneIn(entries: Entries): Entries {
    match entries
    case Nil => Nil
    case Cons(name, node, rest) =>
      if Prune(node) == Dir(Nil) then PruneIn(rest) else Cons(name, Prune(node), PruneIn(rest))
  }

  predicate Lists(entries: Entries, name: string) {
    entries.Cons? && (entries.name == name || Lists(entries.rest, name))
  }

  /** A directory lists a name once. */
  predicate Distinct(n: Node) {
    n.Dir? ==> DistinctIn(n.entries)
  }

  predicate DistinctIn(entries: Entries) {
    entries.Cons? ==> !Lists(entries.rest, entries.name) && Distinct(entries.node) && DistinctIn(entries.rest)
  }

  predicate Pruned(n: Node) {
    n.Dir? ==> PrunedIn(n.entries)
  }

  predicate PrunedIn(entries: Entries) {
    entries.Cons? ==> entries.node != Dir(Nil) && Pruned(entries.node) && PrunedIn(entries.rest)
  }

  lemma {:induction false} PruneKeepsFrames(n: Node, path: seq<string>)
    ensures Frames(Prune(n), path) == Frames(n, path)
    ensures Pruned(Prune(n)) && (Distinct(n) ==> Distinct(Prune(n)))
    decreases n, 1
  {
    if n.Dir? { PruneInKeepsFrames(n.entries, path); }
  }

  lemma {:induction false} PruneInKeepsFrames(entries: Entries, path: seq<string>)
    ensures FramesIn(PruneIn(entries), path) == FramesIn(entries, path)
    ensures PrunedIn(PruneIn(entries)) && (DistinctIn(entries) ==> DistinctIn(PruneIn(entries)))
    ensures forall name :: Lists(PruneIn(entries), name) ==> Lists(entries, name)
    decreases entries, 0
  {
    if entries.Cons? {
      PruneKeepsFrames(entries.node, path + [entries.name]);
      PruneInKeepsFrames(entries.rest, path);
      assert [] + FramesIn(entries.rest, path) == FramesIn(entries.rest, path);
    }
  }

  lemma {:induction false} PathsExtend(n: Node, path: seq<string>)
    ensures forall i | 0 <= i < |Frames(n, path)| :: path <= Frames(n, path)[i].path
    ensures Pruned(n) && n != Dir(Nil) ==> Frames(n, path) != []
    decreases n, 1
  {
    if n.Dir? {
      PathsExtendIn(n.entries, path);
      if n.entries.Cons? && Pruned(n) { PathsExtend(n.entries.node, path + [n.entries.name]); }
    }
  }

  lemma {:induction false} PathsExtendIn(entries: Entries, path: seq<string>)
    ensures forall i | 0 <= i < |FramesIn(entries, path)| ::
      path < FramesIn(entries, path)[i].path && Lists(entries, FramesIn(entries, path)[i].path[|path|])
    ensures PrunedIn(entries) && entries != Nil ==> FramesIn(entries, path) != []
    decreases entries, 0
  {
    if entries.Cons? {
      PathsExtend(entries.node, path + [entries.name]);
      PathsExtendIn(entries.rest, path);
      forall i | 0 <= i < |FramesIn(entries, path)|
        ensures path < FramesIn(entries, path)[i].path && Lists(entries, FramesIn(entries, path)[i].path[|path|])
      {
        var a := Frames(entries.node, path + [entries.name]);
        if i < |a| {
          assert FramesIn(entries, path)[i] == a[i];
        } else {
          assert FramesIn(entries, path)[i] == FramesIn(entries.rest, path)[i - |a|];
        }
      }
    }
  }

  /** Pruned trees with the same frames are the same tree. */
  lemma {:induction false} SameFramesSameTree(m: Node, n: Node, path: seq<string>)
    requires Pruned(m) && Pruned(n) && Distinct(m) && Distinct(n)
    requires Frames(m, path) == Frames(n, path)
    ensures m == n
    decreases m, 1
  {
    if m.Dir? && n.Dir? {
      SameFramesSameEntries(m.entries, n.entries, path);
    } else if m.File? && n.Dir? {
      FileIsNoDirectory(m, n, path);
    } else if m.Dir? && n.File? {
      FileIsNoDirectory(n, m, path);
    } else {
      assert Frames(m, path)[0] == Frames(n, path)[0];
    }
  }

  lemma FileIsNoDirectory(f: Node, d: Node, path: seq<string>)
    requires f.File? && d.Dir?
    ensures Frames(f, path) != Frames(d, path)
  {
    PathsExtendIn(d.entries, path);
    assert |Frames(d, path)| == 1 ==> path < Frames(d, path)[0].path;
    assert Frames(f, path)[0].path == path;
  }

  lemma {:induction false} SameFramesSameEntries(a: Entries, b: Entries, path: seq<string>)
    requires PrunedIn(a) && PrunedIn(b) && DistinctIn(a) && DistinctIn(b)
    requires FramesIn(a, path) == FramesIn(b, path)
    ensures a == b
    decreases a, 0
  {
    PathsExtendIn(a, path);
    PathsExtendIn(b, path);
    if a.Cons? && b.Cons? {
      FirstEntry(a, path);
      FirstEntry(b, path);
      SameFirstEntry(a, b, path);
      SameFramesSameTree(a.node, b.node, path + [a.name]);
      SameFramesSameEntries(a.rest, b.rest, path);
    }
  }

  /** The frames of a first entry are those under its name. */
  lemma FirstEntry(a: Entries, path: seq<string>)
    requires a.Cons? && PrunedIn(a) && DistinctIn(a)
    ensures var x, all := Frames(a.node, path + [a.name]), FramesIn(a, path);
      && 0 < |x| <= |all| && all[..|x|] == x && all[|x|..] == FramesIn(a.rest, path)
      && (forall i | 0 <= i < |x| :: path < all[i].path && all[i].path[|path|] == a.name)
      && (forall i | |x| <= i < |all| :: path < all[i].path && all[i].path[|path|] != a.name)
  {
    var x, all := Frames(a.node, path + [a.name]), FramesIn(a, path);
    PathsExtend(a.node, path + [a.name]);
    PathsExtendIn(a.rest, path);
    forall i | 0 <= i < |x| ensures path < all[i].path && all[i].path[|path|] == a.name {
      assert all[i] == x[i] && path + [a.name] <= x[i].path;
      assert (path + [a.name])[|path|] == a.name;
    }
    forall i | |x| <= i < |all| ensures path < all[i].path && all[i].path[|path|] != a.name {
      assert all[i] == FramesIn(a.rest, path)[i - |x|];
    }
  }

  lemma SameFirstEntry(a: Entries, b: Entries, path: seq<string>)
    requires a.Cons? && PrunedIn(a) && DistinctIn(a) && b.Cons? && PrunedIn(b) && DistinctIn(b)
    requires FramesIn(a, path) == FramesIn(b, path)
    ensures a.name == b.name
    ensures Frames(a.node, path + [a.name]) == Frames(b.node, path + [b.name])
    ensures FramesIn(a.rest, path) == FramesIn(b.rest, path)
  {
    FirstEntry(a, path);
    FirstEntry(b, path);
    var all := FramesIn(a, path);
    var x, y := Frames(a.node, path + [a.name]), Frames(b.node, path + [b.name]);
    assert all[0].path[|path|] == a.name && all[0].path[|path|] == b.name;
    assert |x| < |all| ==> path < all[|x|].path;
    assert |y| < |all| ==> path < all[|y|].path;
  }

  /** Hashing tells two trees apart exactly when they differ after empty directories are left out. */
  lemma FramesTellTreesApart(m: Node, n: Node, path: seq<string>)
    requires Distinct(m) && Distinct(n)
    ensures Frames(m, path) == Frames(n, path) <==> Prune(m) == Prune(n)
  {
    PruneKeepsFrames(m, path);
    PruneKeepsFrames(n, path);
    if Frames(m, path) == Frames(n, path) { SameFramesSameTree(Prune(m), Prune(n), path); }
  }

  // ------------------------------------------------------------- what a digest says

  predicate DistinctFiles(fs: Files) {
    forall p | p in fs :: Distinct(fs[p])
  }

  predicate Present(fs: Files, outputs: seq<string>) {
    forall i | 0 <= i < |outputs| :: outputs[i] in fs
  }

  predicate Labelled(f: Frame, mark: string) {
    f.path != [] && f.path[0] == mark
  }

  /** The file stands in an output from `index` on. */
  ghost predicate FromOn(f: Frame, index: nat, count: nat) {
    exists i: nat :: index <= i < count && Labelled(f, Decimal(i))
  }

  lemma LabelledBy(n: Node, index: nat)
    ensures forall f | f in Frames(n, [Decimal(index)]) :: Labelled(f, Decimal(index))
  {
    PathsExtend(n, [Decimal(index)]);
    forall f | f in Frames(n, [Decimal(index)]) ensures Labelled(f, Decimal(index)) {
      assert [Decimal(index)] <= f.path;
    }
  }

  /** What is read of the outputs from `index` on is labelled by their positions. */
  lemma {:induction false} LabelledFrom(fs: Files, outputs: seq<string>, index: nat)
    requires index <= |outputs| && Present(fs, outputs)
    ensures ReadFrom(fs, outputs, index).Some?
    ensures forall f | f in ReadFrom(fs, outputs, index).value :: FromOn(f, index, |outputs|)
    decreases |outputs| - index
  {
    if index < |outputs| {
      LabelledFrom(fs, outputs, index + 1);
      LabelledBy(fs[outputs[index]], index);
      var rest := ReadFrom(fs, outputs, index + 1).value;
      forall f | f in rest ensures FromOn(f, index, |outputs|) {
        var i: nat :| index + 1 <= i < |outputs| && Labelled(f, Decimal(i));
      }
      assert forall f | f in Frames(fs[outputs[index]], [Decimal(index)]) :: FromOn(f, index, |outputs|);
    }
  }

  function Leading(frames: seq<Frame>, mark: string): nat {
    if frames == [] || !Labelled(frames[0], mark) then 0 else 1 + Leading(frames[1..], mark)
  }

  lemma {:induction false} LeadingAre(a: seq<Frame>, x: seq<Frame>, mark: string)
    requires (forall f | f in a :: Labelled(f, mark)) && forall f | f in x :: !Labelled(f, mark)
    ensures Leading(a + x, mark) == |a|
  {
    if a == [] {
      assert a + x == x && (x != [] ==> x[0] in x);
    } else {
      LeadingAre(a[1..], x, mark);
      assert (a + x)[1..] == a[1..] + x && a[0] in a;
    }
  }

  /** Two rows that begin with labelled frames and go on with others part at the same place. */
  lemma SamePart(a: seq<Frame>, x: seq<Frame>, b: seq<Frame>, y: seq<Frame>, mark: string)
    requires a + x == b + y
    requires (forall f | f in a :: Labelled(f, mark)) && forall f | f in b :: Labelled(f, mark)
    requires (forall f | f in x :: !Labelled(f, mark)) && forall f | f in y :: !Labelled(f, mark)
    ensures a == b && x == y
  {
    LeadingAre(a, x, mark);
    LeadingAre(b, y, mark);
    assert a == (a + x)[..|a|] && b == (b + y)[..|a|] && x == (a + x)[|a|..] && y == (b + y)[|a|..];
  }

  lemma OthersAreLater(fs: Files, outputs: seq<string>, index: nat)
    requires index < |outputs| && Present(fs, outputs)
    ensures ReadFrom(fs, outputs, index + 1).Some?
    ensures forall f | f in ReadFrom(fs, outputs, index + 1).value :: !Labelled(f, Decimal(index))
  {
    LabelledFrom(fs, outputs, index + 1);
    forall f | f in ReadFrom(fs, outputs, index + 1).value ensures !Labelled(f, Decimal(index)) {
      var i: nat :| index + 1 <= i < |outputs| && Labelled(f, Decimal(i));
      if Decimal(i) == Decimal(index) { DecimalIsInjective(i, index); }
    }
  }

  /** Reading tells outputs apart one by one: nothing can move from one to another unseen. */
  lemma {:induction false} ReadsTellOutputsApart(fs: Files, gs: Files, outputs: seq<string>, index: nat)
    requires index <= |outputs| && Present(fs, outputs) && Present(gs, outputs) && DistinctFiles(fs) && DistinctFiles(gs)
    ensures ReadFrom(fs, outputs, index).Some? && ReadFrom(gs, outputs, index).Some?
    ensures ReadFrom(fs, outputs, index) == ReadFrom(gs, outputs, index) <==>
      forall i | index <= i < |outputs| :: Prune(fs[outputs[i]]) == Prune(gs[outputs[i]])
    decreases |outputs| - index
  {
    if index < |outputs| {
      ReadsTellOutputsApart(fs, gs, outputs, index + 1);
      var m, n := fs[outputs[index]], gs[outputs[index]];
      FramesTellTreesApart(m, n, [Decimal(index)]);
      if ReadFrom(fs, outputs, index) == ReadFrom(gs, outputs, index) {
        LabelledBy(m, index);
        LabelledBy(n, index);
        OthersAreLater(fs, outputs, index);
        OthersAreLater(gs, outputs, index);
        SamePart(Frames(m, [Decimal(index)]), ReadFrom(fs, outputs, index + 1).value,
          Frames(n, [Decimal(index)]), ReadFrom(gs, outputs, index + 1).value, Decimal(index));
      }
    }
  }

  /** So with a collision-free digest, outputs have the same digest exactly when each holds the same files in the same places. */
  lemma DigestsTellOutputsApart(hash: Hash, fs: Files, gs: Files, outputs: seq<string>)
    requires Injective(hash) && ProperFiles(fs) && ProperFiles(gs) && DistinctFiles(fs) && DistinctFiles(gs)
    requires Present(fs, outputs) && Present(gs, outputs)
    ensures DigestOf(hash, fs, outputs).Some? && DigestOf(hash, gs, outputs).Some?
    ensures DigestOf(hash, fs, outputs) == DigestOf(hash, gs, outputs) <==>
      forall i | 0 <= i < |outputs| :: Prune(fs[outputs[i]]) == Prune(gs[outputs[i]])
  {
    ReadsTellOutputsApart(fs, gs, outputs, 0);
    ReadIsProper(fs, outputs, 0);
    ReadIsProper(gs, outputs, 0);
    if DigestOf(hash, fs, outputs) == DigestOf(hash, gs, outputs) {
      DigestsIdentify(hash, Read(fs, outputs).value, Read(gs, outputs).value);
    }
  }

  ghost predicate Injective(hash: Hash) {
    forall x, y | hash(x) == hash(y) :: x == y
  }

  predicate ProperName(name: string) {
    '/' !in name && NUL !in name
  }

  predicate Proper(n: Node)
    decreases n, 1
  {
    n.Dir? ==> ProperIn(n.entries)
  }

  /** File names hold neither a slash nor a NUL. */
  predicate ProperIn(entries: Entries)
    decreases entries, 0
  {
    entries.Cons? ==> ProperName(entries.name) && Proper(entries.node) && ProperIn(entries.rest)
  }

  predicate ProperFiles(fs: Files) {
    forall p | p in fs :: Proper(fs[p])
  }

  predicate ProperPath(path: seq<string>) {
    path != [] && forall i | 0 <= i < |path| :: ProperName(path[i])
  }

  predicate ProperFrames(frames: seq<Frame>) {
    forall i | 0 <= i < |frames| :: ProperPath(frames[i].path)
  }

  lemma {:induction false} JoinHasNoNul(path: seq<string>)
    requires ProperPath(path)
    ensures NUL !in Join(path) && SlashFree(path)
  {
    if |path| > 1 { JoinHasNoNul(path[1..]); }
  }

  lemma {:induction false} FramesAreProper(n: Node, path: seq<string>)
    requires Proper(n) && ProperPath(path)
    ensures ProperFrames(Frames(n, path))
    decreases n, 1
  {
    if n.Dir? { FramesInAreProper(n.entries, path); }
  }

  lemma {:induction false} FramesInAreProper(entries: Entries, path: seq<string>)
    requires ProperIn(entries) && ProperPath(path)
    ensures ProperFrames(FramesIn(entries, path))
    decreases entries, 0
  {
    if entries.Cons? {
      FramesAreProper(entries.node, path + [entries.name]);
      FramesInAreProper(entries.rest, path);
    }
  }

  lemma {:induction false} ReadIsProper(fs: Files, outputs: seq<string>, index: nat)
    requires ProperFiles(fs) && index <= |outputs|
    ensures ReadFrom(fs, outputs, index).Some? ==> ProperFrames(ReadFrom(fs, outputs, index).value)
    decreases |outputs| - index
  {
    if index < |outputs| && outputs[index] in fs {
      ReadIsProper(fs, outputs, index + 1);
      forall i | 0 <= i < |Decimal(index)| ensures Decimal(index)[i] != '/' && Decimal(index)[i] != NUL {
        assert IsDigit(Decimal(index)[i]);
      }
      FramesAreProper(fs[outputs[index]], [Decimal(index)]);
    }
  }

  /** With a collision-free digest, equal digests mean the same files with the same contents in the same places. */
  lemma DigestsIdentify(hash: Hash, a: seq<Frame>, b: seq<Frame>)
    requires Injective(hash) && ProperFrames(a) && ProperFrames(b)
    requires hash(Stream(a)) == hash(Stream(b))
    ensures a == b
  {
    forall i | 0 <= i < |a| ensures NulFree(a[i]) && SlashFree(a[i].path) { JoinHasNoNul(a[i].path); }
    forall i | 0 <= i < |b| ensures NulFree(b[i]) && SlashFree(b[i].path) { JoinHasNoNul(b[i].path); }
    StreamIsInjective(a, b);
  }
}
