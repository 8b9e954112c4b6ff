/** The build checkpoints and the hash of their outputs, as the program runs them
    (scripts/release/build-checkpoints.ts). */
module BuildCheckpointsClass {
  import opened Basics
  import opened JournalModel

  /** The digest being fed: `fed` is every byte it has been given. */
  class Feed {
    var fed: string

    constructor ()
      ensures fed == ""
    {
      fed := "";
    }

    method Update(bytes: string)
      modifies this
      ensures fed == old(fed) + bytes
    {
      fed := fed + bytes;
    }

    method Add(node: Node, path: seq<string>)
      modifies this
      ensures fed == old(fed) + Stream(Frames(node, path))
      decreases node, 1
    {
      match node
      case File(content) =>
        Update(Header(Frame(path, content)));
        Update(content);
        OneFrame(old(fed), Frame(path, content));
      case Dir(entries) =>
        AddAll(entries, path);
    }

    method AddAll(entries: Entries, path: seq<string>)
      modifies this
      ensures fed == old(fed) + Stream(FramesIn(entries, path))
      decreases entries, 0
    {
      match entries
      case Nil =>
      case Cons(name, node, rest) =>
        Add(node, path + [name]);
        AddAll(rest, path);
        StreamsJoin(Frames(node, path + [name]), FramesIn(rest, path));
        Regroup(old(fed), Stream(Frames(node, path + [name])), Stream(FramesIn(rest, path)));
    }
  }

  lemma OneFrame(before: string, f: Frame)
    ensures before + Header(f) + f.content == before + Stream([f])
  {
    assert Stream([f]) == Header(f) + f.content by { assert [f][1..] == []; }
    assert before + Header(f) + f.content == before + (Header(f) + f.content);
  }

  lemma Regroup(a: string, b: string, c: string)
    ensures a + b + c == a + (b + c)
  {
  }

  lemma {:induction false} StreamsJoin(a: seq<Frame>, b: seq<Frame>)
    ensures Stream(a + b) == Stream(a) + Stream(b)
  {
    if a == [] {
      assert a + b == b;
    } else {
      StreamsJoin(a[1..], b);
      assert (a + b)[1..] == a[1..] + b;
      Regroup(Header(a[0]) + a[0].content, Stream(a[1..]), Stream(b));
    }
  }

  /** `hashFiles`: the digest of the outputs in order, or none when one is missing. */
  method HashFiles(hash: Hash, fs: Files, outputs: seq<string>) returns (digest: Option<string>)
    ensures digest == DigestOf(hash, fs, outputs)
  {
    var feed := new Feed();
    ghost var read: seq<Frame> := [];
    assert Read(fs, outputs).Some? ==> [] + Read(fs, outputs).value == Read(fs, outputs).value;
    for i := 0 to |outputs|
      invariant feed.fed == Stream(read)
      invariant match ReadFrom(fs, outputs, i)
                case None => Read(fs, outputs).None?
                case Some(rest) => Read(fs, outputs) == Some(read + rest)
    {
      if outputs[i] !in fs { return None; }
      ghost var frames := Frames(fs[outputs[i]], [Decimal(i)]);
      feed.Add(fs[outputs[i]], [Decimal(i)]);
      StreamsJoin(read, frames);
      OneMoreRead(fs, outputs, i, read);
      read := read + frames;
    }
    assert read + [] == read;
    return Some(hash(feed.fed));
  }

  lemma OneMoreRead(fs: Files, outputs: seq<string>, i: nat, read: seq<Frame>)
    requires i < |outputs| && outputs[i] in fs
    ensures match ReadFrom(fs, outputs, i + 1)
            case None => ReadFrom(fs, outputs, i).None?
            case Some(rest) =>
              ReadFrom(fs, outputs, i).Some? &&
              read + ReadFrom(fs, outputs, i).value == (read + Frames(fs[outputs[i]], [Decimal(i)])) + rest
  {
  }

  datatype Timing = Timing(step: string, reused: bool)

  /** What became of a run: reused, done, or thrown. */
  datatype Outcome = Reused(digest: string) | Ran(digest: string) | Threw

  // ---------------------------------------------------- what a run does, statement by statement

  /** `save`: the new text goes beside the journal, and only then takes its place. */
  function Saved(t: Trace): Trace {
    Then(Then(Then(t, OpenTmp), WriteTmp), Rename)
  }

  /** The old record is given up on disk before the action touches a file. */
  function Acted(t: Trace, job: Job, after: Files): Trace {
    Then(Saved(Then(t, Begin(job))), Touch(after))
  }

  /** The new record is made from what the outputs hold once the action has returned. */
  function Hashed(t: Trace): Trace {
    Then(Then(t, ActionReturns), HashOutputs)
  }

  class BuildCheckpoints {
    const hash: Hash
    var records: Records
    var timings: seq<Timing>
    var journal: Text
    var tmp: Text
    var fs: Files
    ghost const first: State
    ghost var pc: Pc
    ghost var done: set<Done>
    ghost var unfinished: set<string>
    ghost var past: Trace

    ghost function Abs(): State reads this {
      State(fs, journal, tmp, true, records, pc, done, unfinished)
    }

    /** The object's state is where the killable steps taken so far lead. */
    ghost predicate Valid() reads this {
      Runs(hash, first, past, Abs())
    }

    /** Opening reads the journal; a damaged one counts as empty. */
    constructor (hash: Hash, journal: Text, tmp: Text, fs: Files, ghost before: State)
      requires !before.up && before.fs == fs && before.journal == journal && before.tmp == tmp
      ensures this.hash == hash && first == before && Abs() == Next(hash, before, Start)
      ensures Valid() && past == Then(Empty, Start) && timings == []
    {
      this.hash, this.journal, this.tmp, this.fs := hash, journal, tmp, fs;
      records := if journal.Whole? then journal.records else map[];
      timings := [];
      first, pc, done, unfinished, past := before, Idle, before.done, before.unfinished, Then(Empty, Start);
      new;
      assert Runs(hash, before, Empty, before);
    }

    /** The real fields have taken a step; the ghost ones follow. */
    ghost method Took(e: Event, was: State)
      requires Runs(hash, first, past, was) && Enabled(hash, was, e)
      requires var next := Next(hash, was, e);
        next == Abs().(pc := next.pc, done := next.done, unfinished := next.unfinished)
      modifies this`pc, this`done, this`unfinished, this`past
      ensures Valid() && past == Then(old(past), e) && Abs() == Next(hash, was, e)
    {
      var next := Next(hash, was, e);
      pc, done, unfinished, past := next.pc, next.done, next.unfinished, Then(past, e);
    }

    method Save()
      requires Valid() && Saving(pc, Closed)
      modifies this`journal, this`tmp, this`pc, this`done, this`unfinished, this`past
      ensures Valid() && past == Saved(old(past)) && journal == Whole(records) && tmp == Missing && done == old(done)
      ensures pc == if old(pc).Clearing? then Acting(old(pc).job) else Idle
    {
      ghost var s0 := Abs();
      tmp := Torn;
      Took(OpenTmp, s0);
      ghost var s1 := Abs();
      tmp := Whole(records);
      Took(WriteTmp, s1);
      ghost var s2 := Abs();
      journal := tmp;
      tmp := Missing;
      Took(Rename, s2);
    }

    /** One run. The action leaves the files `after`, whether it returns or throws. */
    method Run(job: Job, after: Files, throws: bool) returns (r: Outcome)
      requires Valid() && pc.Idle?
      modifies this
      ensures Valid() && pc.Idle?
      ensures past == match r
                      case Reused(_) => Then(old(past), Reuse(job))
                      case Ran(_) => Saved(Hashed(Acted(old(past), job, after)))
                      case Threw =>
                        if throws then Then(Acted(old(past), job, after), ActionFails) else Hashed(Acted(old(past), job, after))
      ensures CanReuse(hash, old(records), old(fs), job) ==>
        r == Reused(old(records)[job.step].digest) && records == old(records) && journal == old(journal) && tmp == old(tmp) && fs == old(fs)
      ensures !CanReuse(hash, old(records), old(fs), job) ==> journal == Whole(records) && tmp == Missing && fs == after
      ensures !CanReuse(hash, old(records), old(fs), job) ==>
        match (if throws then None else DigestOf(hash, after, job.outputs))
        case None => r == Threw && records == old(records) - {job.step}
        case Some(digest) => r == Ran(digest) && records == old(records)[job.step := Record(job.input, digest)]
      ensures timings == old(timings) + (if r.Threw? then [] else [Timing(job.step, r.Reused?)])
    {
      if job.step in records && records[job.step].input == job.input && job.outputs != [] {
        var now := HashFiles(hash, fs, job.outputs);
        if now == Some(records[job.step].digest) {
          Took(Reuse(job), Abs());
          timings := timings + [Timing(job.step, true)];
          return Reused(records[job.step].digest);
        }
      }
      r := Perform(job, after, throws);
    }

    /** A run that reuses nothing. */
    method Perform(job: Job, after: Files, throws: bool) returns (r: Outcome)
      requires Valid() && pc.Idle? && !CanReuse(hash, records, fs, job)
      modifies this
      ensures Valid() && pc.Idle? && !r.Reused? && journal == Whole(records) && tmp == Missing && fs == after
      ensures past == match r
                      case Ran(_) => Saved(Hashed(Acted(old(past), job, after)))
                      case _ =>
                        if throws then Then(Acted(old(past), job, after), ActionFails) else Hashed(Acted(old(past), job, after))
      ensures match (if throws then None else DigestOf(hash, after, job.outputs))
              case None => r == Threw && records == old(records) - {job.step}
              case Some(digest) => r == Ran(digest) && records == old(records)[job.step := Record(job.input, digest)]
      ensures timings == old(timings) + (if r.Threw? then [] else [Timing(job.step, false)])
    {
      ClearRecord(job);
      Act(after, throws);
      if throws { return Threw; }
      var digest := HashFiles(hash, fs, job.outputs);
      r := EnterRecord(job, digest);
    }

    /** The old record goes, in memory and on disk. */
    method ClearRecord(job: Job)
      requires Valid() && pc.Idle? && !CanReuse(hash, records, fs, job)
      modifies this`records, this`journal, this`tmp, this`pc, this`done, this`unfinished, this`past
      ensures Valid() && past == Saved(Then(old(past), Begin(job))) && pc == Acting(job)
      ensures records == old(records) - {job.step} && journal == Whole(records) && tmp == Missing
    {
      ghost var s0 := Abs();
      records := records - {job.step};
      Took(Begin(job), s0);
      Save();
    }

    /** The action. */
    method Act(after: Files, throws: bool)
      requires Valid() && pc.Acting?
      modifies this`fs, this`pc, this`done, this`unfinished, this`past
      ensures Valid() && fs == after && past == Then(Then(old(past), Touch(after)), if throws then ActionFails else ActionReturns)
      ensures pc == if throws then Idle else Returned(old(pc).job)
    {
      ghost var s0 := Abs();
      fs := after;
      Took(Touch(after), s0);
      Took(if throws then ActionFails else ActionReturns, Abs());
    }

    /** The new record is entered and saved, unless an output is missing. */
    method EnterRecord(job: Job, digest: Option<string>) returns (r: Outcome)
      requires Valid() && pc == Returned(job) && digest == DigestOf(hash, fs, job.outputs)
      requires journal == Whole(records) && tmp == Missing
      modifies this`records, this`timings, this`journal, this`tmp, this`pc, this`done, this`unfinished, this`past
      ensures Valid() && pc.Idle? && journal == Whole(records) && tmp == Missing
      ensures match digest
              case None => r == Threw && records == old(records) && past == Then(old(past), HashOutputs)
              case Some(d) =>
                && r == Ran(d) && records == old(records)[job.step := Record(job.input, d)]
                && past == Saved(Then(old(past), HashOutputs))
      ensures timings == old(timings) + (if r.Threw? then [] else [Timing(job.step, false)])
    {
      ghost var s0 := Abs();
      if digest.None? {
        Took(HashOutputs, s0);
        return Threw;
      }
      records := records[job.step := Record(job.input, digest.value)];
      Took(HashOutputs, s0);
      Save();
      timings := timings + [Timing(job.step, false)];
      return Ran(digest.value);
    }
  }
}
