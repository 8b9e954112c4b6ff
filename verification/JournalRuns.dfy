/** Crash safety of the build journal: every run of builds, kills, file changes and journal damage. */
module JournalRuns {
  import opened Basics
  import opened JournalModel
  import opened HashFraming

  // ------------------------------------------------------------------ invariants

  /** Every record was made by a completed action of its step under its input. */
  ghost predicate Backed(hash: Hash, records: Records, done: set<Done>) {
    forall s | s in records :: BackedBy(hash, s, records[s], done)
  }

  ghost predicate BackedBy(hash: Hash, s: string, r: Record, done: set<Done>) {
    exists d | d in done :: d.step == s && d.input == r.input && hash(Stream(d.frames)) == r.digest
  }

  /** The step a run has taken out of its records and not yet saved again. */
  function Current(pc: Pc): set<string> {
    if pc.Idle? then {} else {pc.job.step}
  }

  predicate RecordsFit(up: bool, records: Records, pc: Pc, unfinished: set<string>) {
    && (up ==> forall s | s in records && s in unfinished :: pc.Recording? && pc.job.step == s)
    && (pc.Clearing? || pc.Acting? || pc.Returned? ==> pc.job.step !in records)
    && (pc.Acting? || pc.Returned? || pc.Recording? ==> pc.job.step in unfinished)
  }

  /** While a build runs, an undamaged journal differs from its records in the current step only. */
  predicate Agree(journal: Records, records: Records, current: set<string>) {
    && (forall s | s in journal && s !in current :: s in records && records[s] == journal[s])
    && (forall s | s in records && s !in current :: s in journal)
  }

  ghost predicate Inv(hash: Hash, st: State) {
    && Backed(hash, Parse(st.journal), st.done)
    && Backed(hash, st.records, st.done)
    && (forall s | s in Parse(st.journal) :: s !in st.unfinished)
    && (!st.up ==> st.pc.Idle? && st.records == map[])
    && RecordsFit(st.up, st.records, st.pc, st.unfinished)
    && (Saving(st.pc, Written) ==> st.tmp == Whole(st.records))
    && (st.up && !st.journal.Torn? ==> Agree(Parse(st.journal), st.records, Current(st.pc)))
    && (forall d | d in st.done :: ProperFrames(d.frames))
    && ProperFiles(st.fs)
  }

  lemma BackedByMore(hash: Hash, records: Records, done: set<Done>, d: Done)
    requires Backed(hash, records, done)
    ensures Backed(hash, records, done + {d})
  {
    forall s | s in records ensures BackedBy(hash, s, records[s], done + {d}) {
      assert BackedBy(hash, s, records[s], done);
      var x :| x in done && x.step == s && x.input == records[s].input && hash(Stream(x.frames)) == records[s].digest;
      assert x in done + {d};
    }
  }

  lemma HashKeeps(hash: Hash, st: State)
    requires Inv(hash, st) && st.pc.Returned?
    ensures Inv(hash, AfterHash(hash, st))
  {
    var job := st.pc.job;
    ReadIsProper(st.fs, job.outputs, 0);
    if Read(st.fs, job.outputs).Some? {
      var frames := Read(st.fs, job.outputs).value;
      var d := Done(job.step, job.input, frames);
      BackedByMore(hash, Parse(st.journal), st.done, d);
      BackedByMore(hash, st.records, st.done, d);
      assert d in st.done + {d};
      assert BackedBy(hash, job.step, Record(job.input, hash(Stream(frames))), st.done + {d});
    }
  }

  /** Files on disk can only be such as a file system holds. */
  predicate Possible(e: Event) {
    e.Touch? ==> ProperFiles(e.fs)
  }

  lemma NextKeeps(hash: Hash, st: State, e: Event)
    requires Inv(hash, st) && Enabled(hash, st, e) && Possible(e)
    ensures Inv(hash, Next(hash, st, e))
  {
    if e.HashOutputs? { HashKeeps(hash, st); }
  }

  predicate AllPossible(t: Trace) {
    t.Then? ==> Possible(t.event) && AllPossible(t.before)
  }

  lemma {:induction false} RunsKeep(hash: Hash, begin: State, t: Trace, end: State)
    requires Inv(hash, begin) && Runs(hash, begin, t, end) && AllPossible(t)
    ensures Inv(hash, end)
    decreases t
  {
    if t.Then? {
      var mid :| Runs(hash, begin, t.before, mid) && Enabled(hash, mid, t.event) && end == Next(hash, mid, t.event);
      RunsKeep(hash, begin, t.before, mid);
      NextKeeps(hash, mid, t.event);
    }
  }

  lemma InitHolds(hash: Hash, fs: Files)
    requires ProperFiles(fs)
    ensures Inv(hash, Init(fs))
  {
  }

  // ----------------------------------------------------------------- main results

  /** Whatever was killed or changed before, a reused step's outputs are, file for file, what a completed
      action of that step under that input left when they were hashed. */
  lemma {:induction false} ReuseIsSound(hash: Hash, fs: Files, t: Trace, st: State, job: Job)
    requires Injective(hash) && ProperFiles(fs) && AllPossible(t) && Runs(hash, Init(fs), t, st)
    requires Enabled(hash, st, Reuse(job))
    ensures job.step !in st.unfinished
    ensures exists d | d in st.done :: d.step == job.step && d.input == job.input && Read(st.fs, job.outputs) == Some(d.frames)
  {
    InitHolds(hash, fs);
    RunsKeep(hash, Init(fs), t, st);
    var r := st.records[job.step];
    assert BackedBy(hash, job.step, r, st.done);
    var d :| d in st.done && d.step == job.step && d.input == r.input && hash(Stream(d.frames)) == r.digest;
    ReadIsProper(st.fs, job.outputs, 0);
    DigestsIdentify(hash, Read(st.fs, job.outputs).value, d.frames);
  }

  /** A build that opens on a damaged journal takes nothing from it, and reuses nothing. */
  lemma DamageForgets(hash: Hash, st: State)
    requires Enabled(hash, st, Start)
    ensures var begun := Next(hash, Next(hash, st, Damage), Start);
      begun.records == map[] && forall job :: !Enabled(hash, begun, Reuse(job))
  { }

  /** The journal on disk never claims more than that. */
  lemma {:induction false} JournalIsBacked(hash: Hash, fs: Files, t: Trace, st: State, step: string)
    requires ProperFiles(fs) && AllPossible(t) && Runs(hash, Init(fs), t, st)
    requires step in Parse(st.journal)
    ensures BackedBy(hash, step, Parse(st.journal)[step], st.done) && step !in st.unfinished
  {
    InitHolds(hash, fs);
    RunsKeep(hash, Init(fs), t, st);
  }

  /** A run in which no new record of the step is saved. */
  ghost predicate Stays(hash: Hash, begin: State, t: Trace, end: State, step: string)
    decreases t
  {
    match t
    case Empty => end == begin
    case Then(before, e) => exists mid ::
      && Stays(hash, begin, before, mid, step) && Enabled(hash, mid, e) && end == Next(hash, mid, e)
      && !(e.Rename? && mid.pc.Recording? && mid.pc.job.step == step)
  }

  lemma StaysUnfinished(hash: Hash, st: State, e: Event, step: string)
    requires Enabled(hash, st, e) && step in st.unfinished
    requires !(e.Rename? && st.pc.Recording? && st.pc.job.step == step)
    ensures step in Next(hash, st, e).unfinished
  {
  }

  /** An interrupted action is not reusable: from the moment an action starts until its own new record
      is saved, no build reuses its step, through any kills, restarts and other steps. */
  lemma {:induction false} InterruptedIsNotReusable(hash: Hash, begin: State, t: Trace, st: State, job: Job)
    requires Inv(hash, begin) && begin.pc.Acting? && begin.pc.job.step == job.step
    requires AllPossible(t) && Stays(hash, begin, t, st, job.step)
    ensures Inv(hash, st) && job.step in st.unfinished && !Enabled(hash, st, Reuse(job))
    decreases t
  {
    if t.Then? {
      var mid :| Stays(hash, begin, t.before, mid, job.step) && Enabled(hash, mid, t.event) && st == Next(hash, mid, t.event)
        && !(t.event.Rename? && mid.pc.Recording? && mid.pc.job.step == job.step);
      InterruptedIsNotReusable(hash, begin, t.before, mid, job);
      StaysUnfinished(hash, mid, t.event, job.step);
      NextKeeps(hash, mid, t.event);
    }
  }

  function RecordAt(t: Text, step: string): Option<Record> {
    if step in Parse(t) then Some(Parse(t)[step]) else None
  }

  /** The journal is not damaged from outside, and the step itself is not run. */
  predicate Spares(t: Trace, step: string) {
    t.Then? ==> !t.event.Damage? && (t.event.Begin? ==> t.event.job.step != step) && Spares(t.before, step)
  }

  lemma OtherStepSurvives(hash: Hash, st: State, e: Event, step: string)
    requires Inv(hash, st) && Enabled(hash, st, e) && !e.Damage? && !st.journal.Torn?
    requires step !in Current(st.pc) && (e.Begin? ==> e.job.step != step)
    ensures var after := Next(hash, st, e);
      && !after.journal.Torn? && step !in Current(after.pc)
      && RecordAt(after.journal, step) == RecordAt(st.journal, step)
  {
  }

  /** Running other steps, through any kills and restarts, never loses or changes a step's record. */
  lemma {:induction false} OtherStepsSurvive(hash: Hash, begin: State, t: Trace, end: State, step: string)
    requires Inv(hash, begin) && !begin.journal.Torn? && step !in Current(begin.pc)
    requires Runs(hash, begin, t, end) && AllPossible(t) && Spares(t, step)
    ensures Inv(hash, end) && !end.journal.Torn? && step !in Current(end.pc)
    ensures RecordAt(end.journal, step) == RecordAt(begin.journal, step)
    decreases t
  {
    if t.Then? {
      var mid :| Runs(hash, begin, t.before, mid) && Enabled(hash, mid, t.event) && end == Next(hash, mid, t.event);
      OtherStepsSurvive(hash, begin, t.before, mid, step);
      OtherStepSurvives(hash, mid, t.event, step);
      NextKeeps(hash, mid, t.event);
    }
  }

  // ----------------------------------------------------- a run that is not interrupted

  function Save(t: Trace): Trace {
    Then(Then(Then(t, OpenTmp), WriteTmp), Rename)
  }

  /** The steps of a run that is let finish; the action leaves the files `after`. */
  function Finished(job: Job, after: Files): Trace {
    Save(Then(Then(Then(Save(Then(Empty, Begin(job))), Touch(after)), ActionReturns), HashOutputs))
  }

  function FinishedState(hash: Hash, st: State, job: Job, after: Files): State
    requires Read(after, job.outputs).Some?
  {
    var frames := Read(after, job.outputs).value;
    var records := st.records[job.step := Record(job.input, hash(Stream(frames)))];
    st.(fs := after, journal := Whole(records), tmp := Missing, records := records,
        done := st.done + {Done(job.step, job.input, frames)}, unfinished := st.unfinished - {job.step})
  }

  lemma SaveRuns(hash: Hash, begin: State, t: Trace, mid: State)
    requires Runs(hash, begin, t, mid) && mid.up && Saving(mid.pc, Closed)
    ensures Runs(hash, begin, Save(t),
      AfterRename(mid.(tmp := Whole(mid.records), pc := mid.pc.(stage := Written))))
  {
    var a := Next(hash, mid, OpenTmp);
    assert Runs(hash, begin, Then(t, OpenTmp), a);
    var b := Next(hash, a, WriteTmp);
    assert Runs(hash, begin, Then(Then(t, OpenTmp), WriteTmp), b);
    assert Runs(hash, begin, Save(t), Next(hash, b, Rename));
  }

  /** The first half of a run: the old record is gone from the journal and the action starts. */
  function ClearedState(st: State, job: Job): State {
    var records := st.records - {job.step};
    st.(records := records, journal := Whole(records), tmp := Missing, pc := Acting(job),
        unfinished := st.unfinished + {job.step})
  }

  lemma ClearingRuns(hash: Hash, st: State, job: Job)
    requires st.up && st.pc.Idle? && !CanReuse(hash, st.records, st.fs, job)
    ensures Runs(hash, st, Save(Then(Empty, Begin(job))), ClearedState(st, job))
  {
    var a := Next(hash, st, Begin(job));
    assert Runs(hash, st, Empty, st) && Runs(hash, st, Then(Empty, Begin(job)), a);
    SaveRuns(hash, st, Then(Empty, Begin(job)), a);
  }

  lemma ActingRuns(hash: Hash, begin: State, t: Trace, st: State, after: Files)
    requires Runs(hash, begin, t, st) && st.up && st.pc.Acting?
    requires Read(after, st.pc.job.outputs).Some?
    ensures Runs(hash, begin, Save(Then(Then(Then(t, Touch(after)), ActionReturns), HashOutputs)),
      FinishedState(hash, st, st.pc.job, after).(pc := Idle))
  {
    var a := st.(fs := after);
    assert Runs(hash, begin, Then(t, Touch(after)), a);
    var b := Next(hash, a, ActionReturns);
    assert Runs(hash, begin, Then(Then(t, Touch(after)), ActionReturns), b);
    var c := Next(hash, b, HashOutputs);
    assert Runs(hash, begin, Then(Then(Then(t, Touch(after)), ActionReturns), HashOutputs), c);
    SaveRuns(hash, begin, Then(Then(Then(t, Touch(after)), ActionReturns), HashOutputs), c);
  }

  /** Let finish, a run records the outputs as they were hashed, and the next such run may reuse them. */
  lemma FinishedRunIsReusable(hash: Hash, st: State, job: Job, after: Files)
    requires st.up && st.pc.Idle? && !CanReuse(hash, st.records, st.fs, job)
    requires Read(after, job.outputs).Some?
    ensures Runs(hash, st, Finished(job, after), FinishedState(hash, st, job, after))
    ensures job.outputs != [] ==> Enabled(hash, FinishedState(hash, st, job, after), Reuse(job))
  {
    ClearingRuns(hash, st, job);
    var cleared := ClearedState(st, job);
    ActingRuns(hash, st, Save(Then(Empty, Begin(job))), cleared, after);
    SameFinish(hash, st, job, after);
  }

  lemma SameFinish(hash: Hash, st: State, job: Job, after: Files)
    requires Read(after, job.outputs).Some? && st.pc.Idle?
    ensures FinishedState(hash, ClearedState(st, job), job, after).(pc := Idle) == FinishedState(hash, st, job, after)
  {
    var r := Record(job.input, hash(Stream(Read(after, job.outputs).value)));
    assert (st.records - {job.step})[job.step := r] == st.records[job.step := r];
    assert (st.unfinished + {job.step}) - {job.step} == st.unfinished - {job.step};
  }
}
