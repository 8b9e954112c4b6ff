/** The build journal: what is hashed, and the steps a build takes between which it may be killed
    (scripts/release/build-checkpoints.ts). Byte strings are strings whose characters are bytes. */
module JournalModel {
  import opened Basics

  // -------------------------------------------------------------------- hashing

  /** What is at a path; a directory's entries are in sorted order. */
  datatype Node = File(content: string) | Dir(entries: Entries)

  datatype Entries = Nil | Cons(name: string, node: Node, rest: Entries)

  /** One file fed to the digest, with the path its label joins. */
  datatype Frame = Frame(path: seq<string>, content: string)

  function Frames(node: Node, path: seq<string>): seq<Frame> {
    match node
    case File(content) => [Frame(path, content)]
    case Dir(entries) => FramesIn(entries, path)
  }

  function FramesIn(entries: Entries, path: seq<string>): seq<Frame> {
    match entries
    case Nil => []
    case Cons(name, node, rest) => Frames(node, path + [name]) + FramesIn(rest, path)
  }

  const NUL: char := '\0'

  function Header(f: Frame): string {
    Join(f.path) + [NUL] + Decimal(|f.content|) + [NUL]
  }

  /** The bytes fed to the digest. */
  function Stream(frames: seq<Frame>): string {
    if frames == [] then "" else Header(frames[0]) + frames[0].content + Stream(frames[1..])
  }

  type Files = map<string, Node>

  /** The frames of the outputs, each labelled by its position; none when one is missing. */
  function ReadFrom(fs: Files, outputs: seq<string>, index: nat): Option<seq<Frame>>
    requires index <= |outputs|
    decreases |outputs| - index
  {
    if index == |outputs| then Some([])
    else if outputs[index] !in fs then None
    else
      match ReadFrom(fs, outputs, index + 1)
      case None => None
      case Some(rest) => Some(Frames(fs[outputs[index]], [Decimal(index)]) + rest)
  }

  function Read(fs: Files, outputs: seq<string>): Option<seq<Frame>> {
    ReadFrom(fs, outputs, 0)
  }

  type Hash = string -> string

  function DigestOf(hash: Hash, fs: Files, outputs: seq<string>): Option<string> {
    match Read(fs, outputs)
    case None => None
    case Some(frames) => Some(hash(Stream(frames)))
  }

  // -------------------------------------------------------------------- the journal

  datatype Record = Record(input: string, digest: string)

  type Records = map<string, Record>

  /** A journal file: absent, cut short, or whole. */
  datatype Text = Missing | Torn | Whole(records: Records)

  function Parse(t: Text): Records {
    if t.Whole? then t.records else map[]
  }

  datatype Job = Job(step: string, input: string, outputs: seq<string>)

  datatype Stage = Closed | Opened | Written

  /** Where a run stands: clearing the old record, acting, hashing, or saving the new record. */
  datatype Pc =
    | Idle
    | Clearing(job: Job, stage: Stage)
    | Acting(job: Job)
    | Returned(job: Job)
    | Recording(job: Job, stage: Stage)

  /** A completed action, with what its outputs held when they were hashed. */
  datatype Done = Done(step: string, input: string, frames: seq<Frame>)

  datatype State = State(
    fs: Files, journal: Text, tmp: Text,
    up: bool, records: Records, pc: Pc,
    done: set<Done>, unfinished: set<string>)

  datatype Event =
    | Start | Crash
    | Reuse(job: Job) | Begin(job: Job)
    | OpenTmp | WriteTmp | Rename
    | ActionReturns | ActionFails | HashOutputs
    | Touch(fs: Files)
    | Damage

  predicate CanReuse(hash: Hash, records: Records, fs: Files, job: Job) {
    && job.step in records && records[job.step].input == job.input && job.outputs != []
    && DigestOf(hash, fs, job.outputs) == Some(records[job.step].digest)
  }

  predicate Saving(pc: Pc, stage: Stage) {
    (pc.Clearing? || pc.Recording?) && pc.stage == stage
  }

  predicate Enabled(hash: Hash, st: State, e: Event) {
    match e
    case Start => !st.up
    case Crash => st.up
    case Reuse(job) => st.up && st.pc.Idle? && CanReuse(hash, st.records, st.fs, job)
    case Begin(job) => st.up && st.pc.Idle? && !CanReuse(hash, st.records, st.fs, job)
    case OpenTmp => st.up && Saving(st.pc, Closed)
    case WriteTmp => st.up && Saving(st.pc, Opened)
    case Rename => st.up && Saving(st.pc, Written)
    case ActionReturns => st.up && st.pc.Acting?
    case ActionFails => st.up && st.pc.Acting?
    case HashOutputs => st.up && st.pc.Returned?
    case Touch(_) => true
    case Damage => true
  }

  function AfterRename(st: State): State
    requires Saving(st.pc, Written)
  {
    var moved := st.(journal := st.tmp, tmp := Missing);
    if st.pc.Clearing? then moved.(pc := Acting(st.pc.job), unfinished := st.unfinished + {st.pc.job.step})
    else moved.(pc := Idle, unfinished := st.unfinished - {st.pc.job.step})
  }

  function AfterHash(hash: Hash, st: State): State
    requires st.pc.Returned?
  {
    var job := st.pc.job;
    match Read(st.fs, job.outputs)
    case None => st.(pc := Idle)
    case Some(frames) =>
      st.(records := st.records[job.step := Record(job.input, hash(Stream(frames)))],
          done := st.done + {Done(job.step, job.input, frames)},
          pc := Recording(job, Closed))
  }

  function Next(hash: Hash, st: State, e: Event): State
    requires Enabled(hash, st, e)
  {
    match e
    case Start => st.(up := true, records := Parse(st.journal), pc := Idle)
    case Crash => st.(up := false, records := map[], pc := Idle)
    case Reuse(_) => st
    case Begin(job) => st.(records := st.records - {job.step}, pc := Clearing(job, Closed))
    case OpenTmp => st.(tmp := Torn, pc := st.pc.(stage := Opened))
    case WriteTmp => st.(tmp := Whole(st.records), pc := st.pc.(stage := Written))
    case Rename => AfterRename(st)
    case ActionReturns => st.(pc := Returned(st.pc.job))
    case ActionFails => st.(pc := Idle)
    case HashOutputs => AfterHash(hash, st)
    case Touch(fs) => st.(fs := fs)
    case Damage => st.(journal := Torn)
  }

  datatype Trace = Empty | Then(before: Trace, event: Event)

  /** `end` is reached from `begin` by the events of the trace. */
  ghost predicate Runs(hash: Hash, begin: State, t: Trace, end: State)
    decreases t
  {
    match t
    case Empty => end == begin
    case Then(before, e) => exists mid ::
      Runs(hash, begin, before, mid) && Enabled(hash, mid, e) && end == Next(hash, mid, e)
  }

  /** Before the first build: no journal, whatever files there are. */
  function Init(fs: Files): State {
    State(fs, Missing, Missing, false, map[], Idle, {}, {})
  }
}
