/** The promise limiter (packages/port-scanner/src/procfs.ts, createLimiter): its steps, its runs, and the object itself. */
module Limiter {
  import opened Basics

  type Job = nat

  /** `active` and `queue` are the limiter's own; the rest says where each job is. `asked` and `served`
      are the jobs that had to wait and those of them that were woken, in order. */
  datatype State = State(
    limit: nat, active: int, queue: seq<Job>,
    running: set<Job>, woken: set<Job>, done: set<Job>,
    asked: seq<Job>, served: seq<Job>)

  datatype Event = Call(job: Job) | Resume(job: Job) | Finish(job: Job)

  function Init(limit: nat): State {
    State(limit, 0, [], {}, {}, {}, [], [])
  }

  /** A job is called once; a woken one resumes when its promise is scheduled; a running one ends, however it ends. */
  predicate Enabled(st: State, e: Event) {
    match e
    case Call(j) => j !in st.running && j !in st.woken && j !in st.done && j !in st.queue
    case Resume(j) => j in st.woken
    case Finish(j) => j in st.running
  }

  function Next(st: State, e: Event): State {
    match e
    case Call(j) =>
      if st.active >= st.limit then st.(queue := st.queue + [j], asked := st.asked + [j])
      else st.(active := st.active + 1, running := st.running + {j})
    case Resume(j) => st.(active := st.active + 1, woken := st.woken - {j}, running := st.running + {j})
    case Finish(j) =>
      var freed := st.(active := st.active - 1, running := st.running - {j}, done := st.done + {j});
      if st.queue == [] then freed
      else freed.(queue := st.queue[1..], woken := st.woken + {st.queue[0]}, served := st.served + [st.queue[0]])
  }

  predicate Apart(running: set<Job>, woken: set<Job>, done: set<Job>) {
    running !! woken && running !! done && woken !! done
  }

  predicate Waiting(queue: seq<Job>, running: set<Job>, woken: set<Job>, done: set<Job>) {
    && (forall k | 0 <= k < |queue| :: queue[k] !in running && queue[k] !in woken && queue[k] !in done)
    && (forall a, b | 0 <= a < b < |queue| :: queue[a] != queue[b])
  }

  predicate Inv(st: State) {
    && Apart(st.running, st.woken, st.done)
    && Waiting(st.queue, st.running, st.woken, st.done)
    && st.active == |st.running|
    && (st.queue != [] ==> st.active + |st.woken| >= st.limit)
    && st.asked == st.served + st.queue
  }

  lemma CallKeeps(st: State, j: Job)
    requires Inv(st) && Enabled(st, Call(j))
    ensures Inv(Next(st, Call(j)))
  {
    if st.active >= st.limit { assert st.asked + [j] == st.served + (st.queue + [j]); }
  }

  lemma ResumeKeeps(st: State, j: Job)
    requires Inv(st) && Enabled(st, Resume(j))
    ensures Inv(Next(st, Resume(j)))
  {
    assert |st.woken - {j}| == |st.woken| - 1;
  }

  lemma FinishKeeps(st: State, j: Job)
    requires Inv(st) && Enabled(st, Finish(j))
    ensures Inv(Next(st, Finish(j)))
  {
    assert |st.running - {j}| == |st.running| - 1;
    if st.queue != [] {
      ServedGrows(st.served, st.queue);
      assert |st.woken + {st.queue[0]}| == |st.woken| + 1;
    }
  }

  lemma ServedGrows(served: seq<Job>, queue: seq<Job>)
    requires queue != []
    ensures served + queue == served + [queue[0]] + queue[1..]
  {
  }

  lemma NextKeeps(st: State, e: Event)
    requires Inv(st) && Enabled(st, e)
    ensures Inv(Next(st, e))
  {
    match e
    case Call(j) => CallKeeps(st, j);
    case Resume(j) => ResumeKeeps(st, j);
    case Finish(j) => FinishKeeps(st, j);
  }

  datatype Trace = Empty | Then(before: Trace, event: Event)

  ghost predicate Runs(begin: State, t: Trace, end: State)
    decreases t
  {
    match t
    case Empty => end == begin
    case Then(before, e) => exists mid :: Runs(begin, before, mid) && Enabled(mid, e) && end == Next(mid, e)
  }

  lemma {:induction false} RunsKeep(begin: State, t: Trace, end: State)
    requires Inv(begin) && Runs(begin, t, end)
    ensures Inv(end) && end.limit == begin.limit
    decreases t
  {
    if t.Then? {
      var mid :| Runs(begin, t.before, mid) && Enabled(mid, t.event) && end == Next(mid, t.event);
      RunsKeep(begin, t.before, mid);
      NextKeeps(mid, t.event);
    }
  }

  /** Waiters are woken first come, first served. */
  lemma {:induction false} WokenInOrder(limit: nat, t: Trace, st: State)
    requires Runs(Init(limit), t, st)
    ensures st.served <= st.asked && st.asked[|st.served|..] == st.queue
  {
    RunsKeep(Init(limit), t, st);
  }

  /** No waiter is stranded: while one waits, as many jobs as the limit run or are about to;
      so when nothing runs or is about to, nothing waits. */
  lemma {:induction false} NoneStranded(limit: nat, t: Trace, st: State)
    requires limit > 0 && Runs(Init(limit), t, st)
    ensures st.queue != [] ==> |st.running| + |st.woken| >= limit
    ensures st.running == {} && st.woken == {} ==> st.queue == []
  {
    RunsKeep(Init(limit), t, st);
  }

  /** A job that has run is never called, woken or run again. */
  lemma {:induction false} RunsOnce(begin: State, t: Trace, end: State, j: Job)
    requires Inv(begin) && Runs(begin, t, end) && j in begin.done
    ensures j in end.done && j !in end.running && j !in end.woken && j !in end.queue
    decreases t
  {
    RunsKeep(begin, t, end);
    if t.Then? {
      var mid :| Runs(begin, t.before, mid) && Enabled(mid, t.event) && end == Next(mid, t.event);
      RunsOnce(begin, t.before, mid, j);
    }
    assert Waiting(end.queue, end.running, end.woken, end.done);
  }

  // -------------------------------------------------------------------- the limit

  /** A call that starts at once while the free places belong to jobs already woken. */
  predicate Barges(st: State, e: Event) {
    e.Call? && st.active < st.limit <= st.active + |st.woken|
  }

  /** Room is kept for the woken exactly as long as no call barges in. */
  lemma RoomIsKeptUnlessBarged(st: State, e: Event)
    requires Inv(st) && Enabled(st, e) && st.active + |st.woken| <= st.limit
    ensures var after := Next(st, e); after.active + |after.woken| <= st.limit <==> !Barges(st, e)
  {
    match e
    case Call(_) =>
    case Resume(j) => assert |st.woken - {j}| == |st.woken| - 1;
    case Finish(_) =>
      if st.queue != [] { assert |st.woken + {st.queue[0]}| <= |st.woken| + 1; }
  }

  /** A run in which nothing is called. */
  predicate Quiet(t: Trace) {
    t.Then? ==> !t.event.Call? && Quiet(t.before)
  }

  /** The jobs already in can overrun the limit by themselves. */
  ghost predicate CanOverrun(st: State) {
    exists t, end :: Runs(st, t, end) && Quiet(t) && end.active > st.limit
  }

  /** That is so exactly when running and woken together exceed it. */
  lemma OverrunIsAhead(st: State)
    requires Inv(st)
    ensures CanOverrun(st) <==> st.active + |st.woken| > st.limit
  {
    if st.active + |st.woken| > st.limit { AllCanResume(st); } else { RoomMeansNoOverrun(st); }
  }

  lemma AllCanResume(st: State)
    requires Inv(st) && st.active + |st.woken| > st.limit
    ensures CanOverrun(st)
  {
    var t, end := ResumeSome(st, st.woken);
  }

  lemma RoomMeansNoOverrun(st: State)
    requires Inv(st) && st.active + |st.woken| <= st.limit
    ensures !CanOverrun(st)
  {
    forall t, end | Runs(st, t, end) && Quiet(t) ensures end.active <= st.limit { QuietRunsKeepRoom(st, t, end); }
  }

  lemma {:induction false} ResumeSome(st: State, some: set<Job>) returns (t: Trace, end: State)
    requires Inv(st) && some <= st.woken
    ensures Runs(st, t, end) && Quiet(t) && Inv(end)
    ensures end.active == st.active + |some| && end.woken == st.woken - some
    decreases some
  {
    if some == {} {
      t, end := Empty, st;
      assert st.woken - some == st.woken;
    } else {
      var j :| j in some;
      OneOut(st.woken, some, j);
      var before, mid := ResumeSome(st, some - {j});
      ResumeKeeps(mid, j);
      t, end := Then(before, Resume(j)), Next(mid, Resume(j));
    }
  }

  lemma OneOut(woken: set<Job>, some: set<Job>, j: Job)
    requires j in some && some <= woken
    ensures j in woken - (some - {j}) && (woken - (some - {j})) - {j} == woken - some
    ensures |some - {j}| == |some| - 1
  {
  }

  lemma {:induction false} QuietRunsKeepRoom(begin: State, t: Trace, end: State)
    requires Inv(begin) && begin.active + |begin.woken| <= begin.limit
    requires Runs(begin, t, end) && Quiet(t)
    ensures Inv(end) && end.limit == begin.limit && end.active + |end.woken| <= end.limit
    decreases t
  {
    if t.Then? {
      var mid :| Runs(begin, t.before, mid) && Enabled(mid, t.event) && end == Next(mid, t.event);
      QuietRunsKeepRoom(begin, t.before, mid);
      NextKeeps(mid, t.event);
      RoomIsKeptUnlessBarged(mid, t.event);
    }
  }

  /** A run in which a wake and its increment are one step: nothing is called while a job is woken. */
  ghost predicate Prompt(begin: State, t: Trace, end: State)
    decreases t
  {
    match t
    case Empty => end == begin
    case Then(before, e) => exists mid ::
      Prompt(begin, before, mid) && Enabled(mid, e) && end == Next(mid, e) && (e.Call? ==> mid.woken == {})
  }

  /** Then the limit holds. */
  lemma {:induction false} PromptRunsKeepTheLimit(limit: nat, t: Trace, st: State)
    requires Prompt(Init(limit), t, st)
    ensures Inv(st) && st.limit == limit && |st.running| + |st.woken| <= limit
    decreases t
  {
    if t.Then? {
      var mid :| Prompt(Init(limit), t.before, mid) && Enabled(mid, t.event) && st == Next(mid, t.event)
        && (t.event.Call? ==> mid.woken == {});
      PromptRunsKeepTheLimit(limit, t.before, mid);
      NextKeeps(mid, t.event);
      RoomIsKeptUnlessBarged(mid, t.event);
    }
  }

  function UpTo(n: nat): (r: set<Job>)
    ensures forall j: Job :: j in r <==> j < n
  {
    if n == 0 then {} else UpTo(n - 1) + {n - 1}
  }

  function Full(limit: nat, n: nat): State {
    State(limit, n, [], UpTo(n), {}, {}, [], [])
  }

  lemma {:induction false} FillUp(limit: nat, n: nat) returns (t: Trace)
    requires n <= limit
    ensures Runs(Init(limit), t, Full(limit, n))
  {
    if n == 0 {
      t := Empty;
    } else {
      var before := FillUp(limit, n - 1);
      t := Then(before, Call(n - 1));
      assert Next(Full(limit, n - 1), Call(n - 1)) == Full(limit, n);
      OneMore(Init(limit), before, Full(limit, n - 1), Call(n - 1));
    }
  }

  lemma OneMore(begin: State, t: Trace, mid: State, e: Event)
    requires Runs(begin, t, mid) && Enabled(mid, e)
    ensures Runs(begin, Then(t, e), Next(mid, e))
  {
  }

  /** A full limiter, one job waiting, one ended, one called before the woken job goes on. */
  function Freed(n: nat): State
    requires n > 0
  {
    State(n, n - 1, [], UpTo(n) - {0}, {n}, {0}, [n], [n])
  }

  lemma WaitOne(n: nat, t: Trace) returns (u: Trace)
    requires n > 0 && Runs(Init(n), t, Full(n, n))
    ensures Runs(Init(n), u, Full(n, n).(queue := [n], asked := [n]))
  {
    u := Then(t, Call(n));
    OneMore(Init(n), t, Full(n, n), Call(n));
    assert [] + [n] == [n];
  }

  lemma WakeOne(n: nat, t: Trace) returns (u: Trace)
    requires n > 0 && Runs(Init(n), t, Full(n, n).(queue := [n], asked := [n]))
    ensures Runs(Init(n), u, Freed(n))
  {
    u := Then(t, Finish(0));
    OneMore(Init(n), t, Full(n, n).(queue := [n], asked := [n]), Finish(0));
    assert [n][1..] == [] && [] + [n] == [n];
    assert {} + {0} == {0} && {} + {n} == {n};
  }

  lemma BargeIn(n: nat, t: Trace) returns (u: Trace, st: State)
    requires n > 0 && Runs(Init(n), t, Freed(n))
    ensures Runs(Init(n), u, st) && st.active == n + 1
  {
    var mid := Next(Freed(n), Call(n + 1));
    OneMore(Init(n), t, Freed(n), Call(n + 1));
    OneMore(Init(n), Then(t, Call(n + 1)), mid, Resume(n));
    u, st := Then(Then(t, Call(n + 1)), Resume(n)), Next(mid, Resume(n));
  }

  /** Without that it does not, whatever the limit: a call between a wake and its resumption makes one too many run. */
  lemma LimitCanBeExceeded(limit: nat) returns (t: Trace, st: State)
    requires limit > 0
    ensures Runs(Init(limit), t, st) && |st.running| == limit + 1
  {
    t := FillUp(limit, limit);
    t := WaitOne(limit, t);
    t := WakeOne(limit, t);
    t, st := BargeIn(limit, t);
    RunsKeep(Init(limit), t, st);
  }

  // -------------------------------------------------------------------- the object

  /** The limiter's closure variables, with the jobs it has in hand. */
  class PromiseLimiter {
    const limit: nat
    var active: int
    var queue: seq<Job>
    ghost var running: set<Job>
    ghost var woken: set<Job>
    ghost var done: set<Job>
    ghost var asked: seq<Job>
    ghost var served: seq<Job>

    ghost function Abs(): State reads this {
      State(limit, active, queue, running, woken, done, asked, served)
    }

    ghost predicate Valid() reads this { Inv(Abs()) }

    constructor (limit: nat)
      ensures Valid() && Abs() == Init(limit)
    {
      this.limit, active, queue := limit, 0, [];
      running, woken, done, asked, served := {}, {}, {}, [], [];
    }

    /** A call, up to its first wait: it starts at once, or joins the queue. */
    method Enter(j: Job) returns (started: bool)
      requires Valid() && Enabled(Abs(), Call(j))
      modifies this
      ensures Abs() == Next(old(Abs()), Call(j)) && Valid()
      ensures started <==> |old(running)| < limit
      ensures started ==> running == old(running) + {j} && |running| <= limit && queue == old(queue)
      ensures !started ==> running == old(running) && |running| + |woken| >= limit && queue == old(queue) + [j]
    {
      NextKeeps(Abs(), Call(j));
      if active >= limit {
        queue, asked := queue + [j], asked + [j];
        return false;
      }
      Start(j);
      return true;
    }

    method Start(j: Job)
      modifies this`active, this`running
      ensures active == old(active) + 1 && running == old(running) + {j}
    {
      active := active + 1;
      running := running + {j};
    }

    /** A woken job goes on: it counts itself without looking at the limit again. */
    method GoOn(j: Job)
      requires Valid() && Enabled(Abs(), Resume(j))
      modifies this
      ensures Abs() == Next(old(Abs()), Resume(j)) && Valid()
      ensures j in running && j !in woken && queue == old(queue)
      ensures |running| == |old(running)| + 1 && |running| + |woken| == |old(running)| + |old(woken)|
    {
      NextKeeps(Abs(), Resume(j));
      assert |woken - {j}| == |woken| - 1;
      woken := woken - {j};
      Start(j);
    }

    /** A job ended: its place is free, and the first in the queue is woken. */
    method Leave(j: Job) returns (next: Option<Job>)
      requires Valid() && Enabled(Abs(), Finish(j))
      modifies this
      ensures Abs() == Next(old(Abs()), Finish(j)) && Valid()
      ensures j in done && j !in running && j !in woken && j !in queue
      ensures if next.None? then old(queue) == [] && woken == old(woken)
              else next.value in woken && old(queue) == [next.value] + queue
      ensures queue != [] ==> |running| + |woken| >= limit
    {
      NextKeeps(Abs(), Finish(j));
      active := active - 1;
      running, done := running - {j}, done + {j};
      if queue == [] { return None; }
      next := Some(queue[0]);
      woken, served := woken + {queue[0]}, served + [queue[0]];
      queue := queue[1..];
    }
  }
}
