/** What holds of the tunnel protocol in every run, in every interleaving. */
module TunnelRuns {
  import opened Basics
  import opened TunnelModel
  import opened TunnelInvariant

  lemma {:induction false} RunsKeep(s: State, es: seq<Event>, u: State)
    requires Inv(s) && Runs(s, es, u)
    ensures Inv(u)
    decreases |es|
  {
    if es != [] {
      NextKeeps(s, es[0]);
      RunsKeep(Next(s, es[0]), es[1..], u);
    }
  }

  lemma InitHolds()
    ensures Inv(Init)
  {
    forall t ensures |Pending(Init.requests, t)| <= MAX_PENDING { assert Pending(Init.requests, t) == {}; }
  }

  /** Nothing of tunnel `t` is left running. */
  ghost predicate Disposed(s: State, t: SocketId) {
    && t in s.heap && !s.heap[t].pingArmed && NotOpen(s.sockets, t)
    && (forall id | id in s.requests && s.requests[id].tunnel == t ::
          !s.requests[id].timerArmed && !s.requests[id].outcome.Waiting?)
    && (forall c | c in s.channels && s.channels[c].tunnel == t :: NotOpen(s.sockets, s.channels[c].client))
  }

  /** Every tunnel ever installed is its host's map entry with a running timer, or is fully disposed. */
  lemma InstalledIsCurrentOrDisposed(es: seq<Event>, s: State, t: SocketId)
    requires Runs(Init, es, s) && t in s.heap
    ensures s.heap[t].pingArmed <==> exists h :: h in s.tunnels && s.tunnels[h] == t
    ensures (exists h :: h in s.tunnels && s.tunnels[h] == t) != Disposed(s, t)
  {
    InitHolds();
    RunsKeep(Init, es, s);
    if Current(s.tunnels, s.regs, t) {
      assert s.tunnels[s.regs[t].host] == t;
    }
  }

  ghost predicate RequestsGrow(was: Requests, now: Requests) {
    && was.Keys <= now.Keys
    && (forall id | id in was ::
          && now[id].tunnel == was[id].tunnel
          && (!was[id].outcome.Waiting? ==> now[id].outcome == was[id].outcome))
  }

  ghost predicate TunnelsShrink(was: Tunnels, now: Tunnels) {
    forall h | h in now :: h in was && now[h] == was[h]
  }

  /** No record is forgotten, settled outcomes stay, and while draining tunnels only leave the map. */
  ghost predicate Grows(s: State, r: State) {
    && s.heap.Keys <= r.heap.Keys
    && s.channels.Keys <= r.channels.Keys
    && RequestsGrow(s.requests, r.requests)
    && (s.draining ==> r.draining && r.heap.Keys == s.heap.Keys && TunnelsShrink(s.tunnels, r.tunnels))
  }

  lemma EvictGrows(s: State, h: HostId)
    ensures Grows(s, Evict(s, h))
  { }

  lemma InstallGrows(s: State, w: SocketId)
    requires Enabled(s, EAttempt(w, true)) && IsOpen(s.sockets, w) && !s.draining
    ensures Grows(s, AttemptDone(s, w, true))
  {
    EvictGrows(s, s.regs[w].host);
  }

  lemma PhaseGrows(s: State, w: SocketId, h: HostId, p: Phase, ss: Sockets, calls: seq<DirectoryCall>)
    ensures Grows(s, SetPhase(s.(sockets := ss, calls := calls), w, h, p))
  { }

  lemma StaysOut(s: State, w: SocketId, ok: bool)
    requires Enabled(s, EAttempt(w, ok)) && !(ok && IsOpen(s.sockets, w) && !s.draining)
    ensures var r := AttemptDone(s, w, ok);
      w in r.regs && r == SetPhase(s.(sockets := r.sockets, calls := r.calls), w, s.regs[w].host, r.regs[w].phase)
  {
    var r, h := AttemptDone(s, w, ok), s.regs[w].host;
    if ok {
      assert r == SetPhase(s.(calls := s.calls + [CompareAndDelete(h, w)]), w, h, RollingBack);
    } else if s.regs[w].phase.attempt == REGISTER_ATTEMPTS - 1 {
      assert r == SetPhase(s.(sockets := Close(s.sockets, w, 1011)), w, h, Done(WriteFailed));
    } else {
      assert r == SetPhase(s.(calls := s.calls + [Write(h, w)]), w, h, Writing(s.regs[w].phase.attempt + 1));
    }
  }

  lemma AttemptGrows(s: State, w: SocketId, ok: bool)
    requires Enabled(s, EAttempt(w, ok))
    ensures Grows(s, AttemptDone(s, w, ok))
  {
    if ok && IsOpen(s.sockets, w) && !s.draining {
      InstallGrows(s, w);
    } else {
      var r := AttemptDone(s, w, ok);
      StaysOut(s, w, ok);
      PhaseGrows(s, w, s.regs[w].host, r.regs[w].phase, r.sockets, r.calls);
    }
  }

  lemma RegistrationGrows(s: State, e: Event)
    requires Enabled(s, e) && (e.ERegister? || e.EAttempt? || e.ERollback? || e.EUnregister?)
    ensures Grows(s, Next(s, e))
  {
    match e
    case ERegister(w, h) => EvictGrows(s, h);
    case EAttempt(w, ok) => AttemptGrows(s, w, ok);
    case ERollback(w) =>
    case EUnregister(h, of) => EvictGrows(s, h);
  }

  lemma LifecycleGrows(s: State, e: Event)
    requires Enabled(s, e)
    requires e.EConnect? || e.ESocketDown? || e.EDrainBegin? || e.EDrainClear? || e.EDrainEnd? || e.EPing? || e.EPong?
    ensures Grows(s, Next(s, e))
  { }

  lemma RequestsMayGrow(s: State, rs: Requests, ss: Sockets)
    requires RequestsGrow(s.requests, rs)
    ensures Grows(s, s.(requests := rs, sockets := ss))
  { }

  lemma SendGrows(s: State, h: HostId, id: RequestId)
    requires id !in s.requests
    ensures Grows(s, SendRequest(s, h, id))
  {
    var r := SendRequest(s, h, id);
    RequestsMayGrow(s, r.requests, r.sockets);
  }

  lemma FinishGrows(s: State, id: RequestId, how: Outcome)
    requires id in s.requests
    ensures Grows(s, Finish(s, id, how))
  { }

  lemma ChannelsMayGrow(s: State, cs: Channels, ss: Sockets)
    requires s.channels.Keys <= cs.Keys
    ensures Grows(s, s.(channels := cs, sockets := ss))
  { }

  lemma OpenGrows(s: State, h: HostId, id: ChannelId, client: SocketId)
    ensures Grows(s, OpenChannel(s, h, id, client))
  {
    if CanOpen(s, h) {
      ChannelsMayGrow(s, s.channels[id := Channel(s.tunnels[h], client, true)], Send(s.sockets, s.tunnels[h], WsOpen(id)));
    } else {
      ChannelsMayGrow(s, s.channels, Close(s.sockets, client, 1011));
    }
  }

  lemma UnlistGrows(s: State, h: HostId, id: ChannelId, ss: Sockets)
    ensures Grows(s, Unlist(s, h, id).(sockets := ss))
  {
    ChannelsMayGrow(s, Unlist(s, h, id).channels, ss);
  }

  lemma TrafficGrows(s: State, e: Event)
    requires Enabled(s, e) && (e.ESend? || e.EResponse? || e.ETimeout? || e.EOpen?)
    ensures Grows(s, Next(s, e))
  {
    match e
    case ESend(h, id) => SendGrows(s, h, id);
    case EResponse(h, id) => if Response(s, h, id) != s { FinishGrows(s, id, Resolved); }
    case ETimeout(id) => FinishGrows(s, id, TimedOut);
    case EOpen(h, ch, client) => OpenGrows(s, h, ch, client);
  }

  lemma FramesGrow(s: State, e: Event)
    requires Enabled(s, e) && (e.EClientFrame? || e.EHostFrame? || e.EClientGone? || e.EHostClose?)
    ensures Grows(s, Next(s, e))
  {
    match e
    case EClientFrame(h, ch, data) => ChannelsMayGrow(s, s.channels, ClientFrame(s, h, ch, data).sockets);
    case EHostFrame(h, ch, data) => ChannelsMayGrow(s, s.channels, HostFrame(s, h, ch, data).sockets);
    case EClientGone(h, ch) => UnlistGrows(s, h, ch, CloseChannel(s, h, ch).sockets);
    case EHostClose(h, ch, code) => UnlistGrows(s, h, ch, HostClose(s, h, ch, code).sockets);
  }

  lemma NextGrows(s: State, e: Event)
    requires Enabled(s, e)
    ensures Grows(s, Next(s, e))
  {
    if e.ERegister? || e.EAttempt? || e.ERollback? || e.EUnregister? {
      RegistrationGrows(s, e);
    } else if e.ESend? || e.EResponse? || e.ETimeout? || e.EOpen? {
      TrafficGrows(s, e);
    } else if e.EClientFrame? || e.EHostFrame? || e.EClientGone? || e.EHostClose? {
      FramesGrow(s, e);
    } else {
      LifecycleGrows(s, e);
    }
  }

  lemma {:induction false} RunsGrow(s: State, es: seq<Event>, u: State)
    requires Runs(s, es, u)
    ensures Grows(s, u)
    decreases |es|
  {
    if es != [] {
      NextGrows(s, es[0]);
      RunsGrow(Next(s, es[0]), es[1..], u);
    }
  }

  /** A request settles once: later responses, timeouts and repeated disposals change nothing. */
  lemma SettledStaysSettled(s: State, es: seq<Event>, u: State, id: RequestId)
    requires Runs(s, es, u) && id in s.requests
    ensures id in u.requests && u.requests[id].tunnel == s.requests[id].tunnel
    ensures !s.requests[id].outcome.Waiting? ==> u.requests[id].outcome == s.requests[id].outcome
  {
    RunsGrow(s, es, u);
  }

  /** Conservation: an accepted request waits in a live tunnel with its timer armed, or has one outcome. */
  lemma RequestsAreConserved(es: seq<Event>, s: State, id: RequestId)
    requires Runs(Init, es, s) && id in s.requests
    ensures var r := s.requests[id];
      (r.outcome.Waiting? && r.timerArmed && r.listed && r.tunnel in Values(s.tunnels)) !=
      ((r.outcome.Resolved? || r.outcome.TimedOut? || r.outcome.Rejected?) && !r.timerArmed)
    ensures |Pending(s.requests, s.requests[id].tunnel)| <= MAX_PENDING
  {
    InitHolds();
    RunsKeep(Init, es, s);
  }

  /** A channel's client is open only while a current tunnel lists the channel. */
  lemma OpenClientsAreHeld(es: seq<Event>, s: State, c: ChannelId)
    requires Runs(Init, es, s) && c in s.channels && IsOpen(s.sockets, s.channels[c].client)
    ensures s.channels[c].listed && s.channels[c].tunnel in Values(s.tunnels)
  {
    InitHolds();
    RunsKeep(Init, es, s);
  }

  /** The close handler of a replaced or disposed socket removes nothing, whatever host it names. */
  lemma StaleCloseSparesSuccessor(es: seq<Event>, s: State, w: SocketId, h: HostId)
    requires Runs(Init, es, s) && Disposed(s, w)
    ensures Next(s, EUnregister(h, Some(w))) == s
  {
    InitHolds();
    RunsKeep(Init, es, s);
  }

  /** Frames and requests reach only the socket they were opened for. */
  lemma NoTrafficCrosses(es: seq<Event>, s: State, w: SocketId, m: Message)
    requires Runs(Init, es, s) && w in s.sockets && m in s.sockets[w].sent
    ensures m.Http? ==> m.request in s.requests && s.requests[m.request].tunnel == w
    ensures m.WsOpen? ==> m.channel in s.channels && s.channels[m.channel].tunnel == w
    ensures m.Payload? ==> m.channel in s.channels && s.channels[m.channel].client == w
  {
    InitHolds();
    RunsKeep(Init, es, s);
    assert Belongs(s.requests, s.channels, s.regs, w, m);
  }

  /** A tunnel that missed its pings has been told to go. */
  lemma SilentTunnelsAreShut(es: seq<Event>, s: State, t: SocketId)
    requires Runs(Init, es, s) && t in s.heap && s.heap[t].missed >= PING_TIMEOUT_MISSED
    ensures NotOpen(s.sockets, t)
  {
    InitHolds();
    RunsKeep(Init, es, s);
  }

  /** Registrations keep their host, and the directory calls and installed tunnels only grow. */
  ghost predicate Remembers(s: State, r: State) {
    s.calls <= r.calls && s.heap.Keys <= r.heap.Keys && RegsKept(s.regs, r.regs)
  }

  ghost predicate RegsKept(was: Regs, now: Regs) {
    forall w | w in was :: w in now && now[w].host == was[w].host
  }

  lemma MoveRemembers(s: State, r: State, w: SocketId, p: Phase, more: seq<DirectoryCall>)
    requires w in s.regs && r.regs == s.regs[w := Registration(s.regs[w].host, p)]
    requires s.heap.Keys <= r.heap.Keys && r.calls == s.calls + more
    ensures Remembers(s, r)
  {
  }

  lemma InstallRemembers(s: State, w: SocketId)
    requires w in s.regs
    ensures Remembers(s, Install(s, w, s.regs[w].host))
  {
    EvictGrows(s, s.regs[w].host);
    assert s.calls + [] == s.calls;
    MoveRemembers(s, Install(s, w, s.regs[w].host), w, Done(Installed), []);
  }

  lemma WrittenRemembers(s: State, w: SocketId)
    requires w in s.regs && s.regs[w].phase.Writing?
    ensures Remembers(s, AttemptDone(s, w, true))
  {
    var h := s.regs[w].host;
    if IsOpen(s.sockets, w) && !s.draining {
      InstallRemembers(s, w);
    } else {
      MoveRemembers(s, AttemptDone(s, w, true), w, RollingBack, [CompareAndDelete(h, w)]);
    }
  }

  lemma UnwrittenRemembers(s: State, w: SocketId)
    requires w in s.regs && s.regs[w].phase.Writing?
    ensures Remembers(s, AttemptDone(s, w, false))
  {
    var h, i := s.regs[w].host, s.regs[w].phase.attempt;
    if i == REGISTER_ATTEMPTS - 1 {
      assert s.calls + [] == s.calls;
      MoveRemembers(s, AttemptDone(s, w, false), w, Done(WriteFailed), []);
    } else {
      MoveRemembers(s, AttemptDone(s, w, false), w, Writing(i + 1), [Write(h, w)]);
    }
  }

  lemma RegisterRemembers(s: State, w: SocketId, h: HostId)
    requires w !in s.regs
    ensures Remembers(s, RegisterBegin(s, w, h))
  {
  }

  lemma CallRemembers(s: State, r: State, call: DirectoryCall)
    requires r.regs == s.regs && s.heap.Keys <= r.heap.Keys && (r.calls == s.calls || r.calls == s.calls + [call])
    ensures Remembers(s, r)
  {
  }

  lemma RegistrationRemembers(s: State, e: Event)
    requires Enabled(s, e) && (e.ERegister? || e.EAttempt? || e.ERollback?)
    ensures Remembers(s, Next(s, e))
  {
    match e
    case ERegister(w, h) => RegisterRemembers(s, w, h);
    case EAttempt(w, ok) => if ok { WrittenRemembers(s, w); } else { UnwrittenRemembers(s, w); }
    case ERollback(w) =>
      assert s.calls + [] == s.calls;
      MoveRemembers(s, Next(s, e), w, Done(RolledBack), []);
  }

  predicate Quiet(e: Event) {
    !e.ERegister? && !e.EAttempt? && !e.ERollback? && !e.EUnregister? && !e.EPong?
  }

  /** Only the host's requests, channels and frames: the protocol's own tables stay. */
  predicate Traffic(e: Event) {
    e.ESend? || e.EResponse? || e.ETimeout? || e.EOpen? || e.EClientFrame? || e.EClientGone? || e.EHostFrame? || e.EHostClose?
  }

  predicate ProtocolKept(s: State, r: State) {
    r.regs == s.regs && r.calls == s.calls && r.tunnels == s.tunnels
  }

  lemma OpenKeepsProtocol(s: State, h: HostId, ch: ChannelId, client: SocketId)
    ensures ProtocolKept(s, OpenChannel(s, h, ch, client))
  { }

  lemma UnlistKeepsProtocol(s: State, h: HostId, ch: ChannelId)
    ensures ProtocolKept(s, Unlist(s, h, ch))
  { }

  lemma CloseKeepsProtocol(s: State, h: HostId, ch: ChannelId, code: Option<int>)
    ensures ProtocolKept(s, CloseChannel(s, h, ch)) && ProtocolKept(s, HostClose(s, h, ch, code))
  {
    UnlistKeepsProtocol(s, h, ch);
  }

  lemma FramesKeepProtocol(s: State, e: Event)
    requires Enabled(s, e) && (e.EOpen? || e.EClientFrame? || e.EClientGone? || e.EHostFrame? || e.EHostClose?)
    ensures ProtocolKept(s, Next(s, e))
  {
    match e
    case EOpen(h, ch, client) => OpenKeepsProtocol(s, h, ch, client);
    case EClientGone(h, ch) => CloseKeepsProtocol(s, h, ch, None);
    case EHostClose(h, ch, code) => CloseKeepsProtocol(s, h, ch, code);
    case _ =>
  }

  lemma TrafficKeepsProtocol(s: State, e: Event)
    requires Enabled(s, e) && Traffic(e)
    ensures ProtocolKept(s, Next(s, e))
  {
    if !(e.ESend? || e.EResponse? || e.ETimeout?) { FramesKeepProtocol(s, e); }
  }

  /** The rest change no registration; tunnels only go, and only the drain's clear is called. */
  lemma QuietSteps(s: State, e: Event)
    requires Enabled(s, e) && Quiet(e)
    ensures var r := Next(s, e);
      && r.regs == s.regs && (r.calls == s.calls || r.calls == s.calls + [ClearOwn])
      && TunnelsShrink(s.tunnels, r.tunnels)
  {
    if Traffic(e) { TrafficKeepsProtocol(s, e); }
  }

  lemma NextRemembers(s: State, e: Event)
    requires Enabled(s, e)
    ensures Remembers(s, Next(s, e))
  {
    NextGrows(s, e);
    if Quiet(e) {
      QuietSteps(s, e);
      CallRemembers(s, Next(s, e), ClearOwn);
    } else if e.EUnregister? {
      CallRemembers(s, Next(s, e), CompareAndDelete(e.h, if e.h in s.tunnels then s.tunnels[e.h] else 0));
    } else if e.EPong? {
      CallRemembers(s, Next(s, e), Heartbeat(e.h));
    } else {
      RegistrationRemembers(s, e);
    }
  }

  lemma {:induction false} RunsRemember(s: State, es: seq<Event>, u: State)
    requires Runs(s, es, u)
    ensures Remembers(s, u)
    decreases |es|
  {
    if es != [] {
      NextRemembers(s, es[0]);
      RunsRemember(Next(s, es[0]), es[1..], u);
    }
  }

  lemma WriteIsAnswered(s: State, w: SocketId)
    requires Enabled(s, EAttempt(w, true))
    ensures var r := AttemptDone(s, w, true);
      w in r.regs && r.regs[w].host == s.regs[w].host && (w in r.heap || CompareAndDelete(s.regs[w].host, w) in r.calls)
  {
    var r := AttemptDone(s, w, true);
    if w !in r.heap { assert r.calls[|s.calls|] == CompareAndDelete(s.regs[w].host, w); }
  }

  /** A registration whose directory write succeeded is installed, or its compare-and-delete is issued. */
  lemma {:induction false} WritesAreAnsweredFor(s: State, es: seq<Event>, u: State, w: SocketId)
    requires Runs(s, es, u) && EAttempt(w, true) in es
    ensures w in u.regs && (w in u.heap || CompareAndDelete(u.regs[w].host, w) in u.calls)
    decreases |es|
  {
    var next := Next(s, es[0]);
    if es[0] == EAttempt(w, true) {
      RunsRemember(next, es[1..], u);
      WriteIsAnswered(s, w);
      assert forall c | c in next.calls :: c in u.calls;
    } else {
      assert EAttempt(w, true) in es[1..];
      WritesAreAnsweredFor(next, es[1..], u, w);
    }
  }

  /** However a registration ends, its socket is a tunnel or shut; one whose directory write succeeded without
      becoming a tunnel has issued its compare-and-delete, and the others of these have not. */
  lemma RegistrationsEnd(es: seq<Event>, s: State, w: SocketId)
    requires Runs(Init, es, s) && w in s.regs && s.regs[w].phase.Done?
    ensures s.regs[w].phase.how.Installed? <==> w in s.heap
    ensures w !in s.heap ==> NotOpen(s.sockets, w)
    ensures w !in s.heap ==>
      (s.regs[w].phase.how.RolledBack? <==> CompareAndDelete(s.regs[w].host, w) in s.calls)
    ensures w !in s.heap && EAttempt(w, true) in es ==> CompareAndDelete(s.regs[w].host, w) in s.calls
  {
    InitHolds();
    RunsKeep(Init, es, s);
    assert RegOk(s.regs[w], w, NotOpen(s.sockets, w), s.draining, s.calls);
    if EAttempt(w, true) in es { WritesAreAnsweredFor(Init, es, s, w); }
  }

  // ------------------------------------------------------------- draining

  /** Once draining, no tunnel is ever installed again, whichever registrations were suspended. */
  lemma DrainingInstallsNothing(s: State, es: seq<Event>, u: State)
    requires s.draining && Runs(s, es, u)
    ensures u.draining && u.heap.Keys == s.heap.Keys
    ensures forall h | h in u.tunnels :: h in s.tunnels && u.tunnels[h] == s.tunnels[h]
  {
    RunsGrow(s, es, u);
  }

  /** While draining, every registration that finishes ends with its socket shut. */
  lemma DrainingRegistrationsAreShut(before: seq<Event>, s: State, es: seq<Event>, u: State, w: SocketId)
    requires Runs(Init, before, s) && s.draining && Runs(s, es, u)
    requires w in u.regs && u.regs[w].phase.Done? && !(w in s.regs && s.regs[w].phase.Done?)
    ensures w !in u.heap && NotOpen(u.sockets, w)
  {
    InitHolds();
    RunsKeep(Init, before, s);
    RunsKeep(s, es, u);
    DrainingInstallsNothing(s, es, u);
    UninstalledIsShut(u, w);
  }

  lemma UninstalledIsShut(u: State, w: SocketId)
    requires Inv(u) && w in u.regs && u.regs[w].phase.Done? && w !in u.heap
    ensures NotOpen(u.sockets, w)
  {
    assert RegOk(u.regs[w], w, NotOpen(u.sockets, w), u.draining, u.calls);
  }

  lemma EmptyMapMeansDisposed(u: State)
    requires Inv(u) && u.tunnels == map[]
    ensures forall t | t in u.heap :: Disposed(u, t)
    ensures forall id | id in u.requests :: !u.requests[id].outcome.Waiting? && !u.requests[id].timerArmed
    ensures forall w | w in u.regs && u.regs[w].phase.Done? :: NotOpen(u.sockets, w)
    ensures forall c | c in u.channels :: NotOpen(u.sockets, u.channels[c].client)
  {
    forall w | w in u.regs && u.regs[w].phase.Done? ensures NotOpen(u.sockets, w) {
      assert RegOk(u.regs[w], w, NotOpen(u.sockets, w), u.draining, u.calls);
    }
  }

  /** From the moment a drain returns, and for ever after, nothing is left of any tunnel. */
  lemma DrainedForGood(before: seq<Event>, s: State, d: DrainId, after: seq<Event>, u: State)
    requires Runs(Init, before, s) && Enabled(s, EDrainEnd(d)) && Runs(Next(s, EDrainEnd(d)), after, u)
    ensures u.tunnels == map[]
    ensures forall t | t in u.heap :: Disposed(u, t)
    ensures forall id | id in u.requests :: !u.requests[id].outcome.Waiting? && !u.requests[id].timerArmed
    ensures forall w | w in u.regs && u.regs[w].phase.Done? :: NotOpen(u.sockets, w)
    ensures forall c | c in u.channels :: NotOpen(u.sockets, u.channels[c].client)
  {
    EmptyAfterDrain(before, s, d, after, u);
    EmptyMapMeansDisposed(u);
  }

  lemma EmptyAfterDrain(before: seq<Event>, s: State, d: DrainId, after: seq<Event>, u: State)
    requires Runs(Init, before, s) && Enabled(s, EDrainEnd(d)) && Runs(Next(s, EDrainEnd(d)), after, u)
    ensures Inv(u) && u.tunnels == map[]
  {
    InitHolds();
    RunsKeep(Init, before, s);
    NextKeeps(s, EDrainEnd(d));
    DrainEndKeeps(s, d);
    assert s.draining;
    DrainingInstallsNothing(Next(s, EDrainEnd(d)), after, u);
    RunsKeep(Next(s, EDrainEnd(d)), after, u);
  }
}
