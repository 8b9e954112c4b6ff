/** Everything others can observe of a run of the relay: what each socket is sent and closed with, which directory calls are
    made, and how each request settles (apps/relay/src/tunnel.ts). */
module TunnelTranscript {
  import opened Basics
  import opened TunnelModel
  import opened TunnelInvariant
  import opened TunnelRuns

  predicate Serves(s: State, h: HostId, w: SocketId) {
    h in s.tunnels && s.tunnels[h] == w
  }

  /** The registration's write came back in time. */
  predicate Installs(s: State, e: Event) {
    e.EAttempt? && e.ok && IsOpen(s.sockets, e.w) && !s.draining
  }

  // ------------------------------------------------------------------- what is sent

  /** What a step lets a socket hear, if it is open. */
  function Heard(s: State, e: Event, w: SocketId): seq<Message> {
    if !IsOpen(s.sockets, w) then []
    else
      match e
      case EDrainBegin(_) => if exists h | h in s.tunnels :: s.tunnels[h] == w then [DrainNotice] else []
      case EPing(t) => if t == w && w in s.heap && s.heap[w].missed + 1 < PING_TIMEOUT_MISSED then [Ping] else []
      case ESend(h, id) => if Serves(s, h, w) && |Pending(s.requests, w)| < MAX_PENDING then [Http(id)] else []
      case EOpen(h, ch, _) => if Serves(s, h, w) then [WsOpen(ch)] else []
      case EClientFrame(h, ch, data) => if Serves(s, h, w) then [WsFrame(ch, data)] else []
      case EClientGone(h, ch) => if Serves(s, h, w) then [WsClose(ch)] else []
      case EHostFrame(h, ch, data) => if HasChannel(s, h, ch) && s.channels[ch].client == w then [Payload(ch, data)] else []
      case _ => []
  }

  /** Nobody hears anything, and what is shut stays as it is. */
  ghost predicate Silent(ss: Sockets, rr: Sockets) {
    forall w | w in ss :: w in rr && rr[w].sent == ss[w].sent && (!ss[w].ready.Open? ==> rr[w] == ss[w])
  }

  lemma ClosingIsSilent(ss: Sockets, w: SocketId, clients: set<SocketId>, ts: set<SocketId>, code: int)
    ensures Silent(ss, Close(ss, w, code)) && Silent(ss, CloseTunnels(ss, clients, ts, code)) && Silent(ss, ss)
  { }

  lemma EvictIsSilent(s: State, h: HostId)
    ensures Silent(s.sockets, Evict(s, h).sockets)
  {
    if h in s.tunnels { ClosingIsSilent(s.sockets, 0, Clients(s.channels, {s.tunnels[h]}), {s.tunnels[h]}, 1000); }
  }

  /** The phase of the registration a step is about. */
  function PhaseAfter(s: State, e: Event): Phase
    requires Enabled(s, e) && (e.ERegister? || e.EAttempt? || e.ERollback?)
  {
    match e
    case ERegister(_, _) => if s.draining then Done(Refused) else Writing(0)
    case EAttempt(w, ok) =>
      if Installs(s, e) then Done(Ending.Installed)
      else if ok then RollingBack
      else if s.regs[w].phase.attempt == REGISTER_ATTEMPTS - 1 then Done(WriteFailed)
      else Writing(s.regs[w].phase.attempt + 1)
    case _ => Done(RolledBack)
  }

  function AttemptSockets(s: State, w: SocketId, ok: bool): Sockets
    requires w in s.regs && s.regs[w].phase.Writing?
  {
    if !ok && s.regs[w].phase.attempt == REGISTER_ATTEMPTS - 1 then Close(s.sockets, w, 1011) else s.sockets
  }

  lemma InstalledShape(s: State, w: SocketId)
    requires w in s.regs && s.regs[w].phase.Writing? && Installs(s, EAttempt(w, true))
    ensures AttemptDone(s, w, true) == Install(s, w, s.regs[w].host)
  { }

  /** An attempt that installs nothing changes the registration, and perhaps its socket and the calls. */
  lemma UninstalledShape(s: State, w: SocketId, ok: bool)
    requires w in s.regs && s.regs[w].phase.Writing? && !Installs(s, EAttempt(w, ok))
    ensures AttemptDone(s, w, ok) == SetPhase(
      s.(sockets := AttemptSockets(s, w, ok), calls := AttemptDone(s, w, ok).calls), w, s.regs[w].host, PhaseAfter(s, EAttempt(w, ok)))
  {
    if !ok { UnwrittenShape(s, w); }
  }

  lemma UnwrittenShape(s: State, w: SocketId)
    requires w in s.regs && s.regs[w].phase.Writing?
    ensures AttemptDone(s, w, false) == SetPhase(
      s.(sockets := AttemptSockets(s, w, false), calls := AttemptDone(s, w, false).calls), w, s.regs[w].host, PhaseAfter(s, EAttempt(w, false)))
  {
    var h, i := s.regs[w].host, s.regs[w].phase.attempt;
    if i == REGISTER_ATTEMPTS - 1 {
      GivenUpShape(s, w);
      assert s.(sockets := Close(s.sockets, w, 1011), calls := s.calls) == s.(sockets := Close(s.sockets, w, 1011));
    } else {
      TriedAgainShape(s, w);
      assert s.(sockets := s.sockets, calls := s.calls + [Write(h, w)]) == s.(calls := s.calls + [Write(h, w)]);
    }
  }

  lemma GivenUpShape(s: State, w: SocketId)
    requires w in s.regs && s.regs[w].phase == Writing(REGISTER_ATTEMPTS - 1)
    ensures AttemptDone(s, w, false) == SetPhase(s.(sockets := Close(s.sockets, w, 1011)), w, s.regs[w].host, Done(WriteFailed))
    ensures AttemptDone(s, w, false).calls == s.calls
  { }

  lemma TriedAgainShape(s: State, w: SocketId)
    requires w in s.regs && s.regs[w].phase.Writing? && s.regs[w].phase.attempt != REGISTER_ATTEMPTS - 1
    ensures AttemptDone(s, w, false) == SetPhase(
      s.(calls := s.calls + [Write(s.regs[w].host, w)]), w, s.regs[w].host, Writing(s.regs[w].phase.attempt + 1))
    ensures AttemptDone(s, w, false).calls == s.calls + [Write(s.regs[w].host, w)]
  { }

  lemma AttemptIsSilent(s: State, w: SocketId, ok: bool)
    requires w in s.regs && s.regs[w].phase.Writing?
    ensures Silent(s.sockets, AttemptDone(s, w, ok).sockets)
  {
    if Installs(s, EAttempt(w, ok)) {
      InstalledShape(s, w);
      EvictIsSilent(s, s.regs[w].host);
    } else {
      UninstalledShape(s, w, ok);
      ClosingIsSilent(s.sockets, w, {}, {}, 1011);
    }
  }

  lemma RegisterIsSilent(s: State, w: SocketId, h: HostId)
    ensures Silent(s.sockets, RegisterBegin(s, w, h).sockets)
  {
    EvictIsSilent(s, h);
    ClosingIsSilent(s.sockets, w, {}, {}, WS_CLOSE_DRAIN);
  }

  lemma RegistrationIsSilent(s: State, e: Event)
    requires Enabled(s, e) && (e.ERegister? || e.EAttempt? || e.ERollback? || e.EUnregister?)
    ensures Silent(s.sockets, Next(s, e).sockets)
  {
    match e
    case ERegister(w, h) => RegisterIsSilent(s, w, h);
    case EAttempt(w, ok) => AttemptIsSilent(s, w, ok);
    case ERollback(w) => ClosingIsSilent(s.sockets, w, {}, {}, WS_CLOSE_DRAIN);
    case EUnregister(h, _) => EvictIsSilent(s, h);
  }

  /** An open socket is sent just this, and what is shut stays as it is. */
  ghost predicate HearsOnly(s: State, e: Event, r: State, w: SocketId)
    requires w in s.sockets
  {
    && w in r.sockets && r.sockets[w].sent == s.sockets[w].sent + Heard(s, e, w)
    && (!s.sockets[w].ready.Open? ==> !r.sockets[w].ready.Open? && r.sockets[w].closeCode == s.sockets[w].closeCode)
  }

  lemma LifecycleIsHeard(s: State, e: Event, w: SocketId)
    requires Enabled(s, e) && w in s.sockets
    requires e.EConnect? || e.ESocketDown? || e.EDrainBegin? || e.EDrainClear? || e.EDrainEnd? || e.EPing? || e.EPong?
    ensures HearsOnly(s, e, Next(s, e), w)
  { }

  lemma SendIsHeard(s: State, h: HostId, id: RequestId, w: SocketId)
    requires w in s.sockets
    ensures HearsOnly(s, ESend(h, id), SendRequest(s, h, id), w)
  { }

  lemma SettlingIsHeard(s: State, e: Event, w: SocketId)
    requires Enabled(s, e) && w in s.sockets && (e.EResponse? || e.ETimeout?)
    ensures HearsOnly(s, e, Next(s, e), w)
  { }

  lemma OpenedIsHeard(s: State, h: HostId, ch: ChannelId, client: SocketId, w: SocketId)
    requires w in s.sockets && CanOpen(s, h)
    ensures HearsOnly(s, EOpen(h, ch, client), OpenChannel(s, h, ch, client), w)
  { }

  lemma UnopenedIsHeard(s: State, h: HostId, ch: ChannelId, client: SocketId, w: SocketId)
    requires w in s.sockets && !CanOpen(s, h)
    ensures HearsOnly(s, EOpen(h, ch, client), OpenChannel(s, h, ch, client), w)
  { }

  lemma OpenIsHeard(s: State, h: HostId, ch: ChannelId, client: SocketId, w: SocketId)
    requires w in s.sockets
    ensures HearsOnly(s, EOpen(h, ch, client), OpenChannel(s, h, ch, client), w)
  {
    if CanOpen(s, h) { OpenedIsHeard(s, h, ch, client, w); } else { UnopenedIsHeard(s, h, ch, client, w); }
  }

  lemma ClientFrameIsHeard(s: State, h: HostId, ch: ChannelId, data: string, w: SocketId)
    requires w in s.sockets
    ensures HearsOnly(s, EClientFrame(h, ch, data), ClientFrame(s, h, ch, data), w)
  { }

  lemma HostFrameIsHeard(s: State, h: HostId, ch: ChannelId, data: string, w: SocketId)
    requires w in s.sockets
    ensures HearsOnly(s, EHostFrame(h, ch, data), HostFrame(s, h, ch, data), w)
  { }

  lemma LeavingIsHeard(s: State, h: HostId, ch: ChannelId, w: SocketId)
    requires w in s.sockets
    ensures HearsOnly(s, EClientGone(h, ch), CloseChannel(s, h, ch), w)
  { }

  lemma HostClosesAreHeard(s: State, h: HostId, ch: ChannelId, code: Option<int>, w: SocketId)
    requires w in s.sockets
    ensures HearsOnly(s, EHostClose(h, ch, code), HostClose(s, h, ch, code), w)
  { }

  lemma TrafficIsHeard(s: State, e: Event, w: SocketId)
    requires Enabled(s, e) && w in s.sockets && Traffic(e)
    ensures HearsOnly(s, e, Next(s, e), w)
  {
    match e
    case EOpen(h, ch, client) => OpenIsHeard(s, h, ch, client, w);
    case EClientGone(h, ch) => LeavingIsHeard(s, h, ch, w);
    case EHostClose(h, ch, code) => HostClosesAreHeard(s, h, ch, code, w);
    case EClientFrame(h, ch, data) => ClientFrameIsHeard(s, h, ch, data, w);
    case EHostFrame(h, ch, data) => HostFrameIsHeard(s, h, ch, data, w);
    case ESend(h, id) => SendIsHeard(s, h, id, w);
    case _ => SettlingIsHeard(s, e, w);
  }

  /** A step sends each socket exactly this. */
  lemma StepIsHeard(s: State, e: Event, w: SocketId)
    requires Enabled(s, e) && w in s.sockets
    ensures HearsOnly(s, e, Next(s, e), w)
  {
    if Traffic(e) {
      TrafficIsHeard(s, e, w);
    } else if e.ERegister? || e.EAttempt? || e.ERollback? || e.EUnregister? {
      RegistrationIsSilent(s, e);
      assert s.sockets[w].sent + [] == s.sockets[w].sent;
    } else {
      LifecycleIsHeard(s, e, w);
    }
  }

  function Transcript(s: State, es: seq<Event>, w: SocketId): seq<Message>
    decreases |es|
  {
    if es == [] || !Enabled(s, es[0]) then [] else Heard(s, es[0], w) + Transcript(Next(s, es[0]), es[1..], w)
  }

  /** Over any run, a socket is sent exactly what the steps let it hear, in order. */
  lemma {:induction false} RunsAreHeard(s: State, es: seq<Event>, u: State, w: SocketId)
    requires Runs(s, es, u) && w in s.sockets
    ensures w in u.sockets && u.sockets[w].sent == s.sockets[w].sent + Transcript(s, es, w)
    decreases |es|
  {
    if es == [] {
      assert s.sockets[w].sent + [] == s.sockets[w].sent;
    } else {
      StepIsHeard(s, es[0], w);
      RunsAreHeard(Next(s, es[0]), es[1..], u, w);
      Regroup(s.sockets[w].sent, Heard(s, es[0], w), Transcript(Next(s, es[0]), es[1..], w));
    }
  }

  lemma Regroup<T>(a: seq<T>, b: seq<T>, c: seq<T>)
    ensures (a + b) + c == a + (b + c)
  { }

  /** The client frames of a channel among the messages. */
  function Frames(ms: seq<Message>, ch: ChannelId): seq<string> {
    if ms == [] then []
    else (if ms[0].WsFrame? && ms[0].channel == ch then [ms[0].data] else []) + Frames(ms[1..], ch)
  }

  lemma {:induction false} FramesJoin(a: seq<Message>, b: seq<Message>, ch: ChannelId)
    ensures Frames(a + b, ch) == Frames(a, ch) + Frames(b, ch)
  {
    if a == [] {
      assert a + b == b && [] + Frames(b, ch) == Frames(b, ch);
    } else {
      FramesJoin(a[1..], b, ch);
      assert (a + b)[1..] == a[1..] + b && (a + b)[0] == a[0];
      Regroup(if a[0].WsFrame? && a[0].channel == ch then [a[0].data] else [], Frames(a[1..], ch), Frames(b, ch));
    }
  }

  /** The frames the client of a channel hands over while socket `w` serves the host and is open. */
  function Handed(s: State, es: seq<Event>, w: SocketId, ch: ChannelId): seq<string>
    decreases |es|
  {
    if es == [] || !Enabled(s, es[0]) then []
    else
      var e := es[0];
      (if e.EClientFrame? && e.ch == ch && Serves(s, e.h, w) && IsOpen(s.sockets, w) then [e.data] else [])
      + Handed(Next(s, e), es[1..], w, ch)
  }

  lemma HeardFrames(s: State, e: Event, w: SocketId, ch: ChannelId)
    ensures Frames(Heard(s, e, w), ch) ==
      if e.EClientFrame? && e.ch == ch && Serves(s, e.h, w) && IsOpen(s.sockets, w) then [e.data] else []
  {
    var ms := Heard(s, e, w);
    if ms != [] { assert |ms| == 1 && ms[1..] == []; }
  }

  /** The frames of a channel that a tunnel's socket carries are exactly those its client handed over, in order. */
  lemma {:induction false} ClientFramesArrive(s: State, es: seq<Event>, u: State, w: SocketId, ch: ChannelId)
    requires Runs(s, es, u) && w in s.sockets
    ensures w in u.sockets && Frames(u.sockets[w].sent, ch) == Frames(s.sockets[w].sent, ch) + Handed(s, es, w, ch)
    decreases |es|
  {
    if es == [] {
      assert Frames(s.sockets[w].sent, ch) + [] == Frames(s.sockets[w].sent, ch);
    } else {
      StepIsHeard(s, es[0], w);
      FramesJoin(s.sockets[w].sent, Heard(s, es[0], w), ch);
      HeardFrames(s, es[0], w, ch);
      ClientFramesArrive(Next(s, es[0]), es[1..], u, w, ch);
      Regroup(Frames(s.sockets[w].sent, ch), Frames(Heard(s, es[0], w), ch), Handed(Next(s, es[0]), es[1..], w, ch));
    }
  }

  // --------------------------------------------------------------- how sockets are shut

  /** The step does away with tunnel `t`. */
  predicate Retires(s: State, e: Event, t: SocketId) {
    match e
    case ERegister(_, h) => !s.draining && Serves(s, h, t)
    case EAttempt(w, _) => w in s.regs && Installs(s, e) && Serves(s, s.regs[w].host, t)
    case EUnregister(h, of) => Serves(s, h, t) && (of.None? || of.value == t)
    case EDrainEnd(d) => d in s.drains && t in s.drains[d].snapshot
    case _ => false
  }

  /** A client of a channel listed by a tunnel the step does away with. */
  predicate RetiredClient(s: State, e: Event, w: SocketId) {
    exists c | c in s.channels :: s.channels[c].client == w && s.channels[c].listed && Retires(s, e, s.channels[c].tunnel)
  }

  /** The code an open socket is shut with by a step, if it is. */
  function ShutWith(s: State, e: Event, w: SocketId): Option<int> {
    if RetiredClient(s, e, w) then Some(1001)
    else if Retires(s, e, w) then Some(if e.EDrainEnd? then WS_CLOSE_DRAIN else 1000)
    else
      match e
      case ERegister(x, _) => if x == w && s.draining then Some(WS_CLOSE_DRAIN) else None
      case EAttempt(x, ok) =>
        if x == w && !ok && x in s.regs && s.regs[x].phase == Writing(REGISTER_ATTEMPTS - 1) then Some(1011) else None
      case ERollback(x) => if x == w && s.draining then Some(WS_CLOSE_DRAIN) else None
      case EPing(t) => if t == w && t in s.heap && s.heap[t].missed + 1 >= PING_TIMEOUT_MISSED then Some(1001) else None
      case EOpen(h, _, client) => if client == w && !CanOpen(s, h) then Some(1011) else None
      case EHostClose(h, ch, code) =>
        if HasChannel(s, h, ch) && s.channels[ch].client == w then Some(if code.Some? then code.value else 1000) else None
      case _ => None
  }

  ghost predicate ShutAs(s: State, r: State, w: SocketId, how: Option<int>) {
    w in r.sockets && (IsOpen(r.sockets, w) <==> how.None?) && (how.Some? ==> r.sockets[w].closeCode == how)
  }

  lemma EvictionShuts(s: State, h: HostId, e: Event, w: SocketId)
    requires IsOpen(s.sockets, w) && forall t :: Retires(s, e, t) <==> Serves(s, h, t)
    ensures ShutAs(s, Evict(s, h), w,
      if RetiredClient(s, e, w) then Some(1001) else if Retires(s, e, w) then Some(1000) else None)
  {
    if h in s.tunnels { assert w in Clients(s.channels, {s.tunnels[h]}) <==> RetiredClient(s, e, w); }
  }

  lemma RegisterShuts(s: State, x: SocketId, h: HostId, w: SocketId)
    requires IsOpen(s.sockets, w)
    ensures ShutAs(s, RegisterBegin(s, x, h), w, ShutWith(s, ERegister(x, h), w))
  {
    if !s.draining { EvictionShuts(s, h, ERegister(x, h), w); }
  }

  lemma UnregisterShuts(s: State, h: HostId, of: Option<SocketId>, w: SocketId)
    requires IsOpen(s.sockets, w)
    ensures ShutAs(s, Unregister(s, h, of), w, ShutWith(s, EUnregister(h, of), w))
  {
    if h in s.tunnels && (of.None? || s.tunnels[h] == of.value) { EvictionShuts(s, h, EUnregister(h, of), w); }
  }

  lemma AttemptShuts(s: State, e: Event, w: SocketId)
    requires Enabled(s, e) && IsOpen(s.sockets, w) && e.EAttempt?
    ensures ShutAs(s, Next(s, e), w, ShutWith(s, e, w))
  {
    if Installs(s, e) {
      InstalledShape(s, e.w);
      EvictionShuts(s, s.regs[e.w].host, e, w);
    } else {
      UninstalledShuts(s, e.w, e.ok, w);
    }
  }

  lemma UninstalledShuts(s: State, x: SocketId, ok: bool, w: SocketId)
    requires Enabled(s, EAttempt(x, ok)) && IsOpen(s.sockets, w) && !Installs(s, EAttempt(x, ok))
    ensures ShutAs(s, AttemptDone(s, x, ok), w, ShutWith(s, EAttempt(x, ok), w))
  {
    UninstalledShape(s, x, ok);
    assert !RetiredClient(s, EAttempt(x, ok), w);
  }

  lemma DrainShuts(s: State, d: DrainId, w: SocketId)
    requires Enabled(s, EDrainEnd(d)) && IsOpen(s.sockets, w)
    ensures ShutAs(s, Next(s, EDrainEnd(d)), w, ShutWith(s, EDrainEnd(d), w))
  {
    assert w in Clients(s.channels, s.drains[d].snapshot) <==> RetiredClient(s, EDrainEnd(d), w);
  }

  lemma OthersShut(s: State, e: Event, w: SocketId)
    requires Enabled(s, e) && IsOpen(s.sockets, w) && e != ESocketDown(w)
    requires !(e.ERegister? || e.EAttempt? || e.EUnregister? || e.EDrainEnd? || Traffic(e))
    ensures ShutAs(s, Next(s, e), w, ShutWith(s, e, w))
  { }

  lemma OpenShuts(s: State, h: HostId, ch: ChannelId, client: SocketId, w: SocketId)
    requires IsOpen(s.sockets, w)
    ensures ShutAs(s, OpenChannel(s, h, ch, client), w, if client == w && !CanOpen(s, h) then Some(1011) else None)
  { }

  lemma HostCloseShuts(s: State, h: HostId, ch: ChannelId, code: Option<int>, w: SocketId)
    requires IsOpen(s.sockets, w)
    ensures ShutAs(s, HostClose(s, h, ch, code), w, ShutWith(s, EHostClose(h, ch, code), w))
  { }

  lemma MessagesShutNothing(s: State, e: Event, w: SocketId)
    requires Enabled(s, e) && IsOpen(s.sockets, w) && Traffic(e) && !e.EOpen? && !e.EHostClose?
    ensures ShutAs(s, Next(s, e), w, None)
  { }

  lemma TrafficRetiresNothing(s: State, e: Event, w: SocketId)
    requires Traffic(e)
    ensures !RetiredClient(s, e, w) && !Retires(s, e, w)
  { }

  lemma TrafficShuts(s: State, e: Event, w: SocketId)
    requires Enabled(s, e) && IsOpen(s.sockets, w) && Traffic(e)
    ensures ShutAs(s, Next(s, e), w, ShutWith(s, e, w))
  {
    TrafficRetiresNothing(s, e, w);
    match e
    case EOpen(h, ch, client) => OpenShuts(s, h, ch, client, w);
    case EHostClose(h, ch, code) => HostCloseShuts(s, h, ch, code, w);
    case _ => MessagesShutNothing(s, e, w);
  }

  /** A step shuts an open socket exactly then and with that code; only the network can also take it down. */
  lemma StepShuts(s: State, e: Event, w: SocketId)
    requires Enabled(s, e) && IsOpen(s.sockets, w) && e != ESocketDown(w)
    ensures ShutAs(s, Next(s, e), w, ShutWith(s, e, w))
  {
    if e.ERegister? { RegisterShuts(s, e.w, e.h, w); }
    else if e.EUnregister? { UnregisterShuts(s, e.h, e.of, w); }
    else if e.EAttempt? { AttemptShuts(s, e, w); }
    else if e.EDrainEnd? { DrainShuts(s, e.d, w); }
    else if Traffic(e) { TrafficShuts(s, e, w); }
    else { OthersShut(s, e, w); }
  }

  /** A socket is shut once: what closes it later changes nothing. */
  lemma {:induction false} ShutOnce(s: State, es: seq<Event>, u: State, w: SocketId)
    requires Runs(s, es, u) && NotOpen(s.sockets, w)
    ensures NotOpen(u.sockets, w) && u.sockets[w].closeCode == s.sockets[w].closeCode
    decreases |es|
  {
    if es != [] {
      StepIsHeard(s, es[0], w);
      ShutOnce(Next(s, es[0]), es[1..], u, w);
    }
  }

  /** What a step lets the sockets see: messages, and how those that were open are shut. */
  ghost predicate Observed(s: State, e: Event, r: State) {
    forall w | w in s.sockets ::
      HearsOnly(s, e, r, w) && (IsOpen(s.sockets, w) && e != ESocketDown(w) ==> ShutAs(s, r, w, ShutWith(s, e, w)))
  }

  lemma StepIsObserved(s: State, e: Event)
    requires Enabled(s, e)
    ensures Observed(s, e, Next(s, e))
  {
    forall w | w in s.sockets
      ensures HearsOnly(s, e, Next(s, e), w)
      ensures IsOpen(s.sockets, w) && e != ESocketDown(w) ==> ShutAs(s, Next(s, e), w, ShutWith(s, e, w))
    {
      StepIsHeard(s, e, w);
      if IsOpen(s.sockets, w) && e != ESocketDown(w) { StepShuts(s, e, w); }
    }
  }

  // --------------------------------------------------------------- how requests settle

  /** How a step settles a waiting request, if it does. */
  function SettledBy(s: State, e: Event, id: RequestId): Outcome
    requires id in s.requests
  {
    if Retires(s, e, s.requests[id].tunnel) then Rejected
    else
      match e
      case EResponse(h, x) => if x == id && Serves(s, h, s.requests[id].tunnel) then Resolved else Waiting
      case ETimeout(x) => if x == id then TimedOut else Waiting
      case _ => Waiting
  }

  lemma EvictionSettles(s: State, h: HostId, e: Event, id: RequestId)
    requires id in s.requests && s.requests[id].outcome.Waiting? && s.requests[id].listed
    requires forall t :: Retires(s, e, t) <==> Serves(s, h, t)
    ensures id in Evict(s, h).requests
    ensures Evict(s, h).requests[id].outcome == if Retires(s, e, s.requests[id].tunnel) then Rejected else Waiting
  { }

  lemma RegistrationSettles(s: State, e: Event, id: RequestId)
    requires Enabled(s, e) && id in s.requests && s.requests[id].outcome.Waiting? && s.requests[id].listed
    requires e.ERegister? || e.EAttempt? || e.ERollback? || e.EUnregister?
    ensures id in Next(s, e).requests && Next(s, e).requests[id].outcome == SettledBy(s, e, id)
  {
    match e
    case ERegister(w, h) => if !s.draining { EvictionSettles(s, h, e, id); }
    case EAttempt(w, ok) =>
      if Installs(s, e) {
        InstalledShape(s, w);
        EvictionSettles(s, s.regs[w].host, e, id);
      } else {
        UninstalledShape(s, w, ok);
      }
    case EUnregister(h, of) => if h in s.tunnels && (of.None? || of.value == s.tunnels[h]) { EvictionSettles(s, h, e, id); }
    case ERollback(_) =>
  }

  lemma OthersSettle(s: State, e: Event, id: RequestId)
    requires Enabled(s, e) && id in s.requests && s.requests[id].outcome.Waiting? && s.requests[id].listed
    requires !(e.ERegister? || e.EAttempt? || e.ERollback? || e.EUnregister?) && !Traffic(e)
    ensures id in Next(s, e).requests && Next(s, e).requests[id].outcome == SettledBy(s, e, id)
  { }

  lemma RequestTrafficSettles(s: State, e: Event, id: RequestId)
    requires Enabled(s, e) && id in s.requests && s.requests[id].outcome.Waiting? && s.requests[id].listed
    requires e.ESend? || e.EResponse? || e.ETimeout?
    ensures id in Next(s, e).requests && Next(s, e).requests[id].outcome == SettledBy(s, e, id)
  { }

  lemma FramesSettleNothing(s: State, e: Event)
    requires Enabled(s, e) && Traffic(e) && !(e.ESend? || e.EResponse? || e.ETimeout?)
    ensures Next(s, e).requests == s.requests
  {
    match e
    case EOpen(h, ch, client) => OpenKeepsRequests(s, h, ch, client);
    case EClientGone(h, ch) => CloseKeepsRequests(s, h, ch, None);
    case EHostClose(h, ch, code) => CloseKeepsRequests(s, h, ch, code);
    case _ =>
  }

  lemma OpenKeepsRequests(s: State, h: HostId, ch: ChannelId, client: SocketId)
    ensures OpenChannel(s, h, ch, client).requests == s.requests
  { }

  lemma CloseKeepsRequests(s: State, h: HostId, ch: ChannelId, code: Option<int>)
    ensures CloseChannel(s, h, ch).requests == s.requests && HostClose(s, h, ch, code).requests == s.requests
  { }

  lemma TrafficSettles(s: State, e: Event, id: RequestId)
    requires Enabled(s, e) && id in s.requests && s.requests[id].outcome.Waiting? && s.requests[id].listed && Traffic(e)
    ensures id in Next(s, e).requests && Next(s, e).requests[id].outcome == SettledBy(s, e, id)
  {
    if e.ESend? || e.EResponse? || e.ETimeout? { RequestTrafficSettles(s, e, id); } else { FramesSettleNothing(s, e); }
  }

  /** In any state a run reaches, a waiting request is rejected with its tunnel, resolved by its own host, timed out by its own
      timer, or waits on. */
  lemma StepSettles(es: seq<Event>, s: State, e: Event, id: RequestId)
    requires Runs(Init, es, s) && Enabled(s, e) && id in s.requests && s.requests[id].outcome.Waiting?
    ensures id in Next(s, e).requests && Next(s, e).requests[id].outcome == SettledBy(s, e, id)
  {
    WaitingIsListed(es, s, id);
    if Traffic(e) { TrafficSettles(s, e, id); }
    else if e.ERegister? || e.EAttempt? || e.ERollback? || e.EUnregister? { RegistrationSettles(s, e, id); }
    else { OthersSettle(s, e, id); }
  }

  lemma WaitingIsListed(es: seq<Event>, s: State, id: RequestId)
    requires Runs(Init, es, s) && id in s.requests && s.requests[id].outcome.Waiting?
    ensures s.requests[id].listed
  {
    InitHolds();
    RunsKeep(Init, es, s);
  }

  // ----------------------------------------------------------------- directory calls

  /** The call a step makes, if it makes one. */
  function CallMade(s: State, e: Event): seq<DirectoryCall> {
    match e
    case ERegister(w, h) => if s.draining then [] else [Write(h, w)]
    case EAttempt(w, ok) =>
      if w !in s.regs || Installs(s, e) then []
      else if ok then [CompareAndDelete(s.regs[w].host, w)]
      else if s.regs[w].phase == Writing(REGISTER_ATTEMPTS - 1) then []
      else [Write(s.regs[w].host, w)]
    case EUnregister(h, of) =>
      if h in s.tunnels && (of.None? || of.value == s.tunnels[h]) then [CompareAndDelete(h, s.tunnels[h])] else []
    case EDrainClear(_) => [ClearOwn]
    case EPong(h) => if h in s.tunnels && s.tunnels[h] in s.heap then [Heartbeat(h)] else []
    case _ => []
  }

  lemma AttemptCalls(s: State, w: SocketId, ok: bool)
    requires w in s.regs && s.regs[w].phase.Writing?
    ensures AttemptDone(s, w, ok).calls == s.calls + CallMade(s, EAttempt(w, ok))
  {
    assert s.calls + [] == s.calls;
  }

  lemma RegistrationCalls(s: State, e: Event)
    requires Enabled(s, e) && (e.ERegister? || e.EAttempt? || e.ERollback? || e.EUnregister?)
    ensures Next(s, e).calls == s.calls + CallMade(s, e)
  {
    assert s.calls + [] == s.calls;
    if e.EAttempt? { AttemptCalls(s, e.w, e.ok); }
  }

  /** Each step calls the directory exactly so. */
  lemma StepCalls(s: State, e: Event)
    requires Enabled(s, e)
    ensures Next(s, e).calls == s.calls + CallMade(s, e)
  {
    assert s.calls + [] == s.calls;
    if e.ERegister? || e.EAttempt? || e.ERollback? || e.EUnregister? { RegistrationCalls(s, e); }
    else if Traffic(e) { TrafficKeepsProtocol(s, e); }
  }

  /** How often a registration wrote. */
  function Writes(calls: seq<DirectoryCall>, w: SocketId): nat {
    if calls == [] then 0
    else Writes(calls[..|calls| - 1], w) + if calls[|calls| - 1].Write? && calls[|calls| - 1].from == w then 1 else 0
  }

  lemma WritesSnoc(calls: seq<DirectoryCall>, more: seq<DirectoryCall>, w: SocketId)
    requires |more| <= 1
    ensures Writes(calls + more, w) == Writes(calls, w) + if more != [] && more[0].Write? && more[0].from == w then 1 else 0
  {
    if more == [] {
      assert calls + more == calls;
    } else {
      assert (calls + more)[..|calls|] == calls;
    }
  }

  /** A registration that writes has written once more than it failed; one that gave up wrote three times. */
  predicate WritesFit(p: Phase, n: nat) {
    match p
    case Writing(i) => n == i + 1 <= REGISTER_ATTEMPTS
    case Done(Refused) => n == 0
    case Done(WriteFailed) => n == REGISTER_ATTEMPTS
    case _ => 1 <= n <= REGISTER_ATTEMPTS
  }

  ghost predicate WritesCounted(regs: Regs, calls: seq<DirectoryCall>) {
    && (forall w | w in regs :: WritesFit(regs[w].phase, Writes(calls, w)))
    && (forall w | w !in regs :: Writes(calls, w) == 0)
  }

  lemma QuietKeepsCount(s: State, e: Event)
    requires Enabled(s, e) && WritesCounted(s.regs, s.calls)
    requires Next(s, e).regs == s.regs && (forall c | c in CallMade(s, e) :: !c.Write?)
    ensures WritesCounted(Next(s, e).regs, Next(s, e).calls)
  {
    StepCalls(s, e);
    forall w ensures Writes(Next(s, e).calls, w) == Writes(s.calls, w) { WritesSnoc(s.calls, CallMade(s, e), w); }
  }

  lemma RegisterPhase(s: State, w: SocketId, h: HostId)
    ensures RegisterBegin(s, w, h).regs == s.regs[w := Registration(h, if s.draining then Done(Refused) else Writing(0))]
  { }

  lemma AttemptPhase(s: State, w: SocketId, ok: bool)
    requires Enabled(s, EAttempt(w, ok))
    ensures AttemptDone(s, w, ok).regs == s.regs[w := Registration(s.regs[w].host, PhaseAfter(s, EAttempt(w, ok)))]
  {
    if Installs(s, EAttempt(w, ok)) { InstalledShape(s, w); EvictKeepsRegs(s, s.regs[w].host); } else { UninstalledShape(s, w, ok); }
  }

  lemma EvictKeepsRegs(s: State, h: HostId)
    ensures Evict(s, h).regs == s.regs
  { }

  lemma RegistrationKeepsCount(s: State, e: Event)
    requires Enabled(s, e) && WritesCounted(s.regs, s.calls) && (e.ERegister? || e.EAttempt? || e.ERollback?)
    ensures WritesCounted(Next(s, e).regs, Next(s, e).calls)
  {
    StepCalls(s, e);
    OnlyItsPhase(s, e);
    MayWrite(s, e);
    forall x ensures Writes(Next(s, e).calls, x) == Writes(s.calls, x) + if x == e.w && CallMade(s, e) != [] && CallMade(s, e)[0].Write? then 1 else 0 {
      WritesSnoc(s.calls, CallMade(s, e), x);
    }
    CountFits(s.regs, s.calls, Next(s, e).regs, Next(s, e).calls, e.w);
  }

  lemma CountFits(regs: Regs, calls: seq<DirectoryCall>, regs': Regs, calls': seq<DirectoryCall>, w: SocketId)
    requires WritesCounted(regs, calls) && w in regs' && regs' == regs[w := regs'[w]]
    requires forall x | x != w :: Writes(calls', x) == Writes(calls, x)
    requires WritesFit(regs'[w].phase, Writes(calls', w))
    ensures WritesCounted(regs', calls')
  { }

  /** A step writes for its own registration only, once, and exactly when it starts or tries again. */
  lemma MayWrite(s: State, e: Event)
    requires Enabled(s, e) && WritesCounted(s.regs, s.calls) && (e.ERegister? || e.EAttempt? || e.ERollback?)
    ensures |CallMade(s, e)| <= 1 && (CallMade(s, e) != [] && CallMade(s, e)[0].Write? ==> CallMade(s, e)[0].from == e.w)
    ensures WritesFit(PhaseAfter(s, e), Writes(s.calls, e.w) + if CallMade(s, e) != [] && CallMade(s, e)[0].Write? then 1 else 0)
  {
    if !e.ERegister? { assert WritesFit(s.regs[e.w].phase, Writes(s.calls, e.w)); }
  }

  lemma OnlyItsPhase(s: State, e: Event)
    requires Enabled(s, e) && (e.ERegister? || e.EAttempt? || e.ERollback?)
    ensures e.w in Next(s, e).regs && Next(s, e).regs == s.regs[e.w := Next(s, e).regs[e.w]]
    ensures Next(s, e).regs[e.w].phase == PhaseAfter(s, e)
  {
    match e
    case ERegister(w, h) => RegisterPhase(s, w, h);
    case EAttempt(w, ok) => AttemptPhase(s, w, ok);
    case ERollback(_) =>
  }

  /** In every run a registration writes at most three times, and gives up exactly when three writes have failed. */
  lemma {:induction false} ThreeWritesAtMost(s: State, es: seq<Event>, u: State)
    requires Runs(s, es, u) && WritesCounted(s.regs, s.calls)
    ensures WritesCounted(u.regs, u.calls)
    decreases |es|
  {
    if es != [] {
      var e := es[0];
      if e.ERegister? || e.EAttempt? || e.ERollback? {
        RegistrationKeepsCount(s, e);
      } else {
        if Quiet(e) { QuietSteps(s, e); }
        QuietKeepsCount(s, e);
      }
      ThreeWritesAtMost(Next(s, e), es[1..], u);
    }
  }

  // ----------------------------------------------------------------------- pings

  function Missed(s: State, e: Event, t: SocketId, n: nat): nat {
    match e
    case EPing(w) => if w == t then n + 1 else n
    case EPong(h) => if Serves(s, h, t) then 0 else n
    case _ => n
  }

  /** The ticks of a tunnel's ping timer since it was installed or its host last answered. */
  function Unanswered(s: State, es: seq<Event>, t: SocketId, n: nat): nat
    decreases |es|
  {
    if es == [] || !Enabled(s, es[0]) then n
    else
      Unanswered(Next(s, es[0]), es[1..], t, Missed(s, es[0], t, n))
  }

  predicate SameMissed(heap: Heap, more: Heap, t: SocketId)
    requires t in heap
  {
    t in more && more[t].missed == heap[t].missed
  }

  lemma EvictCounts(s: State, h: HostId, t: SocketId)
    requires t in s.heap
    ensures SameMissed(s.heap, Evict(s, h).heap, t)
  { }

  lemma AttemptCounts(s: State, w: SocketId, ok: bool, t: SocketId)
    requires t in s.heap && t != w && w in s.regs && s.regs[w].phase.Writing?
    ensures SameMissed(s.heap, AttemptDone(s, w, ok).heap, t)
  {
    if Installs(s, EAttempt(w, ok)) { InstalledShape(s, w); EvictCounts(s, s.regs[w].host, t); } else { UninstalledShape(s, w, ok); }
  }

  lemma WritingIsNoTunnel(s: State, w: SocketId)
    requires Inv(s) && w in s.regs && s.regs[w].phase.Writing?
    ensures w !in s.heap
  { }

  lemma OthersCount(s: State, e: Event, t: SocketId)
    requires Enabled(s, e) && t in s.heap && !Traffic(e) && !e.EPing? && !e.EPong?
    requires !(e.ERegister? || e.EAttempt? || e.ERollback? || e.EUnregister?)
    ensures SameMissed(s.heap, Next(s, e).heap, t)
  { }

  lemma OpenKeepsHeap(s: State, h: HostId, ch: ChannelId, client: SocketId)
    ensures OpenChannel(s, h, ch, client).heap == s.heap
  { }

  lemma CloseKeepsHeap(s: State, h: HostId, ch: ChannelId, code: Option<int>)
    ensures CloseChannel(s, h, ch).heap == s.heap && HostClose(s, h, ch, code).heap == s.heap
  { }

  lemma TrafficCounts(s: State, e: Event, t: SocketId)
    requires Enabled(s, e) && t in s.heap && Traffic(e)
    ensures SameMissed(s.heap, Next(s, e).heap, t)
  {
    match e
    case EOpen(h, ch, client) => OpenKeepsHeap(s, h, ch, client);
    case EClientGone(h, ch) => CloseKeepsHeap(s, h, ch, None);
    case EHostClose(h, ch, code) => CloseKeepsHeap(s, h, ch, code);
    case _ =>
  }

  lemma RegistrationCounts(s: State, e: Event, t: SocketId)
    requires Enabled(s, e) && t in s.heap && (e.ERegister? || e.EAttempt? || e.ERollback? || e.EUnregister?)
    requires e.EAttempt? ==> e.w !in s.heap
    ensures SameMissed(s.heap, Next(s, e).heap, t)
  {
    match e
    case ERegister(w, h) => EvictCounts(s, h, t);
    case EAttempt(w, ok) => AttemptCounts(s, w, ok, t);
    case ERollback(_) =>
    case EUnregister(h, of) => EvictCounts(s, h, t);
  }

  lemma StepCounts(s: State, e: Event, t: SocketId)
    requires Enabled(s, e) && t in s.heap && (e.EAttempt? ==> e.w !in s.heap)
    requires e.EPong? && e.h in s.tunnels ==> s.tunnels[e.h] in s.heap
    ensures t in Next(s, e).heap && Next(s, e).heap[t].missed == Missed(s, e, t, s.heap[t].missed)
  {
    if e.EPing? || e.EPong? { PingCounts(s, e, t); }
    else if Traffic(e) { TrafficCounts(s, e, t); }
    else if e.ERegister? || e.EAttempt? || e.ERollback? || e.EUnregister? { RegistrationCounts(s, e, t); }
    else { OthersCount(s, e, t); }
  }

  lemma PongIsHeld(s: State, e: Event)
    requires Inv(s) && e.EPong?
    ensures e.h in s.tunnels ==> s.tunnels[e.h] in s.heap
  { }

  lemma PingCounts(s: State, e: Event, t: SocketId)
    requires Enabled(s, e) && t in s.heap && (e.EPing? || (e.EPong? && (e.h in s.tunnels ==> s.tunnels[e.h] in s.heap)))
    ensures t in Next(s, e).heap && Next(s, e).heap[t].missed == Missed(s, e, t, s.heap[t].missed)
  { }

  /** In every run a tunnel has missed exactly the pings since its host last answered, so three in a row shut it. */
  lemma {:induction false} MissedAreUnanswered(s: State, es: seq<Event>, u: State, t: SocketId)
    requires Inv(s) && Runs(s, es, u) && t in s.heap
    ensures t in u.heap && u.heap[t].missed == Unanswered(s, es, t, s.heap[t].missed)
    decreases |es|
  {
    if es != [] {
      if es[0].EAttempt? { WritingIsNoTunnel(s, es[0].w); }
      if es[0].EPong? { PongIsHeld(s, es[0]); }
      StepCounts(s, es[0], t);
      NextKeeps(s, es[0]);
      MissedAreUnanswered(Next(s, es[0]), es[1..], u, t);
    }
  }
}
