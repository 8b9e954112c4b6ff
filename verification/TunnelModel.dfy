/**
 The relay's tunnel protocol as a state machine (apps/relay/src/tunnel.ts).

 Every stretch of `TunnelManager` code between two awaits is one transition, and
 so is every callback (ping timer, request timer, socket handlers).  A suspended
 `register` is an entry of `regs`, a suspended `drain` an entry of `drains`.
 A socket is registered at most once (index.ts opens one registration per
 connection), so a host socket also names its registration and its tunnel.
 */
module TunnelModel {
  import opened Basics

  type HostId = string
  type SocketId = nat
  type RequestId = nat
  type ChannelId = nat
  type DrainId = nat

  type Tunnels = map<HostId, SocketId>
  type Heap = map<SocketId, Tunnel>
  type Sockets = map<SocketId, Socket>
  type Requests = map<RequestId, Request>
  type Channels = map<ChannelId, Channel>
  type Regs = map<SocketId, Registration>

  const WS_CLOSE_DRAIN := 4001
  const PING_TIMEOUT_MISSED := 3
  const MAX_PENDING := 1000
  const REGISTER_ATTEMPTS := 3

  datatype Ready = Open | Closing | Closed

  datatype Message =
    | Ping
    | DrainNotice
    | Http(request: RequestId)
    | WsOpen(channel: ChannelId)
    | WsFrame(channel: ChannelId, data: string)
    | WsClose(channel: ChannelId)
    | Payload(channel: ChannelId, data: string)

  datatype Socket = Socket(ready: Ready, closeCode: Option<int>, sent: seq<Message>)

  /** `TunnelState` of a socket; `pingArmed` says whether its interval timer is running. */
  datatype Tunnel = Tunnel(pingArmed: bool, missed: nat)

  /** The promise returned by `sendHttpRequest`; only its first settlement counts. */
  datatype Outcome = Waiting | Resolved | TimedOut | Rejected

  /** A request accepted on `tunnel`; `listed` while it is a key of that tunnel's `pendingRequests`. */
  datatype Request = Request(tunnel: SocketId, listed: bool, timerArmed: bool, outcome: Outcome)

  /** A channel opened on `tunnel` for `client`; `listed` while it is a key of its `activeChannels`. */
  datatype Channel = Channel(tunnel: SocketId, client: SocketId, listed: bool)

  datatype Ending = Refused | WriteFailed | RolledBack | Installed
  datatype Phase = Writing(attempt: nat) | RollingBack | Done(how: Ending)
  datatype Registration = Registration(host: HostId, phase: Phase)

  datatype Drain = Drain(snapshot: set<SocketId>, cleared: bool)

  datatype DirectoryCall =
    | Write(host: HostId, from: SocketId)
    | CompareAndDelete(host: HostId, from: SocketId)
    | Heartbeat(host: HostId)
    | ClearOwn

  datatype State = State(
    tunnels: Tunnels,
    heap: Heap,
    sockets: Sockets,
    requests: Requests,
    channels: Channels,
    regs: Regs,
    drains: map<DrainId, Drain>,
    draining: bool,
    calls: seq<DirectoryCall>)

  const Init := State(map[], map[], map[], map[], map[], map[], map[], false, [])

  // ---------------------------------------------------------------- sockets

  /** Closing a socket that is not open does nothing. */
  function Closing1(k: Socket, code: int): Socket {
    if k.ready.Open? then k.(ready := Closing, closeCode := Some(code)) else k
  }

  function Close(ss: Sockets, w: SocketId, code: int): Sockets {
    if w in ss then ss[w := Closing1(ss[w], code)] else ss
  }

  function Send1(k: Socket, m: Message): Socket {
    if k.ready.Open? then k.(sent := k.sent + [m]) else k
  }

  function Send(ss: Sockets, w: SocketId, m: Message): Sockets {
    if w in ss then ss[w := Send1(ss[w], m)] else ss
  }

  predicate NotOpen(ss: Sockets, w: SocketId) {
    w in ss && !ss[w].ready.Open?
  }

  predicate IsOpen(ss: Sockets, w: SocketId) {
    w in ss && ss[w].ready.Open?
  }

  // --------------------------------------------------------------- disposal

  function Settle(o: Outcome, how: Outcome): Outcome {
    if o.Waiting? then how else o
  }

  function Pending(rs: Requests, t: SocketId): set<RequestId> {
    set id | id in rs && rs[id].tunnel == t && rs[id].listed
  }

  function Clients(cs: Channels, ts: set<SocketId>): set<SocketId> {
    set c | c in cs && cs[c].listed && cs[c].tunnel in ts :: cs[c].client
  }

  function Stopped(heap: Heap, ts: set<SocketId>): Heap {
    map t | t in heap :: if t in ts then heap[t].(pingArmed := false) else heap[t]
  }

  function RejectAll(rs: Requests, ts: set<SocketId>): Requests {
    map id | id in rs ::
      if rs[id].tunnel in ts && rs[id].listed
      then rs[id].(timerArmed := false, outcome := Settle(rs[id].outcome, Rejected))
      else rs[id]
  }

  function CloseTunnels(ss: Sockets, clients: set<SocketId>, ts: set<SocketId>, code: int)
    : Sockets
  {
    map w | w in ss ::
      if w in clients then Closing1(ss[w], 1001) else if w in ts then Closing1(ss[w], code) else ss[w]
  }

  /** `disposeTunnel` on every member of `ts`.  The tables keep their entries, as the source's maps do. */
  function Dispose(s: State, ts: set<SocketId>, code: int): State {
    s.(heap := Stopped(s.heap, ts),
       requests := RejectAll(s.requests, ts),
       sockets := CloseTunnels(s.sockets, Clients(s.channels, ts), ts, code))
  }

  function Evict(s: State, h: HostId): State {
    if h in s.tunnels then Dispose(s, {s.tunnels[h]}, 1000).(tunnels := s.tunnels - {h}) else s
  }

  // ----------------------------------------------------------- registration

  function SetPhase(s: State, w: SocketId, h: HostId, p: Phase): State {
    s.(regs := s.regs[w := Registration(h, p)])
  }

  function RegisterBegin(s: State, w: SocketId, h: HostId): State {
    if s.draining then
      SetPhase(s.(sockets := Close(s.sockets, w, WS_CLOSE_DRAIN)), w, h, Done(Refused))
    else
      var s1 := Evict(s, h);
      SetPhase(s1.(calls := s1.calls + [Write(h, w)]), w, h, Writing(0))
  }

  function Install(s: State, w: SocketId, h: HostId): State {
    var s1 := Evict(s, h);
    SetPhase(s1.(heap := s1.heap[w := Tunnel(true, 0)], tunnels := s1.tunnels[h := w]),
             w, h, Done(Installed))
  }

  /** One directory write attempt of `w` came back. */
  function AttemptDone(s: State, w: SocketId, ok: bool): State
    requires w in s.regs && s.regs[w].phase.Writing?
  {
    var h := s.regs[w].host;
    var i := s.regs[w].phase.attempt;
    if ok then
      if !IsOpen(s.sockets, w) || s.draining then
        SetPhase(s.(calls := s.calls + [CompareAndDelete(h, w)]), w, h, RollingBack)
      else Install(s, w, h)
    else if i == REGISTER_ATTEMPTS - 1 then
      SetPhase(s.(sockets := Close(s.sockets, w, 1011)), w, h, Done(WriteFailed))
    else
      SetPhase(s.(calls := s.calls + [Write(h, w)]), w, h, Writing(i + 1))
  }

  function RollbackDone(s: State, w: SocketId): State
    requires w in s.regs
  {
    var s1 := if s.draining then s.(sockets := Close(s.sockets, w, WS_CLOSE_DRAIN)) else s;
    SetPhase(s1, w, s.regs[w].host, Done(RolledBack))
  }

  function Unregister(s: State, h: HostId, w: Option<SocketId>): State {
    if h !in s.tunnels || (w.Some? && s.tunnels[h] != w.value) then s
    else
      var s1 := Evict(s, h);
      s1.(calls := s1.calls + [CompareAndDelete(h, s.tunnels[h])])
  }

  // ------------------------------------------------------------------ drain

  function SendAll(ss: Sockets, ts: set<SocketId>, m: Message): Sockets {
    map w | w in ss :: if w in ts then Send1(ss[w], m) else ss[w]
  }

  function Values(m: Tunnels): set<SocketId> {
    set h | h in m :: m[h]
  }

  function DrainBegin(s: State, d: DrainId): State {
    s.(draining := true,
       sockets := SendAll(s.sockets, Values(s.tunnels), DrainNotice),
       drains := s.drains[d := Drain(Values(s.tunnels), false)])
  }

  function DrainClear(s: State, d: DrainId): State
    requires d in s.drains
  {
    s.(calls := s.calls + [ClearOwn], drains := s.drains[d := s.drains[d].(cleared := true)])
  }

  function HostsOf(regs: Regs, ts: set<SocketId>): set<HostId> {
    set t | t in ts && t in regs :: regs[t].host
  }

  /** The directory clear settled, either way: dispose the snapshot. */
  function DrainEnd(s: State, d: DrainId): State
    requires d in s.drains
  {
    var ts := s.drains[d].snapshot;
    Dispose(s, ts, WS_CLOSE_DRAIN).(tunnels := s.tunnels - HostsOf(s.regs, ts), drains := s.drains - {d})
  }

  // ------------------------------------------------------------------ pings

  function PingTick(s: State, t: SocketId): State
    requires t in s.heap
  {
    var n := s.heap[t].missed + 1;
    s.(heap := s.heap[t := s.heap[t].(missed := n)],
       sockets := if n >= PING_TIMEOUT_MISSED then Close(s.sockets, t, 1001) else Send(s.sockets, t, Ping))
  }

  function Pong(s: State, h: HostId): State {
    if h in s.tunnels && s.tunnels[h] in s.heap then
      var t := s.tunnels[h];
      s.(heap := s.heap[t := s.heap[t].(missed := 0)], calls := s.calls + [Heartbeat(h)])
    else s
  }

  // --------------------------------------------------------------- requests

  datatype SendResult = Accepted | NotConnected | Overloaded

  function SendVerdict(s: State, h: HostId): SendResult {
    if h !in s.tunnels then NotConnected
    else if |Pending(s.requests, s.tunnels[h])| >= MAX_PENDING then Overloaded
    else Accepted
  }

  function SendRequest(s: State, h: HostId, id: RequestId): State {
    if !SendVerdict(s, h).Accepted? then s
    else
      s.(requests := s.requests[id := Request(s.tunnels[h], true, true, Waiting)],
         sockets := Send(s.sockets, s.tunnels[h], Http(id)))
  }

  /** Unlist `id`, stop its timer and settle its promise. */
  function Finish(s: State, id: RequestId, how: Outcome): State
    requires id in s.requests
  {
    s.(requests := s.requests[id :=
         s.requests[id].(listed := false, timerArmed := false, outcome := Settle(s.requests[id].outcome, how))])
  }

  function Response(s: State, h: HostId, id: RequestId): State {
    if h in s.tunnels && id in Pending(s.requests, s.tunnels[h]) then Finish(s, id, Resolved) else s
  }

  function Timeout(s: State, id: RequestId): State
    requires id in s.requests
  {
    Finish(s, id, TimedOut)
  }

  // --------------------------------------------------------------- channels

  predicate CanOpen(s: State, h: HostId) {
    h in s.tunnels && IsOpen(s.sockets, s.tunnels[h])
  }

  /** `openWsChannel`, and the endpoint's close of the client when it throws. */
  function OpenChannel(s: State, h: HostId, id: ChannelId, client: SocketId): State {
    if CanOpen(s, h) then
      s.(channels := s.channels[id := Channel(s.tunnels[h], client, true)],
         sockets := Send(s.sockets, s.tunnels[h], WsOpen(id)))
    else s.(sockets := Close(s.sockets, client, 1011))
  }

  function ClientFrame(s: State, h: HostId, id: ChannelId, data: string): State {
    if h in s.tunnels then s.(sockets := Send(s.sockets, s.tunnels[h], WsFrame(id, data))) else s
  }

  predicate HasChannel(s: State, h: HostId, id: ChannelId) {
    h in s.tunnels && id in s.channels && s.channels[id].listed && s.channels[id].tunnel == s.tunnels[h]
  }

  function Unlist(s: State, h: HostId, id: ChannelId): State {
    if HasChannel(s, h, id) then s.(channels := s.channels[id := s.channels[id].(listed := false)]) else s
  }

  function CloseChannel(s: State, h: HostId, id: ChannelId): State {
    if h in s.tunnels then
      Unlist(s, h, id).(sockets := Send(s.sockets, s.tunnels[h], WsClose(id)))
    else s
  }

  function HostFrame(s: State, h: HostId, id: ChannelId, data: string): State {
    if HasChannel(s, h, id) then s.(sockets := Send(s.sockets, s.channels[id].client, Payload(id, data)))
    else s
  }

  function HostClose(s: State, h: HostId, id: ChannelId, code: Option<int>): State {
    if HasChannel(s, h, id) then
      Unlist(s, h, id).(sockets :=
        Close(s.sockets, s.channels[id].client, if code.Some? then code.value else 1000))
    else s
  }

  // ------------------------------------------------------------ environment

  function SocketDown(s: State, w: SocketId): State
    requires w in s.sockets
  {
    s.(sockets := s.sockets[w := s.sockets[w].(ready := Closed)])
  }

  function Connect(s: State, w: SocketId): State {
    s.(sockets := s.sockets[w := Socket(Open, None, [])])
  }

  // ----------------------------------------------------------------- events

  datatype Event =
    | EConnect(w: SocketId)
    | ESocketDown(w: SocketId)
    | ERegister(w: SocketId, h: HostId)
    | EAttempt(w: SocketId, ok: bool)
    | ERollback(w: SocketId)
    | EUnregister(h: HostId, of: Option<SocketId>)
    | EDrainBegin(d: DrainId)
    | EDrainClear(d: DrainId)
    | EDrainEnd(d: DrainId)
    | EPing(w: SocketId)
    | EPong(h: HostId)
    | ESend(h: HostId, id: RequestId)
    | EResponse(h: HostId, id: RequestId)
    | ETimeout(id: RequestId)
    | EOpen(h: HostId, ch: ChannelId, client: SocketId)
    | EClientFrame(h: HostId, ch: ChannelId, data: string)
    | EClientGone(h: HostId, ch: ChannelId)
    | EHostFrame(h: HostId, ch: ChannelId, data: string)
    | EHostClose(h: HostId, ch: ChannelId, code: Option<int>)

  /**
   What the runtime guarantees: fresh sockets and random ids, continuations run
   only while suspended, timers only while armed, and the close handler of a
   channel client only once that client is down.  Everything else may happen at
   any time with any arguments.
   */
  predicate Enabled(s: State, e: Event) {
    match e
    case EConnect(w) => w !in s.sockets
    case ESocketDown(w) => w in s.sockets
    case ERegister(w, h) => w in s.sockets && w !in s.regs && forall c | c in s.channels :: s.channels[c].client != w
    case EAttempt(w, ok) => w in s.regs && s.regs[w].phase.Writing?
    case ERollback(w) => w in s.regs && s.regs[w].phase.RollingBack?
    case EDrainBegin(d) => d !in s.drains
    case EDrainClear(d) => d in s.drains && !s.drains[d].cleared
    case EDrainEnd(d) => d in s.drains && s.drains[d].cleared
    case EPing(w) => w in s.heap && s.heap[w].pingArmed
    case ESend(h, id) => id !in s.requests
    case ETimeout(id) => id in s.requests && s.requests[id].timerArmed
    case EOpen(h, ch, client) => ch !in s.channels && client in s.sockets && client !in s.regs
    case EClientGone(h, ch) => ch in s.channels && NotOpen(s.sockets, s.channels[ch].client)
    case _ => true
  }

  function Next(s: State, e: Event): State
    requires Enabled(s, e)
  {
    match e
    case EConnect(w) => Connect(s, w)
    case ESocketDown(w) => SocketDown(s, w)
    case ERegister(w, h) => RegisterBegin(s, w, h)
    case EAttempt(w, ok) => AttemptDone(s, w, ok)
    case ERollback(w) => RollbackDone(s, w)
    case EUnregister(h, w) => Unregister(s, h, w)
    case EDrainBegin(d) => DrainBegin(s, d)
    case EDrainClear(d) => DrainClear(s, d)
    case EDrainEnd(d) => DrainEnd(s, d)
    case EPing(w) => PingTick(s, w)
    case EPong(h) => Pong(s, h)
    case ESend(h, id) => SendRequest(s, h, id)
    case EResponse(h, id) => Response(s, h, id)
    case ETimeout(id) => Timeout(s, id)
    case EOpen(h, ch, client) => OpenChannel(s, h, ch, client)
    case EClientFrame(h, ch, data) => ClientFrame(s, h, ch, data)
    case EClientGone(h, ch) => CloseChannel(s, h, ch)
    case EHostFrame(h, ch, data) => HostFrame(s, h, ch, data)
    case EHostClose(h, ch, code) => HostClose(s, h, ch, code)
  }

  /** Every interleaving: `es` is possible from `s` and leads to `t`. */
  predicate Runs(s: State, es: seq<Event>, t: State)
    decreases |es|
  {
    if es == [] then s == t
    else Enabled(s, es[0]) && Runs(Next(s, es[0]), es[1..], t)
  }
}
