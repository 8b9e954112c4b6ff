/** What every transition of the tunnel protocol keeps, whatever the interleaving. */
module TunnelInvariant {
  import opened Basics
  import opened TunnelModel

  /** `t` is the map entry of its host. */
  predicate Current(tunnels: Tunnels, regs: Regs, t: SocketId) {
    t in regs && regs[t].host in tunnels && tunnels[regs[t].host] == t
  }

  /** References between the tables. */
  ghost predicate TunnelsLinked(tunnels: Tunnels, heap: Heap, regs: Regs) {
    && (forall h | h in tunnels :: tunnels[h] in heap && tunnels[h] in regs && regs[tunnels[h]].host == h)
    && (forall w | w in regs :: regs[w].phase == Done(Installed) <==> w in heap)
    && heap.Keys <= regs.Keys
  }

  ghost predicate RequestsLinked(requests: Requests, heap: Heap) {
    forall id | id in requests :: requests[id].tunnel in heap
  }

  ghost predicate ChannelsLinked(channels: Channels, heap: Heap, sockets: Sockets, regs: Regs) {
    && regs.Keys <= sockets.Keys
    && (forall c | c in channels ::
          channels[c].client in sockets && channels[c].client !in regs && channels[c].tunnel in heap)
  }

  /** A tunnel is the current one of its host, or its timer is off and its socket is shut. */
  ghost predicate LiveOrDisposed(heap: Heap, tunnels: Tunnels, regs: Regs, sockets: Sockets) {
    forall t | t in heap ::
      && (heap[t].pingArmed <==> Current(tunnels, regs, t))
      && (!Current(tunnels, regs, t) ==> NotOpen(sockets, t))
      && (heap[t].missed >= PING_TIMEOUT_MISSED ==> NotOpen(sockets, t))
  }

  /** An accepted request waits, listed by a current tunnel with its timer running, or has settled. */
  ghost predicate Ledger(requests: Requests, tunnels: Tunnels, regs: Regs) {
    forall id | id in requests ::
      && requests[id].timerArmed == requests[id].outcome.Waiting?
      && (requests[id].outcome.Waiting? <==> Current(tunnels, regs, requests[id].tunnel) && requests[id].listed)
  }

  ghost predicate Bounded(requests: Requests) {
    forall t :: |Pending(requests, t)| <= MAX_PENDING
  }

  /** No channel client stays open outside the channel table of a current tunnel. */
  ghost predicate ClientsHeld(channels: Channels, tunnels: Tunnels, regs: Regs, sockets: Sockets) {
    forall c | c in channels ::
      NotOpen(sockets, channels[c].client) || (Current(tunnels, regs, channels[c].tunnel) && channels[c].listed)
  }

  predicate RegOk(r: Registration, w: SocketId, shut: bool, draining: bool, calls: seq<DirectoryCall>) {
    match r.phase
    case Writing(i) => i < REGISTER_ATTEMPTS && CompareAndDelete(r.host, w) !in calls
    case RollingBack => (draining || shut) && CompareAndDelete(r.host, w) in calls
    case Done(Installed) => true
    case Done(how) => shut && (how.RolledBack? <==> CompareAndDelete(r.host, w) in calls)
  }

  /** How registrations proceed and end. */
  ghost predicate RegsEnd(regs: Regs, sockets: Sockets, draining: bool, calls: seq<DirectoryCall>) {
    forall w | w in regs :: RegOk(regs[w], w, NotOpen(sockets, w), draining, calls)
  }

  ghost predicate CallsKnown(calls: seq<DirectoryCall>, regs: Regs) {
    forall c | c in calls && c.CompareAndDelete? :: c.from in regs
  }

  /** While a drain is suspended its snapshot covers every current tunnel. */
  ghost predicate DrainsCover(drains: map<DrainId, Drain>, draining: bool, heap: Heap, tunnels: Tunnels) {
    forall d | d in drains ::
      draining && drains[d].snapshot <= heap.Keys && Values(tunnels) <= drains[d].snapshot
  }

  /** What may be written to a socket: only the traffic of its own requests and channels. */
  predicate Belongs(requests: Requests, channels: Channels, regs: Regs, w: SocketId, m: Message) {
    match m
    case Http(id) => id in requests && requests[id].tunnel == w
    case WsOpen(c) => c in channels && channels[c].tunnel == w
    case Payload(c, _) => c in channels && channels[c].client == w
    case _ => w in regs
  }

  ghost predicate NoCrossTalk(sockets: Sockets, requests: Requests, channels: Channels, regs: Regs) {
    forall w, m {:trigger m in sockets[w].sent} | w in sockets && m in sockets[w].sent ::
      Belongs(requests, channels, regs, w, m)
  }

  ghost predicate Inv(s: State) {
    && TunnelsLinked(s.tunnels, s.heap, s.regs)
    && RequestsLinked(s.requests, s.heap)
    && ChannelsLinked(s.channels, s.heap, s.sockets, s.regs)
    && LiveOrDisposed(s.heap, s.tunnels, s.regs, s.sockets)
    && Ledger(s.requests, s.tunnels, s.regs)
    && Bounded(s.requests)
    && ClientsHeld(s.channels, s.tunnels, s.regs, s.sockets)
    && RegsEnd(s.regs, s.sockets, s.draining, s.calls)
    && CallsKnown(s.calls, s.regs)
    && DrainsCover(s.drains, s.draining, s.heap, s.tunnels)
    && NoCrossTalk(s.sockets, s.requests, s.channels, s.regs)
  }

  // ------------------------------------------------- changes to one table

  /** Sockets may appear, shut and receive messages that belong to them. */
  ghost predicate Calmer(s: State, ss: Sockets) {
    && s.sockets.Keys <= ss.Keys
    && (forall w | w in s.sockets && ss[w].ready.Open? :: s.sockets[w].ready.Open?)
    && (forall w, m {:trigger m in ss[w].sent} | w in ss && m in ss[w].sent ::
          (w in s.sockets && m in s.sockets[w].sent) || Belongs(s.requests, s.channels, s.regs, w, m))
  }

  lemma SocketsKeep(s: State, ss: Sockets)
    requires Inv(s) && Calmer(s, ss)
    ensures Inv(s.(sockets := ss))
  { }

  lemma CallKeeps(s: State, call: DirectoryCall)
    requires Inv(s) && (call.CompareAndDelete? ==> call.from in s.heap)
    ensures Inv(s.(calls := s.calls + [call]))
  { }

  lemma PendingUpdate(rs: Requests, id: RequestId, r: Request, t: SocketId)
    ensures r.listed && r.tunnel == t ==> Pending(rs[id := r], t) == Pending(rs, t) + {id}
    ensures !(r.listed && r.tunnel == t) ==> Pending(rs[id := r], t) == Pending(rs, t) - {id}
  { }

  lemma BoundedUpdate(rs: Requests, id: RequestId, r: Request)
    requires Bounded(rs) && (r.listed ==> |Pending(rs, r.tunnel)| < MAX_PENDING)
    ensures Bounded(rs[id := r])
  {
    var rs' := rs[id := r];
    forall t ensures |Pending(rs', t)| <= MAX_PENDING {
      PendingUpdate(rs, id, r, t);
    }
  }

  lemma AcceptKeeps(s: State, t: SocketId, id: RequestId)
    requires Inv(s) && Current(s.tunnels, s.regs, t) && t in s.heap && id !in s.requests
    requires |Pending(s.requests, t)| < MAX_PENDING
    ensures Inv(s.(requests := s.requests[id := Request(t, true, true, Waiting)]))
  {
    BoundedUpdate(s.requests, id, Request(t, true, true, Waiting));
  }

  lemma FinishKeeps(s: State, id: RequestId, how: Outcome)
    requires Inv(s) && id in s.requests && s.requests[id].listed && !how.Waiting?
    ensures Inv(Finish(s, id, how))
  {
    BoundedUpdate(s.requests, id, Finish(s, id, how).requests[id]);
  }

  lemma AddChannelKeeps(s: State, t: SocketId, id: ChannelId, c: SocketId)
    requires Inv(s) && Current(s.tunnels, s.regs, t) && t in s.heap && id !in s.channels && c in s.sockets && c !in s.regs
    ensures Inv(s.(channels := s.channels[id := Channel(t, c, true)]))
  { }

  lemma UnlistKeeps(s: State, h: HostId, id: ChannelId)
    requires Inv(s) && (id in s.channels ==> NotOpen(s.sockets, s.channels[id].client))
    ensures Inv(Unlist(s, h, id))
  { }

  lemma MissedKeeps(s: State, t: SocketId, n: nat)
    requires Inv(s) && t in s.heap && (n >= PING_TIMEOUT_MISSED ==> NotOpen(s.sockets, t))
    ensures Inv(s.(heap := s.heap[t := s.heap[t].(missed := n)]))
  { }

  /** The tunnels of `ts`, all current ones of the hosts `hs`, leave the map. */
  ghost predicate Retirable(s: State, ts: set<SocketId>, hs: set<HostId>) {
    && Inv(s) && ts <= s.heap.Keys && hs == HostsOf(s.regs, ts)
    && (forall h | h in hs && h in s.tunnels :: s.tunnels[h] in ts)
    && (forall w | w in ts || w in Clients(s.channels, ts) :: NotOpen(s.sockets, w))
  }

  lemma RetireCurrent(s: State, ts: set<SocketId>, hs: set<HostId>, t: SocketId)
    requires Retirable(s, ts, hs) && t in s.heap
    ensures Current(s.tunnels - hs, s.regs, t) <==> Current(s.tunnels, s.regs, t) && t !in ts
  {
    if t in ts { assert s.regs[t].host in hs; }
  }

  lemma RetireTunnels(s: State, ts: set<SocketId>, hs: set<HostId>)
    requires Retirable(s, ts, hs)
    ensures LiveOrDisposed(Stopped(s.heap, ts), s.tunnels - hs, s.regs, s.sockets)
    ensures ClientsHeld(s.channels, s.tunnels - hs, s.regs, s.sockets)
    ensures Stopped(s.heap, ts).Keys == s.heap.Keys
  {
    forall t | t in s.heap
      ensures Current(s.tunnels - hs, s.regs, t) <==> Current(s.tunnels, s.regs, t) && t !in ts
    { RetireCurrent(s, ts, hs, t); }
  }

  lemma RetireRequests(s: State, ts: set<SocketId>, hs: set<HostId>)
    requires Retirable(s, ts, hs)
    ensures Ledger(RejectAll(s.requests, ts), s.tunnels - hs, s.regs)
    ensures Bounded(RejectAll(s.requests, ts))
  {
    var rs := RejectAll(s.requests, ts);
    forall id | id in rs
      ensures rs[id].timerArmed == rs[id].outcome.Waiting?
      ensures rs[id].outcome.Waiting? <==> Current(s.tunnels - hs, s.regs, rs[id].tunnel) && rs[id].listed
    { RetireCurrent(s, ts, hs, s.requests[id].tunnel); }
    forall t ensures |Pending(rs, t)| <= MAX_PENDING {
      assert Pending(rs, t) == Pending(s.requests, t);
    }
  }

  lemma RetireKeeps(s: State, ts: set<SocketId>, hs: set<HostId>)
    requires Retirable(s, ts, hs)
    ensures Inv(s.(heap := Stopped(s.heap, ts), requests := RejectAll(s.requests, ts), tunnels := s.tunnels - hs))
  {
    RetireTunnels(s, ts, hs);
    RetireRequests(s, ts, hs);
  }

  /** A registration that is not installed may move to phase `p`, issuing the directory calls `more`. */
  ghost predicate Movable(s: State, w: SocketId, h: HostId, p: Phase, more: seq<DirectoryCall>) {
    && Inv(s) && w in s.sockets && w !in s.heap
    && (w in s.regs ==> s.regs[w].host == h)
    && (w !in s.regs ==> forall c | c in s.channels :: s.channels[c].client != w)
    && p != Done(Installed)
    && RegOk(Registration(h, p), w, NotOpen(s.sockets, w), s.draining, s.calls + more)
    && (forall c | c in more && c.CompareAndDelete? :: c.from == w)
  }

  lemma PhaseCurrent(s: State, w: SocketId, h: HostId, p: Phase, more: seq<DirectoryCall>)
    requires Movable(s, w, h, p, more)
    ensures LiveOrDisposed(s.heap, s.tunnels, SetPhase(s, w, h, p).regs, s.sockets)
    ensures Ledger(s.requests, s.tunnels, SetPhase(s, w, h, p).regs)
    ensures ClientsHeld(s.channels, s.tunnels, SetPhase(s, w, h, p).regs, s.sockets)
  {
    var regs := SetPhase(s, w, h, p).regs;
    forall t | t in s.heap ensures Current(s.tunnels, regs, t) <==> Current(s.tunnels, s.regs, t) { }
  }

  lemma PhaseRegs(s: State, w: SocketId, h: HostId, p: Phase, more: seq<DirectoryCall>)
    requires Movable(s, w, h, p, more)
    ensures RegsEnd(SetPhase(s, w, h, p).regs, s.sockets, s.draining, s.calls + more)
    ensures CallsKnown(s.calls + more, SetPhase(s, w, h, p).regs)
  {
    var calls := s.calls + more;
    forall u | u in s.regs && u != w ensures RegOk(s.regs[u], u, NotOpen(s.sockets, u), s.draining, calls) {
      assert RegOk(s.regs[u], u, NotOpen(s.sockets, u), s.draining, s.calls);
    }
  }

  lemma PhaseLinks(s: State, w: SocketId, h: HostId, p: Phase, more: seq<DirectoryCall>)
    requires Movable(s, w, h, p, more)
    ensures TunnelsLinked(s.tunnels, s.heap, SetPhase(s, w, h, p).regs)
    ensures ChannelsLinked(s.channels, s.heap, s.sockets, SetPhase(s, w, h, p).regs)
    ensures NoCrossTalk(s.sockets, s.requests, s.channels, SetPhase(s, w, h, p).regs)
  { }

  lemma PhaseKeeps(s: State, w: SocketId, h: HostId, p: Phase, more: seq<DirectoryCall>)
    requires Movable(s, w, h, p, more)
    ensures Inv(SetPhase(s.(calls := s.calls + more), w, h, p))
  {
    PhaseCurrent(s, w, h, p, more);
    PhaseRegs(s, w, h, p, more);
    PhaseLinks(s, w, h, p, more);
  }

  ghost predicate Installable(s: State, w: SocketId, h: HostId) {
    && Inv(s) && w in s.regs && s.regs[w].phase.Writing? && s.regs[w].host == h
    && h !in s.tunnels && IsOpen(s.sockets, w) && !s.draining
  }

  lemma InstallCurrent(s: State, w: SocketId, h: HostId)
    requires Installable(s, w, h)
    ensures LiveOrDisposed(s.heap[w := Tunnel(true, 0)], s.tunnels[h := w], s.regs[w := Registration(h, Done(Installed))], s.sockets)
    ensures Ledger(s.requests, s.tunnels[h := w], s.regs[w := Registration(h, Done(Installed))])
    ensures ClientsHeld(s.channels, s.tunnels[h := w], s.regs[w := Registration(h, Done(Installed))], s.sockets)
  {
    var regs := s.regs[w := Registration(h, Done(Installed))];
    var tunnels := s.tunnels[h := w];
    forall t | t in s.heap
      ensures Current(tunnels, regs, t) <==> Current(s.tunnels, s.regs, t)
    { }
  }

  lemma InstallLinks(s: State, w: SocketId, h: HostId)
    requires Installable(s, w, h)
    ensures TunnelsLinked(s.tunnels[h := w], s.heap[w := Tunnel(true, 0)], s.regs[w := Registration(h, Done(Installed))])
    ensures ChannelsLinked(s.channels, s.heap[w := Tunnel(true, 0)], s.sockets, s.regs[w := Registration(h, Done(Installed))])
    ensures NoCrossTalk(s.sockets, s.requests, s.channels, s.regs[w := Registration(h, Done(Installed))])
  { }

  lemma InstallRegs(s: State, w: SocketId, h: HostId)
    requires Installable(s, w, h)
    ensures RegsEnd(s.regs[w := Registration(h, Done(Installed))], s.sockets, s.draining, s.calls)
    ensures CallsKnown(s.calls, s.regs[w := Registration(h, Done(Installed))])
  { }

  lemma InstallKeeps(s: State, w: SocketId, h: HostId)
    requires Installable(s, w, h)
    ensures Inv(SetPhase(s.(heap := s.heap[w := Tunnel(true, 0)], tunnels := s.tunnels[h := w]), w, h, Done(Installed)))
  {
    InstallCurrent(s, w, h);
    InstallLinks(s, w, h);
    InstallRegs(s, w, h);
  }

  // ------------------------------------------------------ the transitions

  lemma CloseTunnelsKeeps(s: State, ts: set<SocketId>, code: int)
    requires Inv(s) && ts <= s.heap.Keys
    ensures Inv(s.(sockets := CloseTunnels(s.sockets, Clients(s.channels, ts), ts, code)))
  {
    SocketsKeep(s, CloseTunnels(s.sockets, Clients(s.channels, ts), ts, code));
  }

  lemma DisposeKeeps(s: State, ts: set<SocketId>, hs: set<HostId>, code: int)
    requires Inv(s) && ts <= s.heap.Keys && hs == HostsOf(s.regs, ts)
    requires forall h | h in hs && h in s.tunnels :: s.tunnels[h] in ts
    ensures Inv(Dispose(s, ts, code).(tunnels := s.tunnels - hs))
  {
    CloseTunnelsKeeps(s, ts, code);
    RetireKeeps(s.(sockets := CloseTunnels(s.sockets, Clients(s.channels, ts), ts, code)), ts, hs);
  }

  lemma EvictIsSound(s: State, h: HostId)
    requires Inv(s)
    ensures Inv(Evict(s, h)) && h !in Evict(s, h).tunnels
  {
    if h in s.tunnels {
      assert HostsOf(s.regs, {s.tunnels[h]}) == {h};
      DisposeKeeps(s, {s.tunnels[h]}, {h}, 1000);
    }
  }

  lemma EvictKeeps(s: State, h: HostId)
    requires Inv(s)
    ensures Inv(Evict(s, h)) && h !in Evict(s, h).tunnels
    ensures Evict(s, h).regs == s.regs && Evict(s, h).heap.Keys == s.heap.Keys
    ensures forall w | w in s.regs && w !in s.heap :: IsOpen(s.sockets, w) ==> IsOpen(Evict(s, h).sockets, w)
    ensures forall w | w in s.sockets :: w in Evict(s, h).sockets
  {
    EvictIsSound(s, h);
  }

  lemma RegisterBeginKeeps(s: State, w: SocketId, h: HostId)
    requires Inv(s) && Enabled(s, ERegister(w, h))
    ensures Inv(RegisterBegin(s, w, h))
  {
    if s.draining {
      var s1 := s.(sockets := Close(s.sockets, w, WS_CLOSE_DRAIN));
      SocketsKeep(s, s1.sockets);
      assert s1.calls + [] == s1.calls;
      PhaseKeeps(s1, w, h, Done(Refused), []);
    } else {
      EvictKeeps(s, h);
      PhaseKeeps(Evict(s, h), w, h, Writing(0), [Write(h, w)]);
    }
  }

  lemma InstallStepKeeps(s: State, w: SocketId)
    requires Inv(s) && w in s.regs && s.regs[w].phase.Writing? && IsOpen(s.sockets, w) && !s.draining
    ensures Inv(Install(s, w, s.regs[w].host))
  {
    EvictKeeps(s, s.regs[w].host);
    InstallKeeps(Evict(s, s.regs[w].host), w, s.regs[w].host);
  }

  lemma FailKeeps(s: State, w: SocketId)
    requires Inv(s) && w in s.regs && s.regs[w].phase.Writing?
    ensures Inv(SetPhase(s.(sockets := Close(s.sockets, w, 1011)), w, s.regs[w].host, Done(WriteFailed)))
  {
    var s1 := s.(sockets := Close(s.sockets, w, 1011));
    CloseKeeps(s, w, 1011);
    assert s1.calls + [] == s1.calls;
    PhaseKeeps(s1, w, s.regs[w].host, Done(WriteFailed), []);
  }

  lemma WrittenKeeps(s: State, w: SocketId)
    requires Inv(s) && Enabled(s, EAttempt(w, true))
    ensures Inv(AttemptDone(s, w, true))
  {
    var h := s.regs[w].host;
    if IsOpen(s.sockets, w) && !s.draining {
      InstallStepKeeps(s, w);
    } else {
      PhaseKeeps(s, w, h, RollingBack, [CompareAndDelete(h, w)]);
    }
  }

  lemma UnwrittenKeeps(s: State, w: SocketId)
    requires Inv(s) && Enabled(s, EAttempt(w, false))
    ensures Inv(AttemptDone(s, w, false))
  {
    if s.regs[w].phase.attempt == REGISTER_ATTEMPTS - 1 {
      FailKeeps(s, w);
    } else {
      RetryKeeps(s, w);
    }
  }

  lemma RetryKeeps(s: State, w: SocketId)
    requires Inv(s) && w in s.regs && s.regs[w].phase.Writing?
    requires s.regs[w].phase.attempt + 1 < REGISTER_ATTEMPTS
    ensures Inv(AttemptDone(s, w, false))
  {
    var h, i := s.regs[w].host, s.regs[w].phase.attempt;
    assert Movable(s, w, h, Writing(i + 1), [Write(h, w)]) by {
      assert RegOk(s.regs[w], w, NotOpen(s.sockets, w), s.draining, s.calls);
    }
    PhaseKeeps(s, w, h, Writing(i + 1), [Write(h, w)]);
    assert AttemptDone(s, w, false) == SetPhase(s.(calls := s.calls + [Write(h, w)]), w, h, Writing(i + 1));
  }

  lemma RollbackDoneKeeps(s: State, w: SocketId)
    requires Inv(s) && Enabled(s, ERollback(w))
    ensures Inv(RollbackDone(s, w))
  {
    var s1 := if s.draining then s.(sockets := Close(s.sockets, w, WS_CLOSE_DRAIN)) else s;
    SocketsKeep(s, s1.sockets);
    assert s1.calls + [] == s1.calls;
    PhaseKeeps(s1, w, s.regs[w].host, Done(RolledBack), []);
  }

  lemma UnregisterKeeps(s: State, h: HostId, w: Option<SocketId>)
    requires Inv(s)
    ensures Inv(Unregister(s, h, w))
  {
    if Unregister(s, h, w) != s {
      EvictKeeps(s, h);
      CallKeeps(Evict(s, h), CompareAndDelete(h, s.tunnels[h]));
    }
  }

  lemma DrainNoted(s: State, d: DrainId)
    requires Inv(s)
    ensures Inv(s.(draining := true, drains := s.drains[d := Drain(Values(s.tunnels), false)]))
  {
    assert Values(s.tunnels) <= s.heap.Keys;
  }

  lemma DrainBeginKeeps(s: State, d: DrainId)
    requires Inv(s) && d !in s.drains
    ensures Inv(DrainBegin(s, d))
  {
    SocketsKeep(s, SendAll(s.sockets, Values(s.tunnels), DrainNotice));
    DrainNoted(s.(sockets := SendAll(s.sockets, Values(s.tunnels), DrainNotice)), d);
  }

  lemma DrainEndKeeps(s: State, d: DrainId)
    requires Inv(s) && d in s.drains
    ensures Inv(DrainEnd(s, d))
    ensures DrainEnd(s, d).tunnels == map[]
  {
    var ts := s.drains[d].snapshot;
    var hs := HostsOf(s.regs, ts);
    forall h | h in s.tunnels ensures s.tunnels[h] in ts && h in hs {
      assert s.tunnels[h] in Values(s.tunnels);
    }
    DisposeKeeps(s, ts, hs, WS_CLOSE_DRAIN);
  }

  lemma TrafficKeeps(s: State, w: SocketId, m: Message)
    requires Inv(s) && (w in s.sockets ==> Belongs(s.requests, s.channels, s.regs, w, m))
    ensures Inv(s.(sockets := Send(s.sockets, w, m)))
  {
    SocketsKeep(s, Send(s.sockets, w, m));
  }

  lemma CloseKeeps(s: State, w: SocketId, code: int)
    requires Inv(s)
    ensures Inv(s.(sockets := Close(s.sockets, w, code)))
  {
    SocketsKeep(s, Close(s.sockets, w, code));
  }

  lemma PingKeeps(s: State, t: SocketId)
    requires Inv(s) && Enabled(s, EPing(t))
    ensures Inv(PingTick(s, t))
  {
    var n := s.heap[t].missed + 1;
    if n >= PING_TIMEOUT_MISSED {
      CloseKeeps(s, t, 1001);
      MissedKeeps(s.(sockets := Close(s.sockets, t, 1001)), t, n);
    } else {
      TrafficKeeps(s, t, Ping);
      MissedKeeps(s.(sockets := Send(s.sockets, t, Ping)), t, n);
    }
  }

  lemma PongKeeps(s: State, h: HostId)
    requires Inv(s)
    ensures Inv(Pong(s, h))
  {
    if h in s.tunnels {
      MissedKeeps(s, s.tunnels[h], 0);
      CallKeeps(s.(heap := s.heap[s.tunnels[h] := s.heap[s.tunnels[h]].(missed := 0)]), Heartbeat(h));
    }
  }

  lemma SendKeeps(s: State, h: HostId, id: RequestId)
    requires Inv(s) && id !in s.requests
    ensures Inv(SendRequest(s, h, id))
  {
    if SendVerdict(s, h).Accepted? {
      AcceptKeeps(s, s.tunnels[h], id);
      TrafficKeeps(s.(requests := s.requests[id := Request(s.tunnels[h], true, true, Waiting)]), s.tunnels[h], Http(id));
    }
  }

  lemma OpenKeeps(s: State, h: HostId, id: ChannelId, client: SocketId)
    requires Inv(s) && Enabled(s, EOpen(h, id, client))
    ensures Inv(OpenChannel(s, h, id, client))
  {
    if CanOpen(s, h) {
      AddChannelKeeps(s, s.tunnels[h], id, client);
      TrafficKeeps(s.(channels := s.channels[id := Channel(s.tunnels[h], client, true)]), s.tunnels[h], WsOpen(id));
    } else {
      CloseKeeps(s, client, 1011);
    }
  }

  lemma CloseChannelKeeps(s: State, h: HostId, id: ChannelId)
    requires Inv(s) && Enabled(s, EClientGone(h, id))
    ensures Inv(CloseChannel(s, h, id))
  {
    UnlistKeeps(s, h, id);
    if h in s.tunnels { TrafficKeeps(Unlist(s, h, id), s.tunnels[h], WsClose(id)); }
  }

  lemma HostCloseKeeps(s: State, h: HostId, id: ChannelId, code: Option<int>)
    requires Inv(s)
    ensures Inv(HostClose(s, h, id, code))
  {
    if HasChannel(s, h, id) {
      var c := if code.Some? then code.value else 1000;
      CloseKeeps(s, s.channels[id].client, c);
      UnlistKeeps(s.(sockets := Close(s.sockets, s.channels[id].client, c)), h, id);
    }
  }

  lemma MembershipKeeps(s: State, e: Event)
    requires Inv(s) && Enabled(s, e)
    requires e.EConnect? || e.ESocketDown? || e.ERegister? || e.EAttempt? || e.ERollback? || e.EUnregister?
    ensures Inv(Next(s, e))
  {
    match e
    case EConnect(w) => SocketsKeep(s, Connect(s, w).sockets);
    case ESocketDown(w) => SocketsKeep(s, SocketDown(s, w).sockets);
    case ERegister(w, h) => RegisterBeginKeeps(s, w, h);
    case EAttempt(w, ok) => if ok { WrittenKeeps(s, w); } else { UnwrittenKeeps(s, w); }
    case ERollback(w) => RollbackDoneKeeps(s, w);
    case EUnregister(h, w) => UnregisterKeeps(s, h, w);
  }

  lemma DrainAndPingKeeps(s: State, e: Event)
    requires Inv(s) && Enabled(s, e)
    requires e.EDrainBegin? || e.EDrainClear? || e.EDrainEnd? || e.EPing? || e.EPong?
    ensures Inv(Next(s, e))
  {
    match e
    case EDrainBegin(d) => DrainBeginKeeps(s, d);
    case EDrainClear(d) => CallKeeps(s, ClearOwn);
    case EDrainEnd(d) => DrainEndKeeps(s, d);
    case EPing(w) => PingKeeps(s, w);
    case EPong(h) => PongKeeps(s, h);
  }

  lemma RequestsKeep(s: State, e: Event)
    requires Inv(s) && Enabled(s, e)
    requires e.ESend? || e.EResponse? || e.ETimeout?
    ensures Inv(Next(s, e))
  {
    match e
    case ESend(h, id) => SendKeeps(s, h, id);
    case EResponse(h, id) => if Response(s, h, id) != s { FinishKeeps(s, id, Resolved); }
    case ETimeout(id) => FinishKeeps(s, id, TimedOut);
  }

  lemma ClientStepsKeep(s: State, e: Event)
    requires Inv(s) && Enabled(s, e) && (e.EOpen? || e.EClientFrame? || e.EClientGone?)
    ensures Inv(Next(s, e))
  {
    match e
    case EOpen(h, ch, client) => OpenKeeps(s, h, ch, client);
    case EClientFrame(h, ch, data) => if h in s.tunnels { TrafficKeeps(s, s.tunnels[h], WsFrame(ch, data)); }
    case EClientGone(h, ch) => CloseChannelKeeps(s, h, ch);
  }

  lemma HostStepsKeep(s: State, e: Event)
    requires Inv(s) && Enabled(s, e) && (e.EHostFrame? || e.EHostClose?)
    ensures Inv(Next(s, e))
  {
    match e
    case EHostFrame(h, ch, data) => if HasChannel(s, h, ch) { TrafficKeeps(s, s.channels[ch].client, Payload(ch, data)); }
    case EHostClose(h, ch, code) => HostCloseKeeps(s, h, ch, code);
  }

  lemma NextKeeps(s: State, e: Event)
    requires Inv(s) && Enabled(s, e)
    ensures Inv(Next(s, e))
  {
    if e.EConnect? || e.ESocketDown? || e.ERegister? || e.EAttempt? || e.ERollback? || e.EUnregister? {
      MembershipKeeps(s, e);
    } else if e.EDrainBegin? || e.EDrainClear? || e.EDrainEnd? || e.EPing? || e.EPong? {
      DrainAndPingKeeps(s, e);
    } else if e.ESend? || e.EResponse? || e.ETimeout? {
      RequestsKeep(s, e);
    } else if e.EHostFrame? || e.EHostClose? {
      HostStepsKeep(s, e);
    } else {
      ClientStepsKeep(s, e);
    }
  }
}
