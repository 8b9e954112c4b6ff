/** What each step of `TunnelManager` does for its caller, seen from outside. */
module TunnelEffects {
  import opened Basics
  import opened TunnelModel
  import opened TunnelInvariant
  import opened TunnelRuns

  /** Some run of the protocol ends here, so every theorem about runs holds here. */
  ghost predicate Reachable(s: State) {
    exists es: seq<Event> :: Runs(Init, es, s)
  }

  lemma ReachableHolds(s: State)
    requires Reachable(s)
    ensures Inv(s)
  {
    var es: seq<Event> :| Runs(Init, es, s);
    InitHolds();
    RunsKeep(Init, es, s);
  }

  lemma {:induction false} RunsSnoc(s: State, es: seq<Event>, u: State, e: Event)
    requires Runs(s, es, u) && Enabled(u, e)
    ensures Runs(s, es + [e], Next(u, e))
    decreases |es|
  {
    if es == [] {
      assert (es + [e])[1..] == [];
    } else {
      assert (es + [e])[1..] == es[1..] + [e];
      RunsSnoc(Next(s, es[0]), es[1..], u, e);
    }
  }

  lemma StepReaches(s: State, e: Event)
    requires Reachable(s) && Enabled(s, e)
    ensures Reachable(Next(s, e))
  {
    var es: seq<Event> :| Runs(Init, es, s);
    RunsSnoc(Init, es, s, e);
  }

  lemma InitIsReachable()
    ensures Reachable(Init)
  {
    assert Runs(Init, [], Init);
  }

  /** Whatever happened at `k`, the table is as it was everywhere else. */
  ghost predicate SameBut<K(!new), V>(was: map<K, V>, now: map<K, V>, k: K) {
    forall x | x != k :: (x in now <==> x in was) && (x in was ==> now[x] == was[x])
  }

  /** An open socket is sent this message and nothing else. */
  predicate Told(was: Sockets, now: Sockets, w: SocketId, m: Message) {
    IsOpen(was, w) ==> IsOpen(now, w) && now[w].sent == was[w].sent + [m]
  }

  /** The host has no tunnel now, and the one it had is disposed. */
  ghost predicate HostFreed(s: State, r: State, h: HostId) {
    h !in r.tunnels && SameBut(s.tunnels, r.tunnels, h) && (h in s.tunnels ==> Disposed(r, s.tunnels[h]))
  }

  /** `disposeTunnel` on a current tunnel leaves nothing of it: what it does not list has settled before. */
  lemma DisposedIsDisposed(s: State, t: SocketId, code: int)
    requires Ledger(s.requests, s.tunnels, s.regs) && ClientsHeld(s.channels, s.tunnels, s.regs, s.sockets)
    requires ChannelsLinked(s.channels, s.heap, s.sockets, s.regs) && t in s.heap && t in s.sockets
    ensures Disposed(Dispose(s, {t}, code), t)
  {
    var r := Dispose(s, {t}, code);
    forall c | c in r.channels && r.channels[c].tunnel == t ensures NotOpen(r.sockets, r.channels[c].client) {
      if s.channels[c].listed { assert s.channels[c].client in Clients(s.channels, {t}); }
    }
  }

  ghost predicate Evictable(s: State, h: HostId) {
    h in s.tunnels ==> Disposed(Evict(s, h), s.tunnels[h])
  }

  lemma CurrentIsEvictable(s: State, h: HostId)
    requires Reachable(s)
    ensures Evictable(s, h)
  {
    ReachableHolds(s);
    if h in s.tunnels { DisposedIsDisposed(s, s.tunnels[h], 1000); }
  }

  // ------------------------------------------------------------------ registration

  /** Refused while draining; otherwise the host is freed and the directory write is under way. */
  ghost predicate RegistrationBegun(s: State, r: State, w: SocketId, h: HostId) {
    if s.draining then
      w in r.regs && r.regs[w].phase == Done(Refused) && NotOpen(r.sockets, w) && r.tunnels == s.tunnels && r.calls == s.calls
    else
      HostFreed(s, r, h) && w in r.regs && r.regs[w].phase == Writing(0) && r.calls == s.calls + [Write(h, w)]
  }

  lemma RegisterBeginEffect(s: State, w: SocketId, h: HostId)
    requires Reachable(s) && Enabled(s, ERegister(w, h))
    ensures Reachable(RegisterBegin(s, w, h))
    ensures RegistrationBegun(s, RegisterBegin(s, w, h), w, h)
  {
    StepReaches(s, ERegister(w, h));
    CurrentIsEvictable(s, h);
  }

  /** The host's tunnel is this socket, its timer runs, and the tunnel it displaced is disposed. */
  ghost predicate TookOver(s: State, r: State, w: SocketId, h: HostId) {
    && h in r.tunnels && r.tunnels[h] == w && SameBut(s.tunnels, r.tunnels, h)
    && w in r.heap && r.heap[w] == Tunnel(true, 0) && (h in s.tunnels ==> Disposed(r, s.tunnels[h]))
  }

  /** No host has changed; a write that came too late is being taken back, the first two that fail are tried again at once,
      and the third shuts the socket. */
  ghost predicate NotInstalled(s: State, r: State, w: SocketId, h: HostId, ok: bool)
    requires w in s.regs && s.regs[w].phase.Writing?
  {
    && r.tunnels == s.tunnels && w !in r.heap && !(h in r.tunnels && r.tunnels[h] == w) && w in r.regs
    && (if ok then CompareAndDelete(h, w) in r.calls && r.sockets == s.sockets
        else if s.regs[w].phase.attempt + 1 < REGISTER_ATTEMPTS then
          r.regs[w].phase == Writing(s.regs[w].phase.attempt + 1) && r.calls == s.calls + [Write(h, w)] && r.sockets == s.sockets
        else r.regs[w].phase == Done(WriteFailed) && NotOpen(r.sockets, w) && r.calls == s.calls)
  }

  /** A socket becomes its host's tunnel exactly when the write succeeded, it is still open and nothing drains. */
  ghost predicate AttemptSettled(s: State, r: State, w: SocketId, ok: bool)
    requires w in s.regs && s.regs[w].phase.Writing?
  {
    if ok && IsOpen(s.sockets, w) && !s.draining then TookOver(s, r, w, s.regs[w].host)
    else NotInstalled(s, r, w, s.regs[w].host, ok)
  }

  predicate NoTunnelYet(tunnels: Tunnels, heap: Heap, w: SocketId) {
    w !in heap && forall h | h in tunnels :: tunnels[h] != w
  }

  /** A registration still writing is no tunnel yet. */
  lemma NotYetInstalled(s: State, w: SocketId)
    requires TunnelsLinked(s.tunnels, s.heap, s.regs) && w in s.regs && s.regs[w].phase.Writing?
    ensures NoTunnelYet(s.tunnels, s.heap, w)
  { }

  lemma InstallEffect(s: State, w: SocketId)
    requires Enabled(s, EAttempt(w, true)) && NoTunnelYet(s.tunnels, s.heap, w) && Evictable(s, s.regs[w].host)
    requires IsOpen(s.sockets, w) && !s.draining
    ensures TookOver(s, AttemptDone(s, w, true), w, s.regs[w].host)
  { }

  lemma RollbackBegins(s: State, w: SocketId)
    requires Enabled(s, EAttempt(w, true)) && NoTunnelYet(s.tunnels, s.heap, w)
    requires !IsOpen(s.sockets, w) || s.draining
    ensures NotInstalled(s, AttemptDone(s, w, true), w, s.regs[w].host, true)
  {
    assert AttemptDone(s, w, true).calls[|s.calls|] == CompareAndDelete(s.regs[w].host, w);
  }

  lemma UnwrittenEffect(s: State, w: SocketId)
    requires Enabled(s, EAttempt(w, false)) && NoTunnelYet(s.tunnels, s.heap, w) && w in s.sockets
    requires s.regs[w].phase.attempt < REGISTER_ATTEMPTS
    ensures NotInstalled(s, AttemptDone(s, w, false), w, s.regs[w].host, false)
  { }

  lemma CurrentIsHeld(s: State, h: HostId)
    requires Reachable(s)
    ensures h in s.tunnels ==> s.tunnels[h] in s.heap
  {
    ReachableHolds(s);
  }

  lemma WritingIsSound(s: State, w: SocketId)
    requires Reachable(s) && w in s.regs && s.regs[w].phase.Writing?
    ensures NoTunnelYet(s.tunnels, s.heap, w) && w in s.sockets && s.regs[w].phase.attempt < REGISTER_ATTEMPTS
  {
    ReachableHolds(s);
    assert RegOk(s.regs[w], w, NotOpen(s.sockets, w), s.draining, s.calls);
    NotYetInstalled(s, w);
  }

  lemma AttemptEffect(s: State, w: SocketId, ok: bool)
    requires Reachable(s) && Enabled(s, EAttempt(w, ok))
    ensures Reachable(AttemptDone(s, w, ok))
    ensures AttemptSettled(s, AttemptDone(s, w, ok), w, ok)
  {
    StepReaches(s, EAttempt(w, ok));
    WritingIsSound(s, w);
    CurrentIsEvictable(s, s.regs[w].host);
    if !ok { UnwrittenEffect(s, w); }
    else if IsOpen(s.sockets, w) && !s.draining { InstallEffect(s, w); }
    else { RollbackBegins(s, w); }
  }

  /** The registration is over: its socket is shut and no host has changed. */
  ghost predicate RollbackSettled(s: State, r: State, w: SocketId) {
    w in r.regs && r.regs[w].phase == Done(RolledBack) && NotOpen(r.sockets, w) && r.tunnels == s.tunnels && r.heap == s.heap
  }

  lemma RollbackEffect(s: State, w: SocketId)
    requires Reachable(s) && Enabled(s, ERollback(w))
    ensures Reachable(RollbackDone(s, w))
    ensures RollbackSettled(s, RollbackDone(s, w), w)
  {
    StepReaches(s, ERollback(w));
    RolledBackIsShut(s, RollbackDone(s, w), w);
  }

  lemma RolledBackIsShut(s: State, r: State, w: SocketId)
    requires Reachable(s) && w in s.regs && s.regs[w].phase.RollingBack?
    requires Reachable(r) && r.heap == s.heap && w in r.regs && r.regs[w].phase.Done?
    ensures NotOpen(r.sockets, w)
  {
    ReachableHolds(s);
    assert w !in s.heap;
    ReachableHolds(r);
    UninstalledIsShut(r, w);
  }

  /** Nothing happens when the caller's socket is not the host's; otherwise the host is freed and its entry given up. */
  ghost predicate Unregistered(s: State, r: State, h: HostId, w: Option<SocketId>) {
    if h !in s.tunnels || (w.Some? && s.tunnels[h] != w.value) then r == s
    else HostFreed(s, r, h) && r.calls == s.calls + [CompareAndDelete(h, s.tunnels[h])]
  }

  lemma UnregisterEffect(s: State, h: HostId, w: Option<SocketId>)
    requires Reachable(s)
    ensures Reachable(Unregister(s, h, w))
    ensures Unregistered(s, Unregister(s, h, w), h, w)
  {
    StepReaches(s, EUnregister(h, w));
    CurrentIsEvictable(s, h);
  }

  // ------------------------------------------------------------------------ drain

  /** From now on everything is refused; the snapshot is all current tunnels, and each open one was told. */
  ghost predicate DrainAnnounced(s: State, r: State, d: DrainId) {
    && r.draining && r.tunnels == s.tunnels && d in r.drains && r.drains[d].snapshot == Values(s.tunnels)
    && forall h | h in s.tunnels :: Told(s.sockets, r.sockets, s.tunnels[h], DrainNotice)
  }

  lemma DrainBeginEffect(s: State, d: DrainId)
    requires Reachable(s) && Enabled(s, EDrainBegin(d))
    ensures Reachable(DrainBegin(s, d))
    ensures DrainAnnounced(s, DrainBegin(s, d), d)
  {
    StepReaches(s, EDrainBegin(d));
    forall h | h in s.tunnels && IsOpen(s.sockets, s.tunnels[h])
      ensures DrainBegin(s, d).sockets[s.tunnels[h]] == Send1(s.sockets[s.tunnels[h]], DrainNotice)
    { assert s.tunnels[h] in Values(s.tunnels); }
  }

  /** The clear is issued, and the snapshot still covers every current tunnel. */
  ghost predicate ClearIssued(s: State, r: State, d: DrainId) {
    r.calls == s.calls + [ClearOwn] && d in r.drains && r.drains[d].cleared && Values(r.tunnels) <= r.drains[d].snapshot
  }

  lemma DrainClearEffect(s: State, d: DrainId)
    requires Reachable(s) && Enabled(s, EDrainClear(d))
    ensures Reachable(DrainClear(s, d))
    ensures ClearIssued(s, DrainClear(s, d), d)
  {
    StepReaches(s, EDrainClear(d));
    ReachableHolds(s);
  }

  /** No host has a tunnel, and nothing of any tunnel is left. */
  ghost predicate Emptied(r: State) {
    && r.tunnels == map[] && (forall t | t in r.heap :: Disposed(r, t))
    && (forall id | id in r.requests :: !r.requests[id].outcome.Waiting? && !r.requests[id].timerArmed)
    && (forall c | c in r.channels :: NotOpen(r.sockets, r.channels[c].client))
  }

  lemma DrainEndEffect(s: State, d: DrainId)
    requires Reachable(s) && Enabled(s, EDrainEnd(d))
    ensures Reachable(DrainEnd(s, d))
    ensures Emptied(DrainEnd(s, d))
  {
    StepReaches(s, EDrainEnd(d));
    ReachableHolds(s);
    SnapshotHosts(s.tunnels, s.heap, s.regs, s.drains[d].snapshot);
    EmptyIsEmptied(DrainEnd(s, d));
  }

  lemma EmptyIsEmptied(r: State)
    requires Reachable(r) && r.tunnels == map[]
    ensures Emptied(r)
  {
    ReachableHolds(r);
    EmptyMapMeansDisposed(r);
  }

  lemma SnapshotHosts(tunnels: Tunnels, heap: Heap, regs: Regs, ts: set<SocketId>)
    requires TunnelsLinked(tunnels, heap, regs) && Values(tunnels) <= ts
    ensures tunnels - HostsOf(regs, ts) == map[]
  {
    assert forall h | h in tunnels :: tunnels[h] in Values(tunnels) && h in HostsOf(regs, ts);
  }

  // ------------------------------------------------------------------------ pings

  /** One more miss; the third shuts the socket, and before that an open one is pinged. No other socket hears of it. */
  ghost predicate Pinged(s: State, r: State, t: SocketId)
    requires t in s.heap
  {
    && t in r.heap && r.heap[t].missed == s.heap[t].missed + 1
    && (r.heap[t].missed >= PING_TIMEOUT_MISSED ==> NotOpen(r.sockets, t))
    && (r.heap[t].missed < PING_TIMEOUT_MISSED ==> Told(s.sockets, r.sockets, t, Ping))
    && SameBut(s.sockets, r.sockets, t) && r.tunnels == s.tunnels
  }

  lemma PingEffect(s: State, t: SocketId)
    requires Reachable(s) && t in s.heap && s.heap[t].pingArmed
    ensures Reachable(PingTick(s, t))
    ensures Pinged(s, PingTick(s, t), t)
  {
    StepReaches(s, EPing(t));
    ReachableHolds(s);
  }

  /** The host's tunnel has missed nothing and one heartbeat is sent for the host; of a host without one, nothing changes. */
  ghost predicate Answering(s: State, r: State, h: HostId) {
    if h in s.tunnels then
      && s.tunnels[h] in r.heap && r.heap[s.tunnels[h]].missed == 0 && SameBut(s.heap, r.heap, s.tunnels[h])
      && r.calls == s.calls + [Heartbeat(h)] && r.sockets == s.sockets && r.tunnels == s.tunnels
    else r == s
  }

  lemma PongEffect(s: State, h: HostId)
    requires Reachable(s)
    ensures Reachable(Pong(s, h)) && Answering(s, Pong(s, h), h)
  {
    StepReaches(s, EPong(h));
    CurrentIsHeld(s, h);
  }

  // --------------------------------------------------------------------- requests

  /** Accepted exactly when the host is connected and below its limit: then the request waits with its timer on and an open
      socket has been sent it; refused, nothing has changed. */
  ghost predicate RequestTaken(s: State, r: State, h: HostId, id: RequestId, verdict: SendResult) {
    && (verdict.Accepted? <==> h in s.tunnels && |Pending(s.requests, s.tunnels[h])| < MAX_PENDING)
    && (verdict.NotConnected? <==> h !in s.tunnels)
    && (!verdict.Accepted? ==> r == s)
    && (verdict.Accepted? ==>
          && id in Pending(r.requests, s.tunnels[h]) && r.requests[id].outcome.Waiting? && r.requests[id].timerArmed
          && |Pending(r.requests, s.tunnels[h])| == |Pending(s.requests, s.tunnels[h])| + 1 <= MAX_PENDING
          && Told(s.sockets, r.sockets, s.tunnels[h], Http(id)))
  }

  lemma SendEffect(s: State, h: HostId, id: RequestId)
    requires Reachable(s) && Enabled(s, ESend(h, id))
    ensures Reachable(SendRequest(s, h, id))
    ensures RequestTaken(s, SendRequest(s, h, id), h, id, SendVerdict(s, h))
  {
    StepReaches(s, ESend(h, id));
    if SendVerdict(s, h).Accepted? {
      PendingUpdate(s.requests, id, Request(s.tunnels[h], true, true, Waiting), s.tunnels[h]);
    }
  }

  /** The request has this outcome, its timer is off and it is listed nowhere; every other request is as it was. */
  ghost predicate SettledAs(s: State, r: State, id: RequestId, how: Outcome) {
    && id in r.requests && r.requests[id].outcome == how && !r.requests[id].timerArmed && !r.requests[id].listed
    && SameBut(s.requests, r.requests, id)
  }

  lemma TimeoutEffect(s: State, id: RequestId)
    requires Reachable(s) && Enabled(s, ETimeout(id))
    ensures Reachable(Timeout(s, id))
    ensures SettledAs(s, Timeout(s, id), id, TimedOut)
  {
    StepReaches(s, ETimeout(id));
    ReachableHolds(s);
  }

  /** A request waiting in the host's tunnel is resolved; any other, settled ones included, stays as it was. */
  ghost predicate Answered(s: State, r: State, h: HostId, id: RequestId) {
    if h in s.tunnels && id in s.requests && s.requests[id].tunnel == s.tunnels[h] && s.requests[id].outcome.Waiting?
    then SettledAs(s, r, id, Resolved)
    else forall x | x in s.requests :: x in r.requests && r.requests[x].outcome == s.requests[x].outcome
  }

  lemma FinishSettles(s: State, id: RequestId, how: Outcome)
    requires id in s.requests && s.requests[id].outcome.Waiting?
    ensures SettledAs(s, Finish(s, id, how), id, how)
  { }

  lemma WaitingIsPending(s: State, id: RequestId)
    requires Reachable(s) && id in s.requests && s.requests[id].outcome.Waiting?
    ensures s.requests[id].listed
  {
    ReachableHolds(s);
  }

  lemma ResponseEffect(s: State, h: HostId, id: RequestId)
    requires Reachable(s)
    ensures Reachable(Response(s, h, id))
    ensures Answered(s, Response(s, h, id), h, id)
  {
    StepReaches(s, EResponse(h, id));
    if id in s.requests && s.requests[id].outcome.Waiting? {
      WaitingIsPending(s, id);
      FinishSettles(s, id, Resolved);
    }
  }

  // --------------------------------------------------------------------- channels

  /** Open exactly when the host's socket is: then the channel is listed and the host told; else the client is shut. */
  ghost predicate ChannelOpened(s: State, r: State, h: HostId, id: ChannelId, client: SocketId) {
    if CanOpen(s, h) then Channelled(s, r, h, id, client) else r.channels == s.channels && NotOpen(r.sockets, client)
  }

  ghost predicate Channelled(s: State, r: State, h: HostId, id: ChannelId, client: SocketId)
    requires h in s.tunnels
  {
    && HasChannel(r, h, id) && r.channels[id].client == client && SameBut(s.channels, r.channels, id)
    && Told(s.sockets, r.sockets, s.tunnels[h], WsOpen(id))
  }

  lemma OpenTells(s: State, h: HostId, id: ChannelId, client: SocketId)
    requires client in s.sockets
    ensures ChannelOpened(s, OpenChannel(s, h, id, client), h, id, client)
  { }

  lemma OpenEffect(s: State, h: HostId, id: ChannelId, client: SocketId)
    requires Reachable(s) && id !in s.channels && client in s.sockets && client !in s.regs
    ensures Reachable(OpenChannel(s, h, id, client))
    ensures ChannelOpened(s, OpenChannel(s, h, id, client), h, id, client)
  {
    OpenTells(s, h, id, client);
    StepReaches(s, EOpen(h, id, client));
  }

  /** The host has the channel no more, and an open host socket was told. */
  ghost predicate ChannelLeft(s: State, r: State, h: HostId, id: ChannelId) {
    && !HasChannel(r, h, id) && SameBut(s.channels, r.channels, id)
    && (h in s.tunnels ==> Told(s.sockets, r.sockets, s.tunnels[h], WsClose(id)))
  }

  lemma CloseTells(s: State, h: HostId, id: ChannelId)
    ensures ChannelLeft(s, CloseChannel(s, h, id), h, id)
  { }

  lemma CloseChannelEffect(s: State, h: HostId, id: ChannelId)
    requires Reachable(s) && id in s.channels && NotOpen(s.sockets, s.channels[id].client)
    ensures Reachable(CloseChannel(s, h, id)) && ChannelLeft(s, CloseChannel(s, h, id), h, id)
  {
    CloseTells(s, h, id);
    StepReaches(s, EClientGone(h, id));
  }

  /** The host is handed the frame, if it is open, and no other socket gets anything; without a tunnel nothing changes. */
  ghost predicate FrameHanded(s: State, r: State, h: HostId, id: ChannelId, data: string) {
    if h in s.tunnels then
      && Told(s.sockets, r.sockets, s.tunnels[h], WsFrame(id, data)) && SameBut(s.sockets, r.sockets, s.tunnels[h])
      && r == s.(sockets := r.sockets)
    else r == s
  }

  lemma ClientFrameEffect(s: State, h: HostId, id: ChannelId, data: string)
    requires Reachable(s)
    ensures Reachable(ClientFrame(s, h, id, data)) && FrameHanded(s, ClientFrame(s, h, id, data), h, id, data)
  {
    StepReaches(s, EClientFrame(h, id, data));
  }

  /** The client of the host's own channel gets the frame if it is open, and no other socket gets anything. */
  ghost predicate FrameRelayed(s: State, r: State, h: HostId, id: ChannelId, data: string) {
    if HasChannel(s, h, id) then
      && SameBut(s.sockets, r.sockets, s.channels[id].client)
      && Told(s.sockets, r.sockets, s.channels[id].client, Payload(id, data))
    else r == s
  }

  lemma HostFrameEffect(s: State, h: HostId, id: ChannelId, data: string)
    requires Reachable(s)
    ensures Reachable(HostFrame(s, h, id, data))
    ensures FrameRelayed(s, HostFrame(s, h, id, data), h, id, data)
  {
    StepReaches(s, EHostFrame(h, id, data));
  }

  /** The host's own channel is gone and its client shut; of another's, nothing changes. */
  ghost predicate ChannelClosedByHost(s: State, r: State, h: HostId, id: ChannelId) {
    if HasChannel(s, h, id) then !HasChannel(r, h, id) && NotOpen(r.sockets, s.channels[id].client)
    else r == s
  }

  lemma HostCloseEffect(s: State, h: HostId, id: ChannelId, code: Option<int>)
    requires Reachable(s)
    ensures Reachable(HostClose(s, h, id, code))
    ensures ChannelClosedByHost(s, HostClose(s, h, id, code), h, id)
  {
    StepReaches(s, EHostClose(h, id, code));
    ReachableHolds(s);
  }
}
