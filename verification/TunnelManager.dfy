/**
 `TunnelManager` as an object.  Each method is one stretch of code between two
 awaits and is proved to take exactly the transition of the protocol model.
 */
module TunnelManagerClass {
  import opened Basics
  import opened TunnelModel
  import opened TunnelInvariant
  import opened TunnelRuns
  import opened TunnelEffects
  import opened TunnelTranscript

  /** The tail of `drain` after disposing `ts`. */
  ghost function Partly(s: State, ts: set<SocketId>): State {
    Dispose(s, ts, WS_CLOSE_DRAIN).(tunnels := s.tunnels - HostsOf(s.regs, ts))
  }

  lemma PartlyNone(s: State)
    ensures Partly(s, {}) == s
  {
    var d := Dispose(s, {}, WS_CLOSE_DRAIN);
    assert Clients(s.channels, {}) == {} && HostsOf(s.regs, {}) == {};
    assert d.heap == s.heap && d.requests == s.requests && d.sockets == s.sockets;
  }

  /** Disposing one more tunnel is disposing the larger set: no client is a tunnel's own socket. */
  lemma PartlyOneMore(s: State, ts: set<SocketId>, t: SocketId)
    requires ts + {t} !! Clients(s.channels, ts + {t}) && t in s.regs
    ensures Partly(s, ts + {t}) ==
      Dispose(Partly(s, ts), {t}, WS_CLOSE_DRAIN).(tunnels := Partly(s, ts).tunnels - {s.regs[t].host})
  {
    SocketsOneMore(s.sockets, s.channels, ts, t, WS_CLOSE_DRAIN);
    assert HostsOf(s.regs, ts + {t}) == HostsOf(s.regs, ts) + {s.regs[t].host};
    TablesOneMore(s.heap, s.requests, ts, t);
  }

  lemma TablesOneMore(heap: Heap, rs: Requests, ts: set<SocketId>, t: SocketId)
    ensures Stopped(Stopped(heap, ts), {t}) == Stopped(heap, ts + {t})
    ensures RejectAll(RejectAll(rs, ts), {t}) == RejectAll(rs, ts + {t})
  { }

  lemma SocketsOneMore(ss: Sockets, cs: Channels, ts: set<SocketId>, t: SocketId, code: int)
    requires ts + {t} !! Clients(cs, ts + {t})
    ensures CloseTunnels(CloseTunnels(ss, Clients(cs, ts), ts, code), Clients(cs, {t}), {t}, code)
         == CloseTunnels(ss, Clients(cs, ts + {t}), ts + {t}, code)
  {
    assert Clients(cs, ts + {t}) == Clients(cs, ts) + Clients(cs, {t});
  }

  ghost predicate Disposable(s: State, ts: set<SocketId>) {
    ts <= s.heap.Keys && ts <= s.regs.Keys && ts !! Clients(s.channels, ts)
  }

  lemma PartlyStep(s: State, all: set<SocketId>, ts: set<SocketId>, t: SocketId)
    requires Disposable(s, all) && ts <= all && t in all
    ensures Disposable(s, ts + {t}) && t in s.heap && t in s.regs
    ensures Partly(s, ts + {t}) ==
      Dispose(Partly(s, ts), {t}, WS_CLOSE_DRAIN).(tunnels := Partly(s, ts).tunnels - {s.regs[t].host})
  {
    assert Clients(s.channels, ts + {t}) <= Clients(s.channels, all);
    PartlyOneMore(s, ts, t);
  }

  /** What `DrainAfterClear` relies on holds whenever a drain is suspended. */
  lemma SnapshotIsDisposable(s: State, d: DrainId)
    requires Reachable(s) && d in s.drains
    ensures Disposable(s, s.drains[d].snapshot)
  {
    ReachableHolds(s);
  }

  class TunnelManager {
    var tunnels: Tunnels
    var heap: Heap
    var sockets: Sockets
    var requests: Requests
    var channels: Channels
    var regs: Regs
    var drains: map<DrainId, Drain>
    var draining: bool
    var calls: seq<DirectoryCall>

    function Abs(): State reads this {
      State(tunnels, heap, sockets, requests, channels, regs, drains, draining, calls)
    }

    ghost predicate Valid() reads this { Reachable(Abs()) }

    constructor ()
      ensures Valid() && Abs() == Init
    {
      InitIsReachable();
      tunnels, heap, sockets, requests, channels := map[], map[], map[], map[], map[];
      regs, drains, draining, calls := map[], map[], false, [];
    }

    /** `disposeTunnel`: stop the ping timer, reject every pending request, close every client, close the socket. */
    method DisposeTunnel(t: SocketId, code: int)
      requires t in heap
      modifies this
      ensures Abs() == Dispose(old(Abs()), {t}, code)
    {
      heap := heap[t := heap[t].(pingArmed := false)];
      RejectPending(t);
      CloseClients(t);
      sockets := Close(sockets, t, code);
      assert heap == Stopped(old(heap), {t});
      assert sockets == CloseTunnels(old(sockets), Clients(channels, {t}), {t}, code);
    }

    method RejectPending(t: SocketId)
      modifies this`requests
      ensures requests == RejectAll(old(requests), {t})
    {
      var todo := Pending(requests, t);
      while todo != {}
        invariant todo <= Pending(old(requests), t)
        invariant requests == map id | id in old(requests) ::
          if id in Pending(old(requests), t) - todo
          then old(requests)[id].(timerArmed := false, outcome := Settle(old(requests)[id].outcome, Rejected))
          else old(requests)[id]
      {
        var id :| id in todo;
        requests := requests[id := requests[id].(timerArmed := false)];
        requests := requests[id := requests[id].(outcome := Settle(requests[id].outcome, Rejected))];
        todo := todo - {id};
      }
    }

    method CloseClients(t: SocketId)
      modifies this`sockets
      ensures sockets == map w | w in old(sockets) ::
        if w in Clients(channels, {t}) then Closing1(old(sockets)[w], 1001) else old(sockets)[w]
    {
      var all := Clients(channels, {t});
      var todo := all;
      while todo != {}
        invariant todo <= all
        invariant sockets == map w | w in old(sockets) ::
          if w in all - todo then Closing1(old(sockets)[w], 1001) else old(sockets)[w]
      {
        var c :| c in todo;
        sockets := Close(sockets, c, 1001);
        todo := todo - {c};
      }
    }

    /** The host's tunnel, if it has one, is disposed and forgotten. */
    method EvictHost(h: HostId)
      requires h in tunnels ==> tunnels[h] in heap
      modifies this
      ensures Abs() == Evict(old(Abs()), h)
    {
      if h in tunnels {
        DisposeTunnel(tunnels[h], 1000);
        tunnels := tunnels - {h};
      }
    }

    /** The start of `register`, up to its first await. */
    method RegisterUntilWrite(w: SocketId, h: HostId)
      requires Valid() && Enabled(Abs(), ERegister(w, h))
      modifies this
      ensures Abs() == RegisterBegin(old(Abs()), w, h)
      ensures Valid() && RegistrationBegun(old(Abs()), Abs(), w, h)
    {
      RegisterBeginEffect(Abs(), w, h);
      if draining {
        sockets := Close(sockets, w, WS_CLOSE_DRAIN);
        regs := regs[w := Registration(h, Done(Refused))];
        return;
      }
      EvictHost(h);
      calls := calls + [Write(h, w)];
      regs := regs[w := Registration(h, Writing(0))];
    }

    /** A directory write attempt settled: retry, give up, roll back or install. */
    method RegisterAfterAttempt(w: SocketId, written: bool)
      requires Valid() && Enabled(Abs(), EAttempt(w, written))
      modifies this
      ensures Abs() == AttemptDone(old(Abs()), w, written)
      ensures Valid() && AttemptSettled(old(Abs()), Abs(), w, written)
    {
      AttemptEffect(Abs(), w, written);
      CurrentIsHeld(Abs(), regs[w].host);
      SettleAttempt(w, written);
    }

    /** Its statements. */
    method SettleAttempt(w: SocketId, written: bool)
      requires w in regs && regs[w].phase.Writing?
      requires regs[w].host in tunnels ==> tunnels[regs[w].host] in heap
      modifies this
      ensures Abs() == AttemptDone(old(Abs()), w, written)
    {
      var h, i := regs[w].host, regs[w].phase.attempt;
      if !written {
        if i == REGISTER_ATTEMPTS - 1 {
          sockets := Close(sockets, w, 1011);
          regs := regs[w := Registration(h, Done(WriteFailed))];
        } else {
          calls := calls + [Write(h, w)];
          regs := regs[w := Registration(h, Writing(i + 1))];
        }
        return;
      }
      if !IsOpen(sockets, w) || draining {
        calls := calls + [CompareAndDelete(h, w)];
        regs := regs[w := Registration(h, RollingBack)];
        return;
      }
      EvictHost(h);
      heap := heap[w := Tunnel(true, 0)];
      tunnels := tunnels[h := w];
      regs := regs[w := Registration(h, Done(Installed))];
    }

    /** The rollback's directory call settled. */
    method RegisterAfterRollback(w: SocketId)
      requires Valid() && Enabled(Abs(), ERollback(w))
      modifies this
      ensures Abs() == RollbackDone(old(Abs()), w)
      ensures Valid() && RollbackSettled(old(Abs()), Abs(), w)
    {
      RollbackEffect(Abs(), w);
      if draining { sockets := Close(sockets, w, WS_CLOSE_DRAIN); }
      regs := regs[w := Registration(regs[w].host, Done(RolledBack))];
    }

    method UnregisterTunnel(h: HostId, w: Option<SocketId>)
      requires Valid()
      modifies this
      ensures Abs() == Unregister(old(Abs()), h, w)
      ensures Valid() && Unregistered(old(Abs()), Abs(), h, w)
    {
      UnregisterEffect(Abs(), h, w);
      if h !in tunnels { return; }
      var t := tunnels[h];
      if w.Some? && t != w.value { return; }
      EvictHost(h);
      calls := calls + [CompareAndDelete(h, t)];
    }

    /** `drain` up to its first await: refuse newcomers, snapshot, notify. */
    method DrainUntilNotified(d: DrainId)
      requires Valid() && Enabled(Abs(), EDrainBegin(d))
      modifies this
      ensures Abs() == DrainBegin(old(Abs()), d)
      ensures Valid() && DrainAnnounced(old(Abs()), Abs(), d)
    {
      DrainBeginEffect(Abs(), d);
      draining := true;
      var snapshot := Values(tunnels);
      NotifyAll(snapshot);
      drains := drains[d := Drain(snapshot, false)];
    }

    method NotifyAll(snapshot: set<SocketId>)
      modifies this`sockets
      ensures sockets == SendAll(old(sockets), snapshot, DrainNotice)
    {
      var todo := snapshot;
      while todo != {}
        invariant todo <= snapshot
        invariant sockets == map w | w in old(sockets) ::
          if w in snapshot - todo then Send1(old(sockets)[w], DrainNotice) else old(sockets)[w]
      {
        var t :| t in todo;
        sockets := Send(sockets, t, DrainNotice);
        todo := todo - {t};
      }
    }

    /** `drain` when its notices have had their time: the directory clear is issued. */
    method DrainClearsDirectory(d: DrainId)
      requires Valid() && Enabled(Abs(), EDrainClear(d))
      modifies this
      ensures Abs() == DrainClear(old(Abs()), d)
      ensures Valid() && ClearIssued(old(Abs()), Abs(), d)
    {
      DrainClearEffect(Abs(), d);
      calls := calls + [ClearOwn];
      drains := drains[d := drains[d].(cleared := true)];
    }

    /** One turn of the loop of `drain`: the snapshot `all` of `start` is disposed up to `done`. */
    method DisposeMember(t: SocketId, ghost start: State, ghost all: set<SocketId>, ghost done: set<SocketId>)
      requires Disposable(start, all) && done <= all && t in all && Abs() == Partly(start, done)
      modifies this
      ensures Abs() == Partly(start, done + {t})
    {
      PartlyStep(start, all, done, t);
      DisposeTunnel(t, WS_CLOSE_DRAIN);
      tunnels := tunnels - {regs[t].host};
    }

    /** The loop of `drain` over its snapshot. */
    method DisposeSnapshot(snapshot: set<SocketId>)
      requires Disposable(Abs(), snapshot)
      modifies this
      ensures Abs() == Partly(old(Abs()), snapshot)
    {
      var done: set<SocketId> := {};
      PartlyNone(Abs());
      while snapshot - done != {}
        invariant done <= snapshot
        invariant Abs() == Partly(old(Abs()), done)
        decreases snapshot - done
      {
        var t :| t in snapshot - done;
        DisposeMember(t, old(Abs()), snapshot, done);
        done := done + {t};
      }
      assert done == snapshot;
    }

    /** The tail of `drain`, once the directory clear has settled. */
    method DrainAfterClear(d: DrainId)
      requires Valid() && Enabled(Abs(), EDrainEnd(d))
      modifies this
      ensures Abs() == DrainEnd(old(Abs()), d)
      ensures Valid() && Emptied(Abs()) && Observed(old(Abs()), EDrainEnd(d), Abs())
    {
      StepIsObserved(Abs(), EDrainEnd(d));
      DrainEndEffect(Abs(), d);
      SnapshotIsDisposable(Abs(), d);
      DisposeSnapshot(drains[d].snapshot);
      drains := drains - {d};
    }

    /** The ping interval of tunnel `t` fires. */
    method PingTimer(t: SocketId)
      requires Valid() && t in heap && heap[t].pingArmed
      modifies this
      ensures Abs() == PingTick(old(Abs()), t)
      ensures Valid() && Pinged(old(Abs()), Abs(), t)
    {
      PingEffect(Abs(), t);
      heap := heap[t := heap[t].(missed := heap[t].missed + 1)];
      if heap[t].missed >= PING_TIMEOUT_MISSED {
        sockets := Close(sockets, t, 1001);
      } else {
        sockets := Send(sockets, t, Ping);
      }
    }

    method SendHttpRequest(h: HostId, id: RequestId) returns (r: SendResult)
      requires Valid() && Enabled(Abs(), ESend(h, id))
      modifies this
      ensures r == SendVerdict(old(Abs()), h)
      ensures Abs() == SendRequest(old(Abs()), h, id)
      ensures Valid() && RequestTaken(old(Abs()), Abs(), h, id, r)
    {
      SendEffect(Abs(), h, id);
      if h !in tunnels { return NotConnected; }
      var t := tunnels[h];
      if |Pending(requests, t)| >= MAX_PENDING { return Overloaded; }
      requests := requests[id := Request(t, true, true, Waiting)];
      sockets := Send(sockets, t, Http(id));
      return Accepted;
    }

    method RequestTimer(id: RequestId)
      requires Valid() && Enabled(Abs(), ETimeout(id))
      modifies this
      ensures Abs() == Timeout(old(Abs()), id)
      ensures Valid() && SettledAs(old(Abs()), Abs(), id, TimedOut)
    {
      TimeoutEffect(Abs(), id);
      var r := requests[id];
      requests := requests[id := r.(listed := false, timerArmed := false, outcome := Settle(r.outcome, TimedOut))];
    }

    /** Throws, changing nothing, when the host cannot be reached. */
    method OpenWsChannel(h: HostId, id: ChannelId, client: SocketId) returns (threw: bool)
      requires Valid() && id !in channels && client in sockets && client !in regs
      modifies this
      ensures threw <==> !CanOpen(old(Abs()), h)
      ensures Abs() == if threw then old(Abs()) else OpenChannel(old(Abs()), h, id, client)
      ensures Valid() && (!threw ==> Channelled(old(Abs()), Abs(), h, id, client))
    {
      if h !in tunnels || !IsOpen(sockets, tunnels[h]) { return true; }
      OpenEffect(Abs(), h, id, client);
      ListChannel(h, id, client);
      return false;
    }

    method ListChannel(h: HostId, id: ChannelId, client: SocketId)
      requires CanOpen(Abs(), h)
      modifies this
      ensures Abs() == OpenChannel(old(Abs()), h, id, client)
    {
      channels := channels[id := Channel(tunnels[h], client, true)];
      sockets := Send(sockets, tunnels[h], WsOpen(id));
    }

    /** The endpoint's open handler. */
    method ClientConnects(h: HostId, id: ChannelId, client: SocketId)
      requires Valid() && id !in channels && client in sockets && client !in regs
      modifies this
      ensures Abs() == OpenChannel(old(Abs()), h, id, client)
      ensures Valid() && ChannelOpened(old(Abs()), Abs(), h, id, client)
    {
      OpenEffect(Abs(), h, id, client);
      var threw := OpenWsChannel(h, id, client);
      if threw { sockets := Close(sockets, client, 1011); }
    }

    /** The endpoint's close and error handlers. */
    method CloseWsChannel(h: HostId, id: ChannelId)
      requires Valid()
      modifies this
      ensures Abs() == CloseChannel(old(Abs()), h, id) && ChannelLeft(old(Abs()), Abs(), h, id)
      ensures id in old(channels) && NotOpen(old(sockets), old(channels)[id].client) ==> Valid()
    {
      CloseTells(Abs(), h, id);
      if id in channels && NotOpen(sockets, channels[id].client) { CloseChannelEffect(Abs(), h, id); }
      UnlistChannel(h, id);
    }

    method UnlistChannel(h: HostId, id: ChannelId)
      modifies this
      ensures Abs() == CloseChannel(old(Abs()), h, id)
    {
      if h !in tunnels { return; }
      if id in channels && channels[id].listed && channels[id].tunnel == tunnels[h] {
        channels := channels[id := channels[id].(listed := false)];
      }
      sockets := Send(sockets, tunnels[h], WsClose(id));
    }

    method HandleHttpResponse(h: HostId, id: RequestId)
      requires Valid()
      modifies this
      ensures Abs() == Response(old(Abs()), h, id)
      ensures Valid() && Answered(old(Abs()), Abs(), h, id)
    {
      ResponseEffect(Abs(), h, id);
      if h !in tunnels { return; }
      if id in requests && requests[id].listed && requests[id].tunnel == tunnels[h] {
        var r := requests[id];
        requests := requests[id := r.(listed := false, timerArmed := false, outcome := Settle(r.outcome, Resolved))];
      }
    }

    method HandlePong(h: HostId)
      requires Valid()
      modifies this
      ensures Abs() == Pong(old(Abs()), h)
      ensures Valid() && Answering(old(Abs()), Abs(), h)
    {
      PongEffect(Abs(), h);
      if h !in tunnels || tunnels[h] !in heap { return; }
      heap := heap[tunnels[h] := heap[tunnels[h]].(missed := 0)];
      calls := calls + [Heartbeat(h)];
    }

    method HandleWsFrame(h: HostId, id: ChannelId, data: string)
      requires Valid()
      modifies this
      ensures Abs() == HostFrame(old(Abs()), h, id, data)
      ensures Valid() && FrameRelayed(old(Abs()), Abs(), h, id, data)
    {
      HostFrameEffect(Abs(), h, id, data);
      if h !in tunnels { return; }
      if id in channels && channels[id].listed && channels[id].tunnel == tunnels[h] {
        sockets := Send(sockets, channels[id].client, Payload(id, data));
      }
    }

    method HandleWsClose(h: HostId, id: ChannelId, code: Option<int>)
      requires Valid()
      modifies this
      ensures Abs() == HostClose(old(Abs()), h, id, code)
      ensures Valid() && ChannelClosedByHost(old(Abs()), Abs(), h, id)
      ensures Observed(old(Abs()), EHostClose(h, id, code), Abs())
    {
      StepIsObserved(Abs(), EHostClose(h, id, code));
      HostCloseEffect(Abs(), h, id, code);
      if h !in tunnels { return; }
      if id in channels && channels[id].listed && channels[id].tunnel == tunnels[h] {
        var client := channels[id].client;
        channels := channels[id := channels[id].(listed := false)];
        sockets := Close(sockets, client, if code.Some? then code.value else 1000);
      }
    }

    method SendWsFrame(h: HostId, id: ChannelId, data: string)
      requires Valid()
      modifies this
      ensures Abs() == ClientFrame(old(Abs()), h, id, data)
      ensures Valid() && FrameHanded(old(Abs()), Abs(), h, id, data)
    {
      ClientFrameEffect(Abs(), h, id, data);
      if h in tunnels { sockets := Send(sockets, tunnels[h], WsFrame(id, data)); }
    }
  }
}
