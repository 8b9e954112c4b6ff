/** One relay and the shared directory together: which directory calls of the relay's own registrations land when,
    and when a live local tunnel loses its entry (apps/relay/src/tunnel.ts, directory.ts). */
module RelayDirectory {
  import opened Basics
  import T = TunnelModel
  import TI = TunnelInvariant
  import TR = TunnelRuns
  import TT = TunnelTranscript
  import D = DirectoryModel
  import DR = DirectoryRuns

  /** The relay, the directory with its log, the registrations whose write has landed and the deletes that have. */
  datatype Both = Both(
    relay: T.State, dir: D.State, log: seq<D.Event>,
    wrote: set<T.SocketId>, removed: set<T.DirectoryCall>)

  /** A step of the relay; one of its calls landing; or the directory used by others. */
  datatype Step =
    | Relay(e: T.Event)
    | WriteLands(w: T.SocketId, now: int)
    | DeleteLands(h: T.HostId, w: T.SocketId)
    | ClearLands
    | Others(d: D.Event)

  const Start := Both(T.Init, D.Init, [], {}, {})

  /** What the directory sees of a step. */
  function Seen(me: D.Owner, b: Both, e: Step): Option<D.Event> {
    match e
    case Relay(_) => None
    case WriteLands(w, now) => if w in b.relay.regs then Some(D.ERegister(b.relay.regs[w].host, me, now)) else None
    case DeleteLands(h, _) => Some(D.EUnregister(h, me))
    case ClearLands => Some(D.EClear(me))
    case Others(d) => Some(d)
  }

  /** The directory as used by the other machines, and by anyone's heartbeats and sweeps. */
  predicate Foreign(me: D.Owner, d: D.Event) {
    d.ERegister? || d.EUnregister? || d.EClear? ==> d.from != me && D.Plain(d.from.region)
  }

  predicate CanStep(me: D.Owner, b: Both, e: Step) {
    && (match e
        case Relay(ev) => T.Enabled(b.relay, ev) && (ev.EAttempt? && ev.ok ==> ev.w in b.wrote)
        case WriteLands(w, _) => w in b.relay.regs && b.relay.regs[w].phase.Writing?
        case DeleteLands(h, w) => T.CompareAndDelete(h, w) in b.relay.calls && T.CompareAndDelete(h, w) !in b.removed
        case ClearLands => T.ClearOwn in b.relay.calls
        case Others(d) => Foreign(me, d))
    && (Seen(me, b, e).Some? ==> D.Enabled(b.dir, Seen(me, b, e).value))
  }

  function After(me: D.Owner, b: Both, e: Step): Both
    requires CanStep(me, b, e)
  {
    var b1 := match Seen(me, b, e)
      case None => b
      case Some(d) => b.(dir := D.Next(b.dir, d), log := b.log + [d]);
    match e
    case Relay(ev) => b1.(relay := T.Next(b.relay, ev))
    case WriteLands(w, _) => b1.(wrote := b.wrote + {w})
    case DeleteLands(h, w) => b1.(removed := b.removed + {T.CompareAndDelete(h, w)})
    case _ => b1
  }

  datatype Run = Begin | Onward(before: Run, step: Step)

  ghost predicate Leads(me: D.Owner, first: Both, r: Run, last: Both)
    decreases r
  {
    match r
    case Begin => last == first
    case Onward(before, e) => exists mid :: Leads(me, first, before, mid) && CanStep(me, mid, e) && last == After(me, mid, e)
  }

  // -------------------------------------------------------------------- invariants

  /** No compare-and-delete was issued for the current tunnel of its host. */
  predicate DeletesAreOld(s: T.State) {
    forall h, w | h in s.tunnels && s.tunnels[h] == w :: T.CompareAndDelete(h, w) !in s.calls
  }

  lemma DeletesStayOld(s: T.State, e: T.Event)
    requires TI.Inv(s) && DeletesAreOld(s) && T.Enabled(s, e)
    ensures DeletesAreOld(T.Next(s, e))
  {
    if e.EAttempt? {
      AttemptStaysOld(s, e.w, e.ok);
    } else if e.EUnregister? {
      UnregisterStaysOld(s, e.h, e.of);
    } else if e.ERegister? {
      RegisterStaysOld(s, e.w, e.h);
    } else if e.ERollback? {
      OthersStayOld(s, T.RollbackDone(s, e.w));
    } else if e.EPong? {
      OthersStayOld(s, T.Pong(s, e.h));
    } else {
      TR.QuietSteps(s, e);
      OthersStayOld(s, T.Next(s, e));
    }
  }

  lemma RegisterStaysOld(s: T.State, w: T.SocketId, h: T.HostId)
    requires DeletesAreOld(s)
    ensures DeletesAreOld(T.RegisterBegin(s, w, h))
  {
    OthersStayOld(s, T.RegisterBegin(s, w, h));
  }

  lemma AttemptStaysOld(s: T.State, w: T.SocketId, ok: bool)
    requires TI.Inv(s) && DeletesAreOld(s) && T.Enabled(s, T.EAttempt(w, ok))
    ensures DeletesAreOld(T.AttemptDone(s, w, ok))
  {
    NothingIssued(s, w);
    if ok && T.IsOpen(s.sockets, w) && !s.draining {
      InstallStaysOld(s, w, s.regs[w].host);
    } else if ok {
      RollbackStaysOld(s, w);
    } else {
      OthersStayOld(s, T.AttemptDone(s, w, false));
    }
  }

  /** A registration that still writes has issued no delete, and is no host's tunnel. */
  lemma NothingIssued(s: T.State, w: T.SocketId)
    requires TI.Inv(s) && w in s.regs && s.regs[w].phase.Writing?
    ensures T.CompareAndDelete(s.regs[w].host, w) !in s.calls && forall h | h in s.tunnels :: s.tunnels[h] != w
  {
    assert TI.RegOk(s.regs[w], w, T.NotOpen(s.sockets, w), s.draining, s.calls);
  }

  lemma InstallStaysOld(s: T.State, w: T.SocketId, h: T.HostId)
    requires DeletesAreOld(s) && T.CompareAndDelete(h, w) !in s.calls
    ensures DeletesAreOld(T.Install(s, w, h))
  { }

  lemma RollbackStaysOld(s: T.State, w: T.SocketId)
    requires DeletesAreOld(s) && w in s.regs && s.regs[w].phase.Writing? && (!T.IsOpen(s.sockets, w) || s.draining)
    requires forall h | h in s.tunnels :: s.tunnels[h] != w
    ensures DeletesAreOld(T.AttemptDone(s, w, true))
  { }

  lemma UnregisterStaysOld(s: T.State, h: T.HostId, of: Option<T.SocketId>)
    requires DeletesAreOld(s)
    ensures DeletesAreOld(T.Unregister(s, h, of))
  {
  }

  lemma OthersStayOld(s: T.State, r: T.State)
    requires DeletesAreOld(s)
    requires forall h | h in r.tunnels :: h in s.tunnels && r.tunnels[h] == s.tunnels[h]
    requires r.calls == s.calls || (|r.calls| == |s.calls| + 1 && s.calls <= r.calls && !r.calls[|s.calls|].CompareAndDelete?)
    ensures DeletesAreOld(r)
  {
    assert forall c | c in r.calls && c.CompareAndDelete? :: c in s.calls;
  }

  ghost predicate Inv(b: Both) {
    TI.Inv(b.relay) && DeletesAreOld(b.relay) && D.Runs(D.Init, b.log, b.dir)
  }

  lemma {:induction false} RunsKeep(me: D.Owner, r: Run, b: Both)
    requires Leads(me, Start, r, b)
    ensures Inv(b)
    decreases r
  {
    if r.Begin? {
      TR.InitHolds();
    } else {
      var mid :| Leads(me, Start, r.before, mid) && CanStep(me, mid, r.step) && b == After(me, mid, r.step);
      RunsKeep(me, r.before, mid);
      StepKeeps(me, mid, r.step);
    }
  }

  lemma StepKeeps(me: D.Owner, b: Both, e: Step)
    requires Inv(b) && CanStep(me, b, e)
    ensures Inv(After(me, b, e))
  {
    if e.Relay? {
      TI.NextKeeps(b.relay, e.e);
      DeletesStayOld(b.relay, e.e);
    } else {
      DR.RunsSnoc(D.Init, b.log, b.dir, Seen(me, b, e).value);
    }
  }

  // -------------------------------------------------------- losing a live tunnel's entry

  /** The directory names this machine for the host. */
  predicate Mine(me: D.Owner, b: Both, h: T.HostId) {
    h in b.dir.tables.owner && b.dir.tables.owner[h] == D.EncodeOwner(me)
  }

  /** A step takes this machine's entry for a host away exactly when a delete this relay issued for the host lands, its clear
      lands, a sweep comes past the grace period, or another machine registers the host. */
  lemma EntryIsLostExactly(me: D.Owner, r: Run, b: Both, e: Step, h: T.HostId)
    requires D.Plain(me.region) && Leads(me, Start, r, b) && CanStep(me, b, e) && Mine(me, b, h)
    ensures !Mine(me, After(me, b, e), h) <==>
      || (e.DeleteLands? && e.h == h)
      || e.ClearLands?
      || (e.Others? && e.d.ESweep? && e.d.now - DR.LastStamp(b.log, h) >= D.TTL_GRACE_MS)
      || (e.Others? && e.d.ERegister? && e.d.h == h)
  {
    RunsKeep(me, r, b);
    if Seen(me, b, e).Some? {
      DR.EntryGoesOnlyBy(b.log, b.dir, Seen(me, b, e).value, h, me);
      if e.Others? && e.d.ERegister? { DifferentStrings(me, e.d.from); }
    }
  }

  lemma DifferentStrings(a: D.Owner, b: D.Owner)
    requires a != b && D.Plain(a.region) && D.Plain(b.region)
    ensures D.EncodeOwner(a) != D.EncodeOwner(b)
  {
    if D.EncodeOwner(a) == D.EncodeOwner(b) { D.EncodeIsInjective(a, b); }
  }

  /** A delete that lands on a live tunnel's entry is always that of another registration of the host: one rolled back
      or a tunnel unregistered before. */
  lemma DeletesAreOthers(me: D.Owner, r: Run, b: Both, h: T.HostId, w: T.SocketId)
    requires Leads(me, Start, r, b) && CanStep(me, b, DeleteLands(h, w)) && h in b.relay.tunnels
    ensures b.relay.tunnels[h] != w
  {
    RunsKeep(me, r, b);
  }

  predicate RollsBack(s: T.State, w: T.SocketId) {
    w in s.regs && s.regs[w].phase.Writing? && (!T.IsOpen(s.sockets, w) || s.draining)
  }

  /** The rollback branch issues the registration's delete and changes no tunnel, socket or entry. */
  lemma RollbackIssues(me: D.Owner, b: Both, w: T.SocketId)
    requires w in b.wrote && RollsBack(b.relay, w)
    ensures CanStep(me, b, Relay(T.EAttempt(w, true)))
    ensures var b1 := After(me, b, Relay(T.EAttempt(w, true)));
      && b1.relay.calls == b.relay.calls + [T.CompareAndDelete(b.relay.regs[w].host, w)]
      && b1.relay.tunnels == b.relay.tunnels && b1.relay.sockets == b.relay.sockets
      && b1.relay.draining == b.relay.draining && b1.dir == b.dir && b1.wrote == b.wrote && b1.removed == b.removed
      && b1.relay.regs == b.relay.regs[w := T.Registration(b.relay.regs[w].host, T.RollingBack)]
  { }

  /** A delete that lands takes this machine's entry if it is there. */
  lemma DeleteTakes(me: D.Owner, b: Both, h: T.HostId, w: T.SocketId)
    requires T.CompareAndDelete(h, w) in b.relay.calls && T.CompareAndDelete(h, w) !in b.removed
    ensures CanStep(me, b, DeleteLands(h, w))
    ensures var b1 := After(me, b, DeleteLands(h, w));
      b1.relay == b.relay && !Mine(me, b1, h) && (Mine(me, b, h) ==> D.Lookup(b1.dir.tables, h) == None)
  { }

  /** A delete lands only after it was issued. */
  lemma {:induction false} RemovedWereIssued(me: D.Owner, r: Run, b: Both)
    requires Leads(me, Start, r, b)
    ensures forall c | c in b.removed :: c in b.relay.calls
    decreases r
  {
    if r.Onward? {
      var mid :| Leads(me, Start, r.before, mid) && CanStep(me, mid, r.step) && b == After(me, mid, r.step);
      RemovedWereIssued(me, r.before, mid);
      if r.step.Relay? { TR.NextRemembers(mid.relay, r.step.e); }
    }
  }

  lemma Fresh(me: D.Owner, r: Run, b: Both, w: T.SocketId)
    requires Leads(me, Start, r, b) && w in b.relay.regs && b.relay.regs[w].phase.Writing?
    ensures T.CompareAndDelete(b.relay.regs[w].host, w) !in b.removed
    ensures forall h | h in b.relay.tunnels :: b.relay.tunnels[h] != w
  {
    RunsKeep(me, r, b);
    RemovedWereIssued(me, r, b);
    NothingIssued(b.relay, w);
  }

  lemma OneStep(me: D.Owner, first: Both, r: Run, b: Both, e: Step) returns (r1: Run, b1: Both)
    requires Leads(me, first, r, b) && CanStep(me, b, e)
    ensures r1 == Onward(r, e) && b1 == After(me, b, e) && Leads(me, first, r1, b1)
  {
    r1, b1 := Onward(r, e), After(me, b, e);
  }

  // ------------------------------------------- when a live tunnel's entry is taken

  /** The host has a tunnel here, and the directory names this machine for it. */
  predicate Served(me: D.Owner, b: Both, h: T.HostId) {
    h in b.relay.tunnels && Mine(me, b, h)
  }

  /** The step takes the entry of a tunnel this relay still has. */
  predicate Hits(me: D.Owner, b: Both, e: Step, h: T.HostId) {
    CanStep(me, b, e) && Served(me, b, h) && !Mine(me, After(me, b, e), h)
  }

  /** As a delete lands, it takes a live local tunnel's entry exactly when its host has a tunnel at that moment and the directory
      names this machine; and the tunnel is never the one the delete was issued for. */
  lemma LandingHitsExactly(me: D.Owner, r: Run, b: Both, h: T.HostId, w: T.SocketId, k: T.HostId)
    requires D.Plain(me.region) && Leads(me, Start, r, b) && CanStep(me, b, DeleteLands(h, w))
    ensures Hits(me, b, DeleteLands(h, w), k) <==> k == h && Served(me, b, h)
    ensures Hits(me, b, DeleteLands(h, w), k) ==> b.relay.tunnels[k] != w
  {
    if Mine(me, b, k) { EntryIsLostExactly(me, r, b, DeleteLands(h, w), k); }
    if h in b.relay.tunnels { DeletesAreOthers(me, r, b, h, w); }
  }

  /** In some continuation the delete, whenever it lands, takes a live tunnel's entry. */
  ghost predicate MayHit(me: D.Owner, b: Both, h: T.HostId, w: T.SocketId) {
    exists r, last :: Leads(me, b, r, last) && Hits(me, last, DeleteLands(h, w), h)
  }

  // ------------------------------------------------------------- it can be taken

  predicate Issued(b: Both, h: T.HostId, w: T.SocketId) {
    T.CompareAndDelete(h, w) in b.relay.calls && T.CompareAndDelete(h, w) !in b.removed
  }

  lemma ServedIsHit(me: D.Owner, first: Both, r: Run, b: Both, h: T.HostId, w: T.SocketId)
    requires Leads(me, first, r, b) && Issued(b, h, w) && Served(me, b, h)
    ensures MayHit(me, first, h, w)
  {
    DeleteTakes(me, b, h, w);
    assert Hits(me, b, DeleteLands(h, w), h);
  }

  lemma NowIsHit(me: D.Owner, b: Both, h: T.HostId, w: T.SocketId)
    requires Issued(b, h, w) && Served(me, b, h)
    ensures MayHit(me, b, h, w)
  {
    assert Leads(me, b, Begin, b);
    ServedIsHit(me, b, Begin, b, h, w);
  }

  lemma LaterWriteIsHit(me: D.Owner, b: Both, h: T.HostId, w: T.SocketId)
    requires Issued(b, h, w) && h in b.relay.tunnels && !NoneWriting(b.relay.regs, h)
    ensures MayHit(me, b, h, w)
  {
    var x :| x in b.relay.regs && b.relay.regs[x].host == h && b.relay.regs[x].phase.Writing?;
    assert Leads(me, b, Begin, b);
    var r1, b1 := OneStep(me, b, Begin, b, WriteLands(x, 0));
    ServedIsHit(me, b, r1, b1, h, w);
  }

  lemma {:induction false} UnusedSocket(used: set<T.SocketId>) returns (x: T.SocketId)
    ensures x !in used && forall u | u in used :: u < x
  {
    x := 0;
    if used != {} {
      var u :| u in used;
      var y := UnusedSocket(used - {u});
      assert forall v | v in used :: v == u || v in used - {u};
      x := if u < y then y else u + 1;
    }
  }

  /** An open socket waits for the host's write while nothing drains. */
  predicate Registering(s: T.State, h: T.HostId, x: T.SocketId) {
    x in s.regs && s.regs[x] == T.Registration(h, T.Writing(0)) && T.IsOpen(s.sockets, x) && !s.draining
  }

  lemma RelayMoves(me: D.Owner, b: Both, ev: T.Event)
    requires T.Enabled(b.relay, ev) && (ev.EAttempt? && ev.ok ==> ev.w in b.wrote)
    ensures CanStep(me, b, Relay(ev)) && After(me, b, Relay(ev)) == b.(relay := T.Next(b.relay, ev))
  { }

  /** No channel and no tunnel is its own. */
  lemma NewSocketConnects(s: T.State, h: T.HostId, x: T.SocketId)
    requires TI.Inv(s) && x !in s.sockets
    ensures T.Enabled(T.Connect(s, x), T.ERegister(x, h)) && (h in s.tunnels ==> s.tunnels[h] != x)
  { }

  lemma ConnectedRegisters(s: T.State, h: T.HostId, x: T.SocketId)
    requires !s.draining && T.IsOpen(s.sockets, x) && T.Enabled(s, T.ERegister(x, h)) && (h in s.tunnels ==> s.tunnels[h] != x)
    ensures Registering(T.RegisterBegin(s, x, h), h, x) && s.calls <= T.RegisterBegin(s, x, h).calls
  {
    assert forall ts :: x !in T.Clients(s.channels, ts);
  }

  /** A new socket can register the host, whatever state the relay is in. */
  lemma NewcomerRegisters(me: D.Owner, r: Run, b: Both, h: T.HostId) returns (x: T.SocketId, on: Run, last: Both)
    requires Leads(me, Start, r, b) && !b.relay.draining
    ensures Leads(me, b, on, last) && Registering(last.relay, h, x)
    ensures b.relay.calls <= last.relay.calls && last.removed == b.removed
  {
    RunsKeep(me, r, b);
    x := UnusedSocket(b.relay.sockets.Keys);
    NewSocketConnects(b.relay, h, x);
    assert Leads(me, b, Begin, b);
    RelayMoves(me, b, T.EConnect(x));
    on, last := OneStep(me, b, Begin, b, Relay(T.EConnect(x)));
    ConnectedRegisters(last.relay, h, x);
    RelayMoves(me, last, T.ERegister(x, h));
    on, last := OneStep(me, b, on, last, Relay(T.ERegister(x, h)));
  }

  lemma WrittenInstalls(s: T.State, h: T.HostId, x: T.SocketId)
    requires Registering(s, h, x)
    ensures var s1 := T.AttemptDone(s, x, true);
      h in s1.tunnels && s1.tunnels[h] == x && s1.calls == s.calls && s1.draining == s.draining
  { }

  /** Once its write has landed, the registration's tunnel is the host's. */
  lemma RegisteringIsServed(me: D.Owner, first: Both, r: Run, b: Both, h: T.HostId, x: T.SocketId) returns (on: Run, last: Both)
    requires Leads(me, first, r, b) && Registering(b.relay, h, x)
    ensures Leads(me, first, on, last) && Served(me, last, h) && last.relay.calls == b.relay.calls && last.removed == b.removed
  {
    var w := WriteLands(x, 0);
    on, last := OneStep(me, first, r, b, w);
    assert last.relay == b.relay && Mine(me, last, h);
    WrittenInstalls(last.relay, h, x);
    RelayMoves(me, last, T.EAttempt(x, true));
    on, last := OneStep(me, first, on, last, Relay(T.EAttempt(x, true)));
  }

  /** A host that registers again, and is written before the delete lands, is hit. */
  lemma LaterInstallIsHit(me: D.Owner, r: Run, b: Both, h: T.HostId, w: T.SocketId)
    requires Leads(me, Start, r, b) && Issued(b, h, w) && !b.relay.draining
    ensures MayHit(me, b, h, w)
  {
    var x, r1, b1 := NewcomerRegisters(me, r, b, h);
    var r2, b2 := RegisteringIsServed(me, b, r1, b1, h, x);
    assert T.CompareAndDelete(h, w) in b2.relay.calls;
    ServedIsHit(me, b, r2, b2, h, w);
  }

  // ---------------------------------------------------------- it can not be taken

  predicate NoneWriting(regs: T.Regs, h: T.HostId) {
    forall x | x in regs && regs[x].host == h :: !regs[x].phase.Writing?
  }

  /** The relay drains, and the host has no tunnel or can not get its entry back. */
  predicate Barred(me: D.Owner, b: Both, h: T.HostId) {
    b.relay.draining && (h !in b.relay.tunnels || (!Mine(me, b, h) && NoneWriting(b.relay.regs, h)))
  }

  lemma AttemptStartsNone(s: T.State, x: T.SocketId, ok: bool, h: T.HostId)
    requires x in s.regs && s.regs[x].phase.Writing? && s.draining && NoneWriting(s.regs, h)
    ensures NoneWriting(T.AttemptDone(s, x, ok).regs, h)
  {
    assert s.regs[x].host != h;
  }

  lemma NoneStartsWriting(s: T.State, e: T.Event, h: T.HostId)
    requires T.Enabled(s, e) && s.draining && NoneWriting(s.regs, h)
    ensures NoneWriting(T.Next(s, e).regs, h)
  {
    match e
    case ERegister(x, k) => assert T.RegisterBegin(s, x, k).regs == s.regs[x := T.Registration(k, T.Done(T.Refused))];
    case EAttempt(x, ok) => AttemptStartsNone(s, x, ok, h);
    case ERollback(x) =>
    case EUnregister(k, of) => assert T.Unregister(s, k, of).regs == s.regs;
    case EPong(k) => assert T.Pong(s, k).regs == s.regs;
    case _ => TR.QuietSteps(s, e);
  }

  lemma BarredStays(me: D.Owner, b: Both, e: Step, h: T.HostId)
    requires D.Plain(me.region) && CanStep(me, b, e) && Barred(me, b, h)
    ensures Barred(me, After(me, b, e), h)
  {
    if e.Relay? {
      TR.NextGrows(b.relay, e.e);
      if h in b.relay.tunnels { NoneStartsWriting(b.relay, e.e, h); }
    } else if e.Others? && e.d.ERegister? {
      DifferentStrings(me, e.d.from);
    }
  }

  lemma {:induction false} BarredForGood(me: D.Owner, first: Both, r: Run, last: Both, h: T.HostId)
    requires D.Plain(me.region) && Leads(me, first, r, last) && Barred(me, first, h)
    ensures Barred(me, last, h)
    decreases r
  {
    if r.Onward? {
      var mid :| Leads(me, first, r.before, mid) && CanStep(me, mid, r.step) && last == After(me, mid, r.step);
      BarredForGood(me, first, r.before, mid, h);
      BarredStays(me, mid, r.step, h);
    }
  }

  lemma BarredIsSafe(me: D.Owner, b: Both, h: T.HostId, w: T.SocketId)
    requires D.Plain(me.region) && Barred(me, b, h)
    ensures !MayHit(me, b, h, w)
  {
    forall r, last | Leads(me, b, r, last) ensures !Hits(me, last, DeleteLands(h, w), h) {
      BarredForGood(me, b, r, last, h);
    }
  }

  lemma LastIsIn(calls: seq<T.DirectoryCall>)
    requires calls != []
    ensures calls[|calls| - 1] in calls
  { }

  // ------------------------------------------------------- what may still be taken

  /** A delete that is issued and has not landed may come to take a live tunnel's entry exactly when nothing drains, or the host
      has a tunnel and the directory names this machine or a write that is still to come may make it. */
  lemma PendingDeleteHitsExactly(me: D.Owner, r: Run, b: Both, h: T.HostId, w: T.SocketId)
    requires D.Plain(me.region) && Leads(me, Start, r, b) && Issued(b, h, w)
    ensures MayHit(me, b, h, w) <==>
      !b.relay.draining || (h in b.relay.tunnels && (Mine(me, b, h) || !NoneWriting(b.relay.regs, h)))
  {
    if !b.relay.draining {
      LaterInstallIsHit(me, r, b, h, w);
    } else if h in b.relay.tunnels && Mine(me, b, h) {
      NowIsHit(me, b, h, w);
    } else if h in b.relay.tunnels && !NoneWriting(b.relay.regs, h) {
      LaterWriteIsHit(me, b, h, w);
    } else {
      BarredIsSafe(me, b, h, w);
    }
  }

  /** Another registration of the host waits for its directory write. */
  predicate OtherWriting(s: T.State, h: T.HostId, w: T.SocketId) {
    exists x | x in s.regs :: x != w && s.regs[x].host == h && s.regs[x].phase.Writing?
  }

  /** So when a written registration takes the rollback branch, whether its delete may take a live tunnel's entry is known there. */
  lemma RollbackHitsExactly(me: D.Owner, r: Run, b: Both, w: T.SocketId)
    requires D.Plain(me.region) && Leads(me, Start, r, b) && w in b.wrote && RollsBack(b.relay, w)
    ensures CanStep(me, b, Relay(T.EAttempt(w, true)))
    ensures var h := b.relay.regs[w].host;
      MayHit(me, After(me, b, Relay(T.EAttempt(w, true))), h, w) <==>
        !b.relay.draining || (h in b.relay.tunnels && (Mine(me, b, h) || OtherWriting(b.relay, h, w)))
  {
    var h := b.relay.regs[w].host;
    Fresh(me, r, b, w);
    RollbackIssues(me, b, w);
    var r1, b1 := OneStep(me, Start, r, b, Relay(T.EAttempt(w, true)));
    LastIsIn(b1.relay.calls);
    StillWriting(b.relay, b1.relay, h, w);
    PendingDeleteHitsExactly(me, r1, b1, h, w);
  }

  lemma StillWriting(s: T.State, s1: T.State, h: T.HostId, w: T.SocketId)
    requires w in s.regs && s1.regs == s.regs[w := T.Registration(s.regs[w].host, T.RollingBack)]
    ensures NoneWriting(s1.regs, h) <==> !OtherWriting(s, h, w)
  {
    forall x | x in s1.regs && x != w ensures x in s.regs && s1.regs[x] == s.regs[x] {}
  }

  // ------------------------------------------- a rollback that takes a live tunnel's entry

  /** Two open sockets of one host, both waiting for their directory write. */
  ghost predicate BothWriting(b: Both, h: T.HostId, w1: T.SocketId, w2: T.SocketId) {
    var s := b.relay;
    && w1 in s.regs && s.regs[w1] == T.Registration(h, T.Writing(0)) && T.IsOpen(s.sockets, w1)
    && w2 in s.regs && s.regs[w2] == T.Registration(h, T.Writing(0)) && T.IsOpen(s.sockets, w2)
    && s.tunnels == map[] && !s.draining
  }

  lemma TwoConnect(me: D.Owner, w1: T.SocketId, w2: T.SocketId) returns (r: Run, b: Both)
    requires w1 != w2
    ensures Leads(me, Start, r, b) && T.IsOpen(b.relay.sockets, w1) && T.IsOpen(b.relay.sockets, w2)
    ensures b.relay.regs == map[] && b.relay.channels == map[] && b.relay.tunnels == map[] && !b.relay.draining
  {
    r, b := Begin, Start;
    r, b := OneStep(me, Start, r, b, Relay(T.EConnect(w1)));
    r, b := OneStep(me, Start, r, b, Relay(T.EConnect(w2)));
  }

  lemma TwoRegister(me: D.Owner, h: T.HostId, w1: T.SocketId, w2: T.SocketId) returns (r: Run, b: Both)
    requires w1 != w2
    ensures Leads(me, Start, r, b) && BothWriting(b, h, w1, w2)
  {
    r, b := TwoConnect(me, w1, w2);
    r, b := OneStep(me, Start, r, b, Relay(T.ERegister(w1, h)));
    r, b := OneStep(me, Start, r, b, Relay(T.ERegister(w2, h)));
  }

  lemma TwoWrite(me: D.Owner, h: T.HostId, w1: T.SocketId, w2: T.SocketId) returns (r: Run, b: Both)
    requires w1 != w2
    ensures Leads(me, Start, r, b) && BothWriting(b, h, w1, w2) && w1 in b.wrote && w2 in b.wrote && Mine(me, b, h)
  {
    r, b := TwoRegister(me, h, w1, w2);
    r, b := OneStep(me, Start, r, b, WriteLands(w1, 0));
    r, b := OneStep(me, Start, r, b, WriteLands(w2, 1));
  }

  /** The second socket becomes the host's tunnel, and the first one closes. */
  lemma SecondInstalls(me: D.Owner, h: T.HostId, w1: T.SocketId, w2: T.SocketId) returns (r: Run, b: Both)
    requires w1 != w2
    ensures Leads(me, Start, r, b) && Mine(me, b, h) && w1 in b.wrote && RollsBack(b.relay, w1) && b.relay.regs[w1].host == h
    ensures h in b.relay.tunnels && b.relay.tunnels[h] == w2 && T.IsOpen(b.relay.sockets, w2)
  {
    r, b := TwoWrite(me, h, w1, w2);
    r, b := OneStep(me, Start, r, b, Relay(T.EAttempt(w2, true)));
    r, b := OneStep(me, Start, r, b, Relay(T.ESocketDown(w1)));
  }

  /** For every host and any two sockets: the first registration's rollback deletes the entry of the second, whose tunnel
      stays current and open. */
  lemma RollbackErasesNewerRegistration(me: D.Owner, h: T.HostId, w1: T.SocketId, w2: T.SocketId) returns (r: Run, b: Both)
    requires D.Plain(me.region) && w1 != w2
    ensures Leads(me, Start, r, b)
    ensures h in b.relay.tunnels && b.relay.tunnels[h] == w2 && T.IsOpen(b.relay.sockets, w2)
    ensures b.relay.calls != [] && b.relay.calls[|b.relay.calls| - 1] == T.CompareAndDelete(h, w1)
    ensures D.Lookup(b.dir.tables, h) == None
  {
    r, b := SecondInstalls(me, h, w1, w2);
    RollbackIssues(me, b, w1);
    Fresh(me, r, b, w1);
    r, b := OneStep(me, Start, r, b, Relay(T.EAttempt(w1, true)));
    LastIsIn(b.relay.calls);
    DeleteTakes(me, b, h, w1);
    r, b := OneStep(me, Start, r, b, DeleteLands(h, w1));
  }

  /** Even when the host has no tunnel as the rollback begins: the second registration is installed before the delete lands. */
  lemma RollbackErasesLaterRegistration(me: D.Owner, h: T.HostId, w1: T.SocketId, w2: T.SocketId)
    returns (r0: Run, b0: Both, r: Run, b: Both)
    requires D.Plain(me.region) && w1 != w2
    ensures Leads(me, Start, r0, b0) && w1 in b0.wrote && RollsBack(b0.relay, w1) && h !in b0.relay.tunnels
    ensures r == Onward(Onward(Onward(r0, Relay(T.EAttempt(w1, true))), Relay(T.EAttempt(w2, true))), DeleteLands(h, w1))
    ensures Leads(me, Start, r, b) && !b.relay.draining
    ensures h in b.relay.tunnels && b.relay.tunnels[h] == w2 && T.IsOpen(b.relay.sockets, w2)
    ensures D.Lookup(b.dir.tables, h) == None
  {
    r0, b0 := TwoWrite(me, h, w1, w2);
    r0, b0 := OneStep(me, Start, r0, b0, Relay(T.ESocketDown(w1)));
    RollbackIssues(me, b0, w1);
    Fresh(me, r0, b0, w1);
    r, b := OneStep(me, Start, r0, b0, Relay(T.EAttempt(w1, true)));
    LastIsIn(b.relay.calls);
    r, b := LateInstallLosesEntry(me, r, b, h, w1, w2);
  }

  lemma LateInstallLosesEntry(me: D.Owner, r: Run, b: Both, h: T.HostId, w1: T.SocketId, w2: T.SocketId) returns (r2: Run, b2: Both)
    requires Leads(me, Start, r, b) && Issued(b, h, w1) && Mine(me, b, h) && Registering(b.relay, h, w2) && w2 in b.wrote
    requires h !in b.relay.tunnels
    ensures r2 == Onward(Onward(r, Relay(T.EAttempt(w2, true))), DeleteLands(h, w1))
    ensures Leads(me, Start, r2, b2) && !b2.relay.draining
    ensures h in b2.relay.tunnels && b2.relay.tunnels[h] == w2 && T.IsOpen(b2.relay.sockets, w2)
    ensures D.Lookup(b2.dir.tables, h) == None
  {
    WrittenInstalls(b.relay, h, w2);
    RelayMoves(me, b, T.EAttempt(w2, true));
    r2, b2 := OneStep(me, Start, r, b, Relay(T.EAttempt(w2, true)));
    DeleteTakes(me, b2, h, w1);
    r2, b2 := OneStep(me, Start, r2, b2, DeleteLands(h, w1));
  }

  // ------------------------------------------------------------ what landed before

  /** The registration's write came back successful. */
  predicate Written(p: T.Phase) {
    p.RollingBack? || p == T.Done(T.Installed) || p == T.Done(T.RolledBack)
  }

  /** The directory has seen a write of this registration, in this machine's name. */
  ghost predicate WriteSeen(me: D.Owner, regs: T.Regs, log: seq<D.Event>, w: T.SocketId) {
    w in regs && exists now :: D.ERegister(regs[w].host, me, now) in log
  }

  ghost predicate WritesLanded(me: D.Owner, regs: T.Regs, wrote: set<T.SocketId>, log: seq<D.Event>) {
    && (forall w | w in regs && Written(regs[w].phase) :: w in wrote)
    && (forall w | w in wrote :: WriteSeen(me, regs, log, w))
  }

  /** A relay step tells a registration that its write was successful only when it was. */
  lemma OnlyWrittenAdvance(s: T.State, e: T.Event, wrote: set<T.SocketId>)
    requires T.Enabled(s, e) && (e.EAttempt? && e.ok ==> e.w in wrote)
    requires forall w | w in s.regs && Written(s.regs[w].phase) :: w in wrote
    ensures forall w | w in T.Next(s, e).regs && Written(T.Next(s, e).regs[w].phase) :: w in wrote
  {
    if e.ERegister? || e.EAttempt? || e.ERollback? {
      TT.OnlyItsPhase(s, e);
    } else if TR.Quiet(e) {
      TR.QuietSteps(s, e);
    }
  }

  lemma StillSeen(me: D.Owner, regs: T.Regs, log: seq<D.Event>, regs': T.Regs, log': seq<D.Event>, w: T.SocketId)
    requires WriteSeen(me, regs, log, w) && TR.RegsKept(regs, regs') && log <= log'
    ensures WriteSeen(me, regs', log', w)
  {
    var now :| D.ERegister(regs[w].host, me, now) in log;
    assert D.ERegister(regs'[w].host, me, now) in log';
  }

  lemma LandingStaysKnown(me: D.Owner, b: Both, e: Step)
    requires CanStep(me, b, e) && WritesLanded(me, b.relay.regs, b.wrote, b.log)
    ensures var n := After(me, b, e); WritesLanded(me, n.relay.regs, n.wrote, n.log)
  {
    var n := After(me, b, e);
    if e.Relay? {
      TR.NextRemembers(b.relay, e.e);
      OnlyWrittenAdvance(b.relay, e.e, b.wrote);
    }
    forall w | w in n.wrote ensures WriteSeen(me, n.relay.regs, n.log, w) {
      if w in b.wrote {
        StillSeen(me, b.relay.regs, b.log, n.relay.regs, n.log, w);
      } else {
        assert n.log[|b.log|] == D.ERegister(b.relay.regs[w].host, me, e.now);
      }
    }
  }

  /** In every joint run, a tunnel that is installed, and a registration that is rolled back, had its directory write land before, in
      this machine's name. */
  lemma {:induction false} AnswersFollowWrites(me: D.Owner, r: Run, b: Both)
    requires Leads(me, Start, r, b)
    ensures WritesLanded(me, b.relay.regs, b.wrote, b.log)
    ensures forall w | w in b.relay.heap :: WriteSeen(me, b.relay.regs, b.log, w)
    decreases r
  {
    if r.Onward? {
      var mid :| Leads(me, Start, r.before, mid) && CanStep(me, mid, r.step) && b == After(me, mid, r.step);
      AnswersFollowWrites(me, r.before, mid);
      LandingStaysKnown(me, mid, r.step);
    }
    RunsKeep(me, r, b);
    InstalledIsWritten(me, b);
  }

  lemma InstalledIsWritten(me: D.Owner, b: Both)
    requires TI.Inv(b.relay) && WritesLanded(me, b.relay.regs, b.wrote, b.log)
    ensures forall w | w in b.relay.heap :: WriteSeen(me, b.relay.regs, b.log, w)
  {
    forall w | w in b.relay.heap ensures WriteSeen(me, b.relay.regs, b.log, w) {
      assert w in b.relay.regs && b.relay.regs[w].phase == T.Done(T.Installed);
    }
  }

  /** A delete lands once. */
  lemma {:induction false} DeletesLandOnce(me: D.Owner, first: Both, r: Run, last: Both, h: T.HostId, w: T.SocketId)
    requires Leads(me, first, r, last) && T.CompareAndDelete(h, w) in first.removed
    ensures T.CompareAndDelete(h, w) in last.removed && !CanStep(me, last, DeleteLands(h, w))
    decreases r
  {
    if r.Onward? {
      var mid :| Leads(me, first, r.before, mid) && CanStep(me, mid, r.step) && last == After(me, mid, r.step);
      DeletesLandOnce(me, first, r.before, mid, h, w);
    }
  }
}
