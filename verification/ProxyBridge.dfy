/** The bridge between a client's WebSocket and the owning relay's (apps/relay/src/proxy.ts):
    its steps, what every run of it keeps, and the object itself. */
module ProxyBridge {
  import opened Basics

  const MAX_PENDING: nat := 512

  /** Codes an endpoint may put in a close frame (section 7.4 of RFC 6455): 1004, 1005, 1006 and 1015 are
      reserved and never sent, and nothing below 1000 or above 4999 is a close code. */
  predicate Sendable(code: int) {
    1000 <= code <= 4999 && code != 1004 && code != 1005 && code != 1006 && code != 1015
  }

  /** `safeCloseCode`: relays what it may, and never turns a failure into a clean exit. */
  function SafeCloseCode(code: Option<int>): (r: int)
    ensures Sendable(r)
    ensures r == 1000 <==> code == Some(1000)
    ensures code.Some? && Sendable(code.value) && !(1016 <= code.value < 3000) ==> r == code.value
    ensures r == 1011 || code == Some(r)
  {
    if code.None? || code.value == 1004 || code.value == 1005 || code.value == 1006 || code.value == 1015 then 1011
    else if code.value == 1000 || 1001 <= code.value <= 1014 || 3000 <= code.value <= 4999 then code.value
    else 1011
  }

  datatype Socket = Absent | Connecting | Open | Closing | Closed

  /** `received` are the client's frames, `sent` those given to the upstream; `closes` the codes the client was
      closed with. `openedAt` and `endedAt` count the frames received when the upstream opened and stopped being open. */
  datatype State = State(
    client: Socket, upstream: Socket, clientClosed: bool, timer: bool, pending: seq<string>,
    received: seq<string>, sent: seq<string>, closes: seq<int>,
    fromUpstream: seq<string>, relayed: seq<string>,
    openedAt: Option<nat>, endedAt: Option<nat>)

  datatype Event =
    | ClientOpens(connects: bool)
    | ClientSends(frame: string)
    | UpstreamOpens
    | UpstreamSends(frame: string)
    | UpstreamErrors
    | UpstreamCloses(code: Option<int>)
    | TimerFires
    | ClientLeaves
    | ClientCloses

  const Init := State(Connecting, Absent, false, false, [], [], [], [], [], [], None, None)

  predicate Enabled(st: State, e: Event) {
    match e
    case ClientOpens(_) => st.client.Connecting?
    case ClientSends(_) => st.client.Open? || st.client.Closing?
    case UpstreamOpens => st.upstream.Connecting?
    case UpstreamSends(_) => st.upstream.Open? || st.upstream.Closing?
    case UpstreamErrors => st.upstream.Connecting? || st.upstream.Open? || st.upstream.Closing?
    case UpstreamCloses(_) => st.upstream.Connecting? || st.upstream.Open? || st.upstream.Closing?
    case TimerFires => st.timer
    case ClientLeaves => st.client.Open?
    case ClientCloses => st.client.Open? || st.client.Closing?
  }

  /** `ws.close(code)`, when the client is open. */
  function CloseClient(st: State, code: int): State {
    if st.client.Open? then st.(client := Closing, closes := st.closes + [code]) else st
  }

  /** The upstream leaves the open or connecting state. */
  function EndUpstream(st: State, to: Socket): State {
    st.(upstream := to,
        endedAt := if st.upstream.Open? then Some(|st.received|) else st.endedAt)
  }

  /** `upstream?.close()`. */
  function CloseUpstream(st: State): State {
    if st.upstream.Connecting? || st.upstream.Open? then EndUpstream(st, Closing) else st
  }

  function Next(st: State, e: Event): State {
    match e
    case ClientOpens(connects) =>
      var joined := st.(client := Open);
      if connects then joined.(upstream := Connecting, timer := true) else CloseClient(joined, 1011)
    case ClientSends(f) =>
      var heard := st.(received := st.received + [f]);
      if st.upstream.Open? then heard.(sent := st.sent + [f])
      else if |st.pending| < MAX_PENDING then heard.(pending := st.pending + [f])
      else heard
    case UpstreamOpens =>
      st.(upstream := Open, timer := false, sent := st.sent + st.pending, pending := [], openedAt := Some(|st.received|))
    case UpstreamSends(f) =>
      var heard := st.(fromUpstream := st.fromUpstream + [f]);
      if st.client.Open? then heard.(relayed := st.relayed + [f]) else heard
    case UpstreamErrors =>
      var ended := EndUpstream(st, Closing).(timer := false);
      if st.clientClosed then ended else CloseClient(ended, 1011)
    case UpstreamCloses(code) =>
      var ended := EndUpstream(st, Closed).(timer := false);
      if st.clientClosed then ended else CloseClient(ended, SafeCloseCode(code))
    case TimerFires =>
      var fired := st.(timer := false);
      if st.clientClosed then fired else CloseClient(CloseUpstream(fired), 1011)
    case ClientLeaves => st.(client := Closing)
    case ClientCloses =>
      CloseUpstream(st.(client := Closed, clientClosed := true, timer := false))
  }

  // -------------------------------------------------------------------- invariants

  function Min(a: nat, b: nat): nat {
    if a < b then a else b
  }

  /** The frames the upstream is owed: those buffered when it opened, then all until it stopped being open. */
  function Forwarded(received: seq<string>, openedAt: Option<nat>, endedAt: Option<nat>): seq<string> {
    if openedAt.None? || openedAt.value > |received| then []
    else
      var end := if endedAt.Some? && endedAt.value <= |received| then endedAt.value else |received|;
      if end < openedAt.value then [] else received[..Min(openedAt.value, MAX_PENDING)] + received[openedAt.value..end]
  }

  predicate Timed(upstream: Socket, openedAt: Option<nat>, endedAt: Option<nat>, n: nat) {
    && (openedAt.Some? ==> openedAt.value <= n && !upstream.Absent? && !upstream.Connecting?)
    && (endedAt.Some? ==> openedAt.Some? && openedAt.value <= endedAt.value <= n && !upstream.Open?)
    && (upstream.Open? ==> openedAt.Some? && endedAt.None?)
    && (openedAt.Some? && endedAt.None? ==> upstream.Open?)
  }

  predicate Flow(upstream: Socket, pending: seq<string>, received: seq<string>, sent: seq<string>,
    openedAt: Option<nat>, endedAt: Option<nat>)
  {
    && Timed(upstream, openedAt, endedAt, |received|)
    && sent == Forwarded(received, openedAt, endedAt)
    && |pending| <= MAX_PENDING
    && (openedAt.None? ==> pending == received[..Min(|received|, MAX_PENDING)])
    && (upstream.Open? ==> pending == [])
  }

  predicate Control(client: Socket, upstream: Socket, clientClosed: bool, timer: bool, closes: seq<int>) {
    && (timer <==> upstream.Connecting?)
    && (clientClosed <==> client.Closed?)
    && (clientClosed ==> !upstream.Connecting? && !upstream.Open?)
    && (client.Connecting? ==> upstream.Absent?)
    && !client.Absent?
    && |closes| <= 1 && (client.Connecting? || client.Open? ==> closes == [])
    && (forall k | 0 <= k < |closes| :: Sendable(closes[k]))
  }

  predicate Relay(client: Socket, fromUpstream: seq<string>, relayed: seq<string>) {
    && relayed <= fromUpstream
    && (client.Connecting? || client.Open? ==> relayed == fromUpstream)
  }

  predicate Inv(st: State) {
    && Flow(st.upstream, st.pending, st.received, st.sent, st.openedAt, st.endedAt)
    && Control(st.client, st.upstream, st.clientClosed, st.timer, st.closes)
    && Relay(st.client, st.fromUpstream, st.relayed)
    && (st.client.Connecting? ==> st.received == [])
  }

  /** Before the upstream opened: the frame is buffered while there is room. */
  lemma FrameBuffered(upstream: Socket, pending: seq<string>, received: seq<string>, sent: seq<string>, f: string)
    requires Flow(upstream, pending, received, sent, None, None)
    ensures Flow(upstream, if |pending| < MAX_PENDING then pending + [f] else pending, received + [f], sent, None, None)
  {
    var more := received + [f];
    if |received| < MAX_PENDING {
      assert received[..|received|] == received && more[..|more|] == more;
    } else {
      assert more[..MAX_PENDING] == received[..MAX_PENDING];
    }
  }

  /** After it stopped being open: what it is owed has not changed. */
  lemma FrameTooLate(upstream: Socket, pending: seq<string>, received: seq<string>, sent: seq<string>, o: nat, e: nat, f: string)
    requires Flow(upstream, pending, received, sent, Some(o), Some(e))
    ensures Flow(upstream, if |pending| < MAX_PENDING then pending + [f] else pending, received + [f], sent, Some(o), Some(e))
  {
    var more := received + [f];
    assert more[..Min(o, MAX_PENDING)] == received[..Min(o, MAX_PENDING)];
    assert more[o..e] == received[o..e];
  }

  /** In between: it is owed one frame more, and is sent it. */
  lemma FrameForwarded(upstream: Socket, received: seq<string>, sent: seq<string>, o: nat, f: string)
    requires Flow(upstream, [], received, sent, Some(o), None)
    ensures Flow(upstream, [], received + [f], sent + [f], Some(o), None)
  {
    var more, early, late := received + [f], received[..Min(o, MAX_PENDING)], received[o..|received|];
    assert more[..Min(o, MAX_PENDING)] == early;
    assert more[o..|more|] == late + [f];
    assert (early + late) + [f] == early + (late + [f]);
  }

  lemma FrameArrives(st: State, f: string)
    requires Inv(st) && Enabled(st, ClientSends(f))
    ensures var next := Next(st, ClientSends(f));
      Flow(next.upstream, next.pending, next.received, next.sent, next.openedAt, next.endedAt)
  {
    if st.openedAt.None? {
      FrameBuffered(st.upstream, st.pending, st.received, st.sent, f);
    } else if st.endedAt.Some? {
      FrameTooLate(st.upstream, st.pending, st.received, st.sent, st.openedAt.value, st.endedAt.value, f);
    } else {
      FrameForwarded(st.upstream, st.received, st.sent, st.openedAt.value, f);
    }
  }

  lemma UpstreamIsReady(st: State)
    requires Inv(st) && Enabled(st, UpstreamOpens)
    ensures var next := Next(st, UpstreamOpens);
      Flow(next.upstream, next.pending, next.received, next.sent, next.openedAt, next.endedAt)
  {
    var n := |st.received|;
    assert st.received[n..n] == [] && [] + st.pending == st.pending && st.pending + [] == st.pending;
  }

  lemma UpstreamEnds(st: State, to: Socket)
    requires Inv(st) && (to.Closing? || to.Closed?) && !st.upstream.Absent?
    ensures var next := EndUpstream(st, to);
      Flow(next.upstream, next.pending, next.received, next.sent, next.openedAt, next.endedAt)
  {
  }

  lemma FlowKept(st: State, e: Event)
    requires Inv(st) && Enabled(st, e)
    ensures var next := Next(st, e);
      Flow(next.upstream, next.pending, next.received, next.sent, next.openedAt, next.endedAt)
  {
    match e
    case ClientSends(f) => FrameArrives(st, f);
    case UpstreamOpens => UpstreamIsReady(st);
    case UpstreamErrors => UpstreamEnds(st, Closing);
    case UpstreamCloses(_) => UpstreamEnds(st, Closed);
    case TimerFires => UpstreamEnds(st, Closing);
    case ClientCloses => if !st.upstream.Absent? { UpstreamEnds(st, Closing); }
    case _ =>
  }

  lemma ControlKept(st: State, e: Event)
    requires Inv(st) && Enabled(st, e)
    ensures var next := Next(st, e);
      && Control(next.client, next.upstream, next.clientClosed, next.timer, next.closes)
      && Relay(next.client, next.fromUpstream, next.relayed)
      && (next.client.Connecting? ==> next.received == [])
  {
  }

  lemma NextKeeps(st: State, e: Event)
    requires Inv(st) && Enabled(st, e)
    ensures Inv(Next(st, e))
  {
    FlowKept(st, e);
    ControlKept(st, e);
  }

  // ------------------------------------------------------------------- every run

  datatype Trace = Empty | Then(before: Trace, event: Event)

  ghost predicate Runs(begin: State, t: Trace, end: State)
    decreases t
  {
    match t
    case Empty => end == begin
    case Then(before, e) => exists mid :: Runs(begin, before, mid) && Enabled(mid, e) && end == Next(mid, e)
  }

  lemma {:induction false} RunsKeep(begin: State, t: Trace, end: State)
    requires Inv(begin) && Runs(begin, t, end)
    ensures Inv(end)
    decreases t
  {
    if t.Then? {
      var mid :| Runs(begin, t.before, mid) && Enabled(mid, t.event) && end == Next(mid, t.event);
      RunsKeep(begin, t.before, mid);
      NextKeeps(mid, t.event);
    }
  }

  /** How many of the client's frames the upstream could have been sent. */
  function Due(st: State): nat {
    if st.endedAt.Some? then st.endedAt.value else |st.received|
  }

  /** The upstream gets a first stretch of the client's frames and a later one, in order; it gets every frame
      up to its end exactly when at most as many arrived before it opened as the buffer holds. */
  lemma {:induction false} FramesReachUpstream(t: Trace, st: State)
    requires Runs(Init, t, st)
    ensures |st.pending| <= MAX_PENDING && (st.openedAt.None? ==> st.sent == [])
    ensures st.openedAt.Some? ==>
      && st.openedAt.value <= Due(st) <= |st.received|
      && st.sent == st.received[..Min(st.openedAt.value, MAX_PENDING)] + st.received[st.openedAt.value..Due(st)]
      && (st.sent == st.received[..Due(st)] <==> st.openedAt.value <= MAX_PENDING)
  {
    RunsKeep(Init, t, st);
    if st.openedAt.Some? {
      var n := st.openedAt.value;
      assert Due(st) <= |st.received|;
      if n <= MAX_PENDING { assert st.received[..n] + st.received[n..Due(st)] == st.received[..Due(st)]; }
    }
  }

  /** The client is closed at most once, with a code that may be sent; what it was sent are the upstream's first frames. */
  lemma {:induction false} ClientIsClosedOnce(t: Trace, st: State)
    requires Runs(Init, t, st)
    ensures |st.closes| <= 1 && forall k | 0 <= k < |st.closes| :: Sendable(st.closes[k])
    ensures st.relayed <= st.fromUpstream
  {
    RunsKeep(Init, t, st);
  }

  /** The timer runs only while the upstream is connecting and the client is there; a closed client holds no upstream. */
  lemma {:induction false} NothingOutlivesTheClient(t: Trace, st: State)
    requires Runs(Init, t, st)
    ensures st.timer <==> st.upstream.Connecting?
    ensures st.client.Closed? ==> !st.timer && !st.upstream.Connecting? && !st.upstream.Open?
  {
    RunsKeep(Init, t, st);
  }

  /** Once off, the timer is never armed again. */
  lemma {:induction false} TimerStaysOff(begin: State, t: Trace, end: State)
    requires Inv(begin) && !begin.client.Connecting? && !begin.timer && Runs(begin, t, end)
    ensures Inv(end) && !end.client.Connecting? && !end.timer
    decreases t
  {
    if t.Then? {
      var mid :| Runs(begin, t.before, mid) && Enabled(mid, t.event) && end == Next(mid, t.event);
      TimerStaysOff(begin, t.before, mid);
      NextKeeps(mid, t.event);
    }
  }

  // -------------------------------------------------------------------- the object

  /** The closures' variables; the sockets' own states and the frames that passed are ghost. */
  class Bridge {
    var upstream: Socket
    var client: Socket
    var clientClosed: bool
    var timer: bool
    var pending: seq<string>
    ghost var received: seq<string>
    ghost var sent: seq<string>
    ghost var closes: seq<int>
    ghost var fromUpstream: seq<string>
    ghost var relayed: seq<string>
    ghost var openedAt: Option<nat>
    ghost var endedAt: Option<nat>

    ghost function Abs(): State reads this {
      State(client, upstream, clientClosed, timer, pending, received, sent, closes, fromUpstream, relayed, openedAt, endedAt)
    }

    ghost predicate Valid() reads this { Inv(Abs()) }

    constructor ()
      ensures Valid() && Abs() == Init
    {
      upstream, client, clientClosed, timer, pending := Absent, Connecting, false, false, [];
      received, sent, closes, fromUpstream, relayed, openedAt, endedAt := [], [], [], [], [], None, None;
    }

    method CloseWith(code: int)
      modifies this`client, this`closes
      ensures Abs() == CloseClient(old(Abs()), code)
    {
      if client.Open? { client, closes := Closing, closes + [code]; }
    }

    method EndUpstreamAs(to: Socket)
      modifies this`upstream, this`endedAt
      ensures Abs() == EndUpstream(old(Abs()), to)
    {
      if upstream.Open? { endedAt := Some(|received|); }
      upstream := to;
    }

    method DropUpstream()
      modifies this`upstream, this`endedAt
      ensures Abs() == CloseUpstream(old(Abs()))
    {
      if upstream.Connecting? || upstream.Open? { EndUpstreamAs(Closing); }
    }

    method OnOpen(connects: bool)
      requires Valid() && Enabled(Abs(), ClientOpens(connects))
      modifies this
      ensures Abs() == Next(old(Abs()), ClientOpens(connects)) && Valid()
      ensures connects ==> client.Open? && upstream.Connecting? && timer
      ensures !connects ==> client.Closing? && upstream.Absent? && !timer && closes == [1011]
    {
      NextKeeps(Abs(), ClientOpens(connects));
      client := Open;
      if !connects {
        CloseWith(1011);
        return;
      }
      upstream, timer := Connecting, true;
    }

    method OnMessage(frame: string)
      requires Valid() && Enabled(Abs(), ClientSends(frame))
      modifies this
      ensures Abs() == Next(old(Abs()), ClientSends(frame)) && Valid()
      ensures |pending| <= MAX_PENDING && client == old(client) && upstream == old(upstream)
      ensures old(upstream).Open? ==> sent == old(sent) + [frame] && pending == []
      ensures !old(upstream).Open? ==> sent == old(sent) && (pending == old(pending) + [frame] || (pending == old(pending) && |pending| == MAX_PENDING))
    {
      NextKeeps(Abs(), ClientSends(frame));
      received := received + [frame];
      if upstream.Open? {
        sent := sent + [frame];
      } else if |pending| < MAX_PENDING {
        pending := pending + [frame];
      }
    }

    /** The upstream opened: the buffer is sent frame by frame, then emptied. */
    method OnUpstreamOpen()
      requires Valid() && Enabled(Abs(), UpstreamOpens)
      modifies this
      ensures Abs() == Next(old(Abs()), UpstreamOpens) && Valid()
      ensures upstream.Open? && !timer && sent == old(pending) && pending == []
    {
      NextKeeps(Abs(), UpstreamOpens);
      upstream, timer, openedAt := Open, false, Some(|received|);
      FlushPending();
      pending := [];
    }

    method FlushPending()
      modifies this`sent
      ensures sent == old(sent) + pending
    {
      for i := 0 to |pending|
        invariant sent == old(sent) + pending[..i]
      {
        assert pending[..i + 1] == pending[..i] + [pending[i]];
        sent := sent + [pending[i]];
      }
      assert pending[..|pending|] == pending;
    }

    method OnUpstreamMessage(frame: string)
      requires Valid() && Enabled(Abs(), UpstreamSends(frame))
      modifies this
      ensures Abs() == Next(old(Abs()), UpstreamSends(frame)) && Valid()
      ensures relayed <= fromUpstream && (client.Open? ==> relayed == fromUpstream)
      ensures fromUpstream == old(fromUpstream) + [frame] && client == old(client)
    {
      NextKeeps(Abs(), UpstreamSends(frame));
      fromUpstream := fromUpstream + [frame];
      if client.Open? { relayed := relayed + [frame]; }
    }

    method OnUpstreamClose(code: Option<int>)
      requires Valid() && Enabled(Abs(), UpstreamCloses(code))
      modifies this
      ensures Abs() == Next(old(Abs()), UpstreamCloses(code)) && Valid()
      ensures upstream.Closed? && !timer && !client.Open?
      ensures closes == if old(client).Open? then [SafeCloseCode(code)] else old(closes)
    {
      NextKeeps(Abs(), UpstreamCloses(code));
      EndUpstreamAs(Closed);
      timer := false;
      if !clientClosed { CloseWith(SafeCloseCode(code)); }
    }

    method OnUpstreamError()
      requires Valid() && Enabled(Abs(), UpstreamErrors)
      modifies this
      ensures Abs() == Next(old(Abs()), UpstreamErrors) && Valid()
      ensures !timer && !client.Open? && !upstream.Open? && !upstream.Connecting?
      ensures closes == if old(client).Open? then [1011] else old(closes)
    {
      NextKeeps(Abs(), UpstreamErrors);
      EndUpstreamAs(Closing);
      timer := false;
      if !clientClosed { CloseWith(1011); }
    }

    method OnTimer()
      requires Valid() && Enabled(Abs(), TimerFires)
      modifies this
      ensures Abs() == Next(old(Abs()), TimerFires) && Valid()
      ensures !timer && upstream.Closing? && !client.Open? && sent == []
      ensures closes == if old(client).Open? then [1011] else old(closes)
    {
      NextKeeps(Abs(), TimerFires);
      timer := false;
      if clientClosed { return; }
      DropUpstream();
      CloseWith(1011);
    }

    method OnClose()
      requires Valid() && Enabled(Abs(), ClientCloses)
      modifies this
      ensures Abs() == Next(old(Abs()), ClientCloses) && Valid()
      ensures client.Closed? && !timer && !upstream.Connecting? && !upstream.Open? && closes == old(closes)
    {
      NextKeeps(Abs(), ClientCloses);
      client, clientClosed, timer := Closed, true, false;
      DropUpstream();
    }
  }
}
