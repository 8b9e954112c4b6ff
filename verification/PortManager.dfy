/** `PortManager` as an object; every method is one synchronous stretch of its code. */
module PortManagerClass {
  import opened Basics
  import opened PortModel

  lemma LeastOf(s: set<nat>) returns (m: nat)
    requires s != {}
    ensures m in s && forall x | x in s :: m <= x
  {
    m :| m in s;
    if s != {m} {
      assert s == (s - {m}) + {m};
      var r := LeastOf(s - {m});
      m := if r < m then r else m;
    }
  }

  lemma MinusOneMore(ports: Ports, gone: set<Key>, todo: set<Key>, k: Key)
    requires k in todo && todo <= gone <= ports.Keys
    ensures k in ports - (gone - todo) && (ports - (gone - todo))[k] == ports[k]
    ensures ports - (gone - todo) - {k} == ports - (gone - (todo - {k}))
  { }

  lemma DropAnnounced(ports: Ports, gone: set<Key>, todo: set<Key>, k: Key, news: seq<Event>)
    requires Keyed(ports) && k in todo && todo <= gone <= ports.Keys && Announced(ports, ports - (gone - todo), news)
    ensures k in ports - (gone - todo) && (ports - (gone - todo))[k] == ports[k] && KeyOf(ports[k]) == k
    ensures ports - (gone - todo) - {k} == ports - (gone - (todo - {k}))
    ensures Announced(ports, ports - (gone - (todo - {k})), news + [Removed(ports[k])])
  {
    MinusOneMore(ports, gone, todo, k);
    assert [Removed(ports[k])] + [] == [Removed(ports[k])];
    AnnouncedOneMore(ports, ports - (gone - todo), ports - (gone - (todo - {k})), news, k);
  }

  /** What has been logged since. */
  function Since(log: seq<Event>, start: seq<Event>): seq<Event>
    requires start <= log
  {
    log[|start|..]
  }

  lemma LoggedSince(log: seq<Event>, start: seq<Event>, more: seq<Event>)
    requires start <= log
    ensures start <= log + more && Since(log + more, start) == Since(log, start) + more
    ensures Since(log, log) == []
  { }

  lemma SinceJoins(log: seq<Event>, said: seq<Event>, start: seq<Event>)
    requires start <= said <= log
    ensures Since(log, start) == Since(said, start) + Since(log, said)
    ensures Since(log, start)[..|said| - |start|] == Since(said, start) && Since(log, start)[|said| - |start|..] == Since(log, said)
  { }

  datatype Session = Session(workspaceId: WorkspaceId, pid: Option<int>)

  class PortManager {
    const key: Collation
    var ports: Ports
    var sessions: map<TerminalId, Session>
    var log: seq<Event>
    var interval: bool
    var hintTimer: bool
    var isScanning: bool
    var scanRequested: bool
    ghost var inFlight: nat

    /** The event stream tells the whole story of the index. */
    ghost predicate InStep() reads this {
      Keyed(ports) && Replay(log) == Some(ports)
    }

    /** Holds after every atomic step. */
    ghost predicate Valid() reads this {
      && InStep()
      && (forall k | k in ports :: k.terminalId in sessions)
      && inFlight == (if isScanning then 1 else 0)
    }

    constructor (key: Collation)
      ensures Valid() && ports == map[] && log == [] && this.key == key
    {
      this.key := key;
      ports, sessions, log := map[], map[], [];
      interval, hintTimer, isScanning, scanRequested, inFlight := false, false, false, false, 0;
    }

    // ------------------------------------------------------------ emitting

    method Emit(e: Event)
      modifies this`log
      ensures log == old(log) + [e]
      ensures Replay(log) == Apply(Replay(old(log)), e)
    {
      ReplaySnoc(log, e);
      log := log + [e];
    }

    method DropKey(k: Key)
      requires InStep() && k in ports
      modifies this`ports, this`log
      ensures InStep() && ports == old(ports) - {k}
      ensures log == old(log) + News(old(ports), ports, k)
    {
      var p := ports[k];
      ports := ports - {k};
      Emit(Removed(p));
    }

    /** Drops keys that have not changed since the index was `was` and the log `start`. */
    method DropKeys(gone: set<Key>, ghost was: Ports, ghost start: seq<Event>)
      requires InStep() && gone <= ports.Keys && Keyed(was)
      requires start <= log && Announced(was, ports, Since(log, start)) && forall k | k in gone :: !Changed(was, ports, k)
      modifies this`ports, this`log
      ensures InStep() && ports == old(ports) - gone
      ensures old(log) <= log && Announced(was, ports, Since(log, start))
    {
      var todo := gone;
      assert ports - {} == ports;
      while todo != {}
        invariant todo <= gone && InStep()
        invariant ports == old(ports) - (gone - todo)
        invariant old(log) <= log && Announced(was, ports, Since(log, start))
      {
        var k :| k in todo;
        MinusOneMore(old(ports), gone, todo, k);
        ghost var mid, said := ports, log;
        DropKey(k);
        AnnouncedOneMore(was, mid, ports, Since(said, start), k);
        LoggedSince(said, start, News(mid, ports, k));
        todo := todo - {k};
      }
      assert gone - todo == gone;
    }

    // ------------------------------------------------------------ updating

    method UpsertPort(t: TerminalId, w: WorkspaceId, info: PortInfo, now: int)
      requires InStep()
      modifies this`ports, this`log
      ensures InStep()
      ensures ports == old(ports)[Key(t, info.port) := Entry(old(ports), t, w, info, now)]
      ensures TrackedAs(old(ports), ports[Key(t, info.port)], t, w, info, now)
      ensures log == old(log) + News(old(ports), ports, Key(t, info.port))
    {
      var k := Key(t, info.port);
      assert k in ports ==> KeyOf(ports[k]) == k;
      assert log + [] == log;
      if k !in ports {
        var p := DetectedPort(info.port, info.pid, info.processName, t, w, now, info.address);
        ports := ports[k := p];
        Emit(Added(p));
      } else {
        var existing := ports[k];
        if existing.pid != info.pid || existing.processName != info.processName || existing.address != info.address {
          var updated := existing.(pid := info.pid, processName := info.processName, address := info.address);
          ports := ports[k := updated];
          Emit(Removed(existing));
          assert (old(ports) - {k})[k := updated] == ports;
          Emit(Added(updated));
        }
      }
    }

    method UpsertAll(t: TerminalId, w: WorkspaceId, best: map<nat, PortInfo>, now: int)
      requires InStep() && forall p | p in best :: best[p].port == p
      modifies this`ports, this`log
      ensures InStep()
      ensures ports == Merged(old(ports), t, w, best, now, best.Keys)
      ensures old(log) <= log && Announced(old(ports), ports, Since(log, old(log)))
    {
      NothingAnnounced(ports);
      LoggedSince(log, log, []);
      var done: set<nat> := {};
      assert ports == Merged(ports, t, w, best, now, {});
      while best.Keys - done != {}
        invariant done <= best.Keys && InStep()
        invariant ports == Merged(old(ports), t, w, best, now, done)
        invariant old(log) <= log && Announced(old(ports), ports, Since(log, old(log)))
        decreases best.Keys - done
      {
        ghost var least := LeastOf(best.Keys - done);
        var p :| p in best.Keys - done && forall q | q in best.Keys - done :: p <= q;
        MergedOneMore(old(ports), t, w, best, now, done, p);
        ghost var mid, said := ports, log;
        UpsertPort(t, w, best[p], now);
        AnnouncedOneMore(old(ports), mid, ports, Since(said, old(log)), Key(t, p));
        LoggedSince(said, old(log), News(mid, ports, Key(t, p)));
        done := done + {p};
      }
      assert forall p | p in best.Keys :: p in best.Keys - done || p in done;
      assert done == best.Keys;
    }

    method UpdatePortsForTerminal(t: TerminalId, w: WorkspaceId, infos: seq<PortInfo>, now: int) returns (best: map<nat, PortInfo>)
      requires InStep()
      modifies this`ports, this`log
      ensures InStep() && IsBest(key, Visible(infos), best)
      ensures ports == Updated(old(ports), t, w, best, now) && TracksWinners(old(ports), ports, t, w, best, now)
      ensures old(log) <= log && Announced(old(ports), ports, Since(log, old(log)))
    {
      var valid: seq<PortInfo> := [];
      for n := 0 to |infos|
        invariant valid == Visible(infos[..n])
      {
        assert infos[..n + 1][..n] == infos[..n];
        if infos[n].port !in IGNORED_PORTS { valid := valid + [infos[n]]; }
      }
      assert infos[..|infos|] == infos;
      best := DedupePortInfosByPort(key, valid);
      UpsertAll(t, w, best, now);
      var stale := set k | k in ports && k.terminalId == t && k.port !in best;
      DropKeys(stale, old(ports), old(log));
      MergedThenDropped(old(ports), t, w, best, now);
      UpdatedTracks(old(ports), t, w, best, now);
    }

    method RemovePortsForTerminal(t: TerminalId)
      requires InStep()
      modifies this`ports, this`log
      ensures InStep() && ports == old(ports) - KeysOf(old(ports), t)
      ensures old(log) <= log && Announced(old(ports), ports, Since(log, old(log)))
    {
      var gone := KeysOf(ports, t);
      var removed := ports;
      NothingAnnounced(ports);
      LoggedSince(log, log, []);
      ports := ports - gone;
      var todo := gone;
      assert gone - todo == {} && removed - {} == removed;
      while todo != {}
        invariant todo <= gone
        invariant ports == removed - gone && Replay(log) == Some(removed - (gone - todo))
        invariant old(log) <= log && Announced(removed, removed - (gone - todo), Since(log, old(log)))
      {
        var k :| k in todo;
        DropAnnounced(removed, gone, todo, k, Since(log, old(log)));
        LoggedSince(log, old(log), [Removed(removed[k])]);
        Emit(Removed(removed[k]));
        todo := todo - {k};
      }
      assert gone - todo == gone;
    }

    method CleanupUnregisteredPorts()
      requires InStep()
      modifies this`ports, this`log
      ensures InStep()
      ensures ports == Claimed(old(ports), sessions.Keys)
      ensures old(log) <= log && Announced(old(ports), ports, Since(log, old(log)))
    {
      var gone := set k | k in ports && k.terminalId !in sessions;
      NothingAnnounced(ports);
      LoggedSince(log, log, []);
      DropKeys(gone, ports, log);
      assert ports == Claimed(old(ports), sessions.Keys);
    }

    // ------------------------------------------------------------ sessions

    method UpsertSession(t: TerminalId, w: WorkspaceId, pid: Option<int>)
      requires Valid()
      modifies this
      ensures Valid() && ports == old(ports) && log == old(log)
      ensures sessions == old(sessions)[t := Session(w, pid)] && interval
      ensures hintTimer == old(hintTimer) && isScanning == old(isScanning) && scanRequested == old(scanRequested)
    {
      sessions := sessions[t := Session(w, pid)];
      interval := true;
    }

    method UnregisterSession(t: TerminalId)
      requires Valid()
      modifies this
      ensures Valid() && sessions == old(sessions) - {t}
      ensures ports == old(ports) - KeysOf(old(ports), t)
      ensures interval == (old(interval) && sessions != map[]) && hintTimer == (old(hintTimer) && sessions != map[])
      ensures isScanning == old(isScanning) && scanRequested == (old(scanRequested) && sessions != map[])
      ensures old(log) <= log && Announced(old(ports), ports, Since(log, old(log)))
    {
      sessions := sessions - {t};
      RemovePortsForTerminal(t);
      StopWhenIdle();
    }

    method StopWhenIdle()
      modifies this`interval, this`hintTimer, this`scanRequested
      ensures sessions != map[] ==> interval == old(interval) && hintTimer == old(hintTimer) && scanRequested == old(scanRequested)
      ensures sessions == map[] ==> !interval && !hintTimer && !scanRequested
    {
      if |sessions| == 0 { StopTimers(); }
    }

    method StopTimers()
      modifies this`interval, this`hintTimer, this`scanRequested
      ensures !interval && !hintTimer && !scanRequested
    {
      interval, hintTimer, scanRequested := false, false, false;
    }

    // ------------------------------------------------------------ scanning

    /** A terminal printed something that may announce a server. */
    method CheckOutputForHint(isHint: bool)
      modifies this`hintTimer
      ensures hintTimer == (old(hintTimer) || (isHint && !scanRequested))
    {
      if hintTimer || scanRequested { return; }
      if !isHint { return; }
      hintTimer := true;
    }

    /** `scanAllSessions` up to its first await: at most one scan is ever in flight. */
    method ScanBegin() returns (started: bool)
      requires Valid()
      modifies this`isScanning, this`scanRequested, this`inFlight
      ensures Valid() && inFlight <= 1
      ensures started == (!old(isScanning) && sessions != map[])
      ensures isScanning == (old(isScanning) || started)
      ensures scanRequested == (old(scanRequested) || old(isScanning))
    {
      if isScanning {
        scanRequested := true;
        return false;
      }
      if |sessions| == 0 { return false; }
      isScanning, inFlight := true, inFlight + 1;
      return true;
    }

    /** The hint timer fires. */
    method HintTimerFires() returns (started: bool)
      requires Valid() && hintTimer
      modifies this`hintTimer, this`isScanning, this`scanRequested, this`inFlight
      ensures Valid() && !hintTimer && inFlight <= 1
      ensures started == (!old(isScanning) && sessions != map[])
      ensures isScanning == (old(isScanning) || started) && scanRequested == (old(scanRequested) || old(isScanning))
    {
      hintTimer := false;
      started := ScanBegin();
    }

    /** The rest of a scan after its last await, and the queued follow-up if one was asked for. */
    method ScanEnd(r: ScanResult, now: int) returns (followUp: bool)
      requires Valid() && isScanning && r.trees.Keys !! r.emptyTrees
      modifies this
      ensures Valid() && sessions == old(sessions) && interval == old(interval) && hintTimer == old(hintTimer)
      ensures followUp == isScanning == (old(scanRequested) && sessions != map[])
      ensures scanRequested == (old(scanRequested) && !followUp)
      ensures old(log) <= log && ScanSettled(key, old(ports), ports, sessions.Keys, r, Since(log, old(log)), now)
    {
      SettlePorts(r, now);
      followUp := FinishScan();
    }

    /** What a completed scan found is entered, and what no session claims any more is dropped. */
    method SettlePorts(r: ScanResult, now: int)
      requires InStep() && r.trees.Keys !! r.emptyTrees
      modifies this`ports, this`log
      ensures InStep() && forall k | k in ports :: k.terminalId in sessions
      ensures old(log) <= log && ScanSettled(key, old(ports), ports, sessions.Keys, r, Since(log, old(log)), now)
    {
      ghost var updated := EnterScan(r, now);
      ghost var mid, heard := ports, log;
      CleanupUnregisteredPorts();
      SinceJoins(log, heard, old(log));
      AllScannedAfterCleanup(key, old(ports), updated, ports, sessions.Keys, r, now);
    }

    /** What the terminals scanned now track, and those whose process tree is gone forgotten. */
    method EnterScan(r: ScanResult, now: int) returns (ghost updated: Ports)
      requires InStep() && r.trees.Keys !! r.emptyTrees
      modifies this`ports, this`log
      ensures InStep() && ports == Forgotten(updated, r.emptyTrees)
      ensures forall t | t !in r.trees :: OfTerminal(updated, t) == OfTerminal(old(ports), t)
      ensures forall t | t in r.trees :: Scanned(key, old(ports), updated, r, t, now)
      ensures old(log) <= log && Announced(old(ports), ports, Since(log, old(log)))
    {
      UpdatePortsFromScan(r, now);
      updated := ports;
      ghost var said := log;
      ClearEmptyTreeTerminals(r.emptyTrees);
      ForgottenApart(old(ports), updated, r.trees.Keys, r.emptyTrees);
      AnnouncedTogether(old(ports), updated, ports, Since(said, old(log)), Since(log, said));
      SinceJoins(log, said, old(log));
    }

    /** The `finally` of a scan. */
    method FinishScan() returns (followUp: bool)
      requires Valid() && isScanning
      modifies this`isScanning, this`scanRequested, this`inFlight
      ensures Valid() && followUp == isScanning == (old(scanRequested) && sessions != map[])
      ensures scanRequested == (old(scanRequested) && !followUp)
    {
      isScanning, inFlight := false, inFlight - 1;
      if scanRequested && |sessions| > 0 {
        scanRequested := false;
        followUp := ScanBegin();
      } else {
        followUp := false;
      }
    }

    /** A scan aborted by teardown or failed: nothing changes but the flag. */
    method ScanFailed()
      requires Valid() && isScanning
      modifies this`isScanning, this`inFlight
      ensures Valid() && !isScanning
    {
      isScanning, inFlight := false, inFlight - 1;
    }

    method UpdatePortsFromScan(r: ScanResult, now: int)
      requires InStep()
      modifies this`ports, this`log
      ensures InStep()
      ensures forall t | t !in r.trees :: OfTerminal(ports, t) == OfTerminal(old(ports), t)
      ensures forall t | t in r.trees :: Scanned(key, old(ports), ports, r, t, now)
      ensures old(log) <= log && Announced(old(ports), ports, Since(log, old(log)))
    {
      NothingAnnounced(ports);
      LoggedSince(log, log, []);
      var done: set<TerminalId> := {};
      while r.trees.Keys - done != {}
        invariant done <= r.trees.Keys && InStep()
        invariant forall t | t !in done :: OfTerminal(ports, t) == OfTerminal(old(ports), t)
        invariant forall t | t in done :: Scanned(key, old(ports), ports, r, t, now)
        invariant old(log) <= log && Announced(old(ports), ports, Since(log, old(log)))
        decreases r.trees.Keys - done
      {
        var t :| t in r.trees.Keys - done;
        ghost var before, said := ports, log;
        UpdateFromScan(r, t, now, old(ports));
        TouchedApart(old(ports), before, ports, done);
        AnnouncedTogether(old(ports), before, ports, Since(said, old(log)), Since(log, said));
        SinceJoins(log, said, old(log));
        AllStillScanned(key, old(ports), before, ports, r, done, now);
        done := done + {t};
      }
    }

    /** One terminal of a scan, whose entries have not been touched since `start`. */
    method UpdateFromScan(r: ScanResult, t: TerminalId, now: int, ghost start: Ports)
      requires InStep() && t in r.trees && Keyed(start) && OfTerminal(ports, t) == OfTerminal(start, t)
      modifies this`ports, this`log
      ensures InStep() && Scanned(key, start, ports, r, t, now)
      ensures old(log) <= log && Announced(old(ports), ports, Since(log, old(log)))
      ensures forall u | u != t :: OfTerminal(ports, u) == OfTerminal(old(ports), u)
    {
      var mine := GroupInfos(r, t);
      var best := UpdatePortsForTerminal(t, r.trees[t], mine, now);
      UpdateIsLocal(start, old(ports), ports, t, r.trees[t], best, now);
      WinnersSince(key, start, ports, r, t, best, now);
    }

    /** One group of `buildPortsByTerminal`: the records of the processes claimed by terminal `t`. */
    method GroupInfos(r: ScanResult, t: TerminalId) returns (mine: seq<PortInfo>)
      ensures mine == Owned(r.infos, r.owner, t)
    {
      mine := [];
      for n := 0 to |r.infos|
        invariant mine == Owned(r.infos[..n], r.owner, t)
      {
        assert r.infos[..n + 1][..n] == r.infos[..n];
        if r.infos[n].pid in r.owner && r.owner[r.infos[n].pid] == t {
          mine := mine + [r.infos[n]];
        }
      }
      assert r.infos[..|r.infos|] == r.infos;
    }

    method ClearEmptyTreeTerminals(ts: set<TerminalId>)
      requires InStep()
      modifies this`ports, this`log
      ensures InStep()
      ensures ports == Forgotten(old(ports), ts)
      ensures old(log) <= log && Announced(old(ports), ports, Since(log, old(log)))
    {
      NothingAnnounced(ports);
      LoggedSince(log, log, []);
      ForgottenOneMore(ports, {}, "");
      var done: set<TerminalId> := {};
      while ts - done != {}
        invariant done <= ts && InStep() && ports == Forgotten(old(ports), done)
        invariant old(log) <= log && Announced(old(ports), ports, Since(log, old(log)))
        decreases ts - done
      {
        var t :| t in ts - done;
        ghost var before, said := ports, log;
        RemovePortsForTerminal(t);
        ForgottenOneMore(old(ports), done, t);
        AnnouncedTogether(old(ports), before, ports, Since(said, old(log)), Since(log, said));
        SinceJoins(log, said, old(log));
        done := done + {t};
      }
      assert ts <= done by { assert ts - done == {}; forall t | t in ts ensures t in done { assert t !in ts - done; } }
    }
  }

  // ------------------------------------------------------------ about updates

  lemma UntouchedIsUnchanged(a: Ports, b: Ports, k: Key)
    requires OfTerminal(a, k.terminalId) == OfTerminal(b, k.terminalId)
    ensures !Changed(a, b, k)
  {
    assert k in OfTerminal(a, k.terminalId) <==> k in OfTerminal(b, k.terminalId);
    assert k in a ==> OfTerminal(a, k.terminalId)[k] == a[k];
  }

  /** First these terminals were touched, and then others. */
  lemma TouchedApart(was: Ports, mid: Ports, now: Ports, ts: set<TerminalId>)
    requires forall t | t !in ts :: OfTerminal(mid, t) == OfTerminal(was, t)
    requires forall t | t in ts :: OfTerminal(now, t) == OfTerminal(mid, t)
    ensures ApartIn(was, mid, now)
  {
    forall k ensures !(Changed(was, mid, k) && Changed(mid, now, k)) {
      if k.terminalId in ts { UntouchedIsUnchanged(mid, now, k); } else { UntouchedIsUnchanged(was, mid, k); }
    }
  }

  /** The index after upserting the winners of the ports in `done`. */
  ghost function Merged(was: Ports, t: TerminalId, w: WorkspaceId, best: map<nat, PortInfo>, now: int, done: set<nat>): Ports
    requires done <= best.Keys
  {
    map k | k in was.Keys + (set p | p in done :: Key(t, p)) ::
      if k.terminalId == t && k.port in done then Entry(was, t, w, best[k.port], now) else was[k]
  }

  lemma MergedOneMore(was: Ports, t: TerminalId, w: WorkspaceId, best: map<nat, PortInfo>, now: int, done: set<nat>, p: nat)
    requires done <= best.Keys && p in best && p !in done && best[p].port == p
    ensures var m := Merged(was, t, w, best, now, done);
      m[Key(t, p) := Entry(m, t, w, best[p], now)] == Merged(was, t, w, best, now, done + {p})
  {
    var m := Merged(was, t, w, best, now, done);
    assert Key(t, p) in m <==> Key(t, p) in was;
    assert Entry(m, t, w, best[p], now) == Entry(was, t, w, best[p], now);
  }

  lemma MergedThenDropped(was: Ports, t: TerminalId, w: WorkspaceId, best: map<nat, PortInfo>, now: int)
    ensures var m := Merged(was, t, w, best, now, best.Keys);
      m - (set k | k in m && k.terminalId == t && k.port !in best) == Updated(was, t, w, best, now)
  { }

  /** The winners of a terminal whose entries had not been touched. */
  lemma WinnersSince(key: Collation, was: Ports, now: Ports, r: ScanResult, t: TerminalId, best: map<nat, PortInfo>, at: int)
    requires Keyed(was) && t in r.trees && IsBest(key, Visible(Owned(r.infos, r.owner, t)), best)
    requires OfTerminal(now, t) == OfTerminal(Updated(was, t, r.trees[t], best, at), t)
    ensures Scanned(key, was, now, r, t, at)
  {
    UpdatedTracks(was, t, r.trees[t], best, at);
    SameTerminalTracks(was, Updated(was, t, r.trees[t], best, at), now, t, r.trees[t], best, at);
  }

  lemma StillScanned(key: Collation, was: Ports, a: Ports, b: Ports, r: ScanResult, t: TerminalId, at: int)
    requires t in r.trees && Scanned(key, was, a, r, t, at) && OfTerminal(a, t) == OfTerminal(b, t)
    ensures Scanned(key, was, b, r, t, at)
  {
    var best :| IsBest(key, Visible(Owned(r.infos, r.owner, t)), best) && TracksWinners(was, a, t, r.trees[t], best, at);
    SameTerminalTracks(was, a, b, t, r.trees[t], best, at);
  }

  lemma AllStillScanned(key: Collation, was: Ports, a: Ports, b: Ports, r: ScanResult, done: set<TerminalId>, at: int)
    requires forall t | t in done :: t in r.trees && Scanned(key, was, a, r, t, at) && OfTerminal(b, t) == OfTerminal(a, t)
    ensures forall t | t in done :: Scanned(key, was, b, r, t, at)
  {
    forall t | t in done ensures Scanned(key, was, b, r, t, at) { StillScanned(key, was, a, b, r, t, at); }
  }

  lemma ScannedAfterCleanup(key: Collation, was: Ports, updated: Ports, now: Ports, live: set<TerminalId>, r: ScanResult, t: TerminalId, at: int)
    requires t in live && r.trees.Keys !! r.emptyTrees
    requires now == Claimed(Forgotten(updated, r.emptyTrees), live)
    requires t in r.trees ==> Scanned(key, was, updated, r, t, at)
    requires t !in r.trees ==> OfTerminal(updated, t) == OfTerminal(was, t)
    ensures Scanned(key, was, now, r, t, at)
  {
    LeftOf(updated, r.emptyTrees, live, t);
    if t in r.trees { StillScanned(key, was, updated, now, r, t, at); }
  }

  lemma LeftOf(ports: Ports, gone: set<TerminalId>, live: set<TerminalId>, t: TerminalId)
    requires t in live
    ensures OfTerminal(Claimed(Forgotten(ports, gone), live), t) == if t in gone then map[] else OfTerminal(ports, t)
  { }

  lemma AllScannedAfterCleanup(key: Collation, was: Ports, updated: Ports, now: Ports, live: set<TerminalId>, r: ScanResult, at: int)
    requires r.trees.Keys !! r.emptyTrees
    requires now == Claimed(Forgotten(updated, r.emptyTrees), live)
    requires forall t | t in r.trees :: Scanned(key, was, updated, r, t, at)
    requires forall t | t !in r.trees :: OfTerminal(updated, t) == OfTerminal(was, t)
    ensures forall t | t in live :: Scanned(key, was, now, r, t, at)
  {
    forall t | t in live ensures Scanned(key, was, now, r, t, at) {
      ScannedAfterCleanup(key, was, updated, now, live, r, t, at);
    }
  }

  lemma ForgottenApart(was: Ports, updated: Ports, scanned: set<TerminalId>, gone: set<TerminalId>)
    requires scanned !! gone && forall t | t !in scanned :: OfTerminal(updated, t) == OfTerminal(was, t)
    ensures ApartIn(was, updated, Forgotten(updated, gone))
  {
    forall t | t in scanned ensures OfTerminal(Forgotten(updated, gone), t) == OfTerminal(updated, t) { }
    TouchedApart(was, updated, Forgotten(updated, gone), scanned);
  }

  /** An update of `t` inside a longer scan leaves the other terminals alone and reads only `t`'s own entries. */
  lemma UpdateIsLocal(start: Ports, before: Ports, after: Ports, t: TerminalId, w: WorkspaceId, best: map<nat, PortInfo>, now: int)
    requires after == Updated(before, t, w, best, now) && OfTerminal(before, t) == OfTerminal(start, t)
    ensures OfTerminal(after, t) == OfTerminal(Updated(start, t, w, best, now), t)
    ensures forall u | u != t :: OfTerminal(after, u) == OfTerminal(before, u)
  {
    forall k: Key | k.terminalId == t
      ensures (k in before <==> k in start) && (k in start ==> before[k] == start[k])
    {
      assert k in before <==> k in OfTerminal(before, t);
      assert k in start <==> k in OfTerminal(start, t);
      assert k in start ==> OfTerminal(before, t)[k] == OfTerminal(start, t)[k];
    }
    UpdateReadsOwn(start, before, t, w, best, now);
  }

  lemma OwnUpdated(ports: Ports, t: TerminalId, w: WorkspaceId, best: map<nat, PortInfo>, now: int)
    ensures var own := OfTerminal(Updated(ports, t, w, best, now), t);
      && (forall k :: k in own <==> k.terminalId == t && k.port in best)
      && (forall k | k in own :: own[k] == Entry(ports, t, w, best[k.port], now))
  {
    forall k: Key | k.terminalId == t && k.port in best ensures k in Updated(ports, t, w, best, now) {
      assert k == Key(t, k.port);
    }
  }

  lemma UpdateReadsOwn(a: Ports, b: Ports, t: TerminalId, w: WorkspaceId, best: map<nat, PortInfo>, now: int)
    requires forall k: Key | k.terminalId == t :: (k in a <==> k in b) && (k in a ==> a[k] == b[k])
    ensures OfTerminal(Updated(a, t, w, best, now), t) == OfTerminal(Updated(b, t, w, best, now), t)
  {
    var x, y := OfTerminal(Updated(a, t, w, best, now), t), OfTerminal(Updated(b, t, w, best, now), t);
    OwnUpdated(a, t, w, best, now);
    OwnUpdated(b, t, w, best, now);
    forall k | k in x ensures x[k] == y[k] { EntryReadsOwn(a, b, t, w, best[k.port], now); }
    SameMap(x, y);
  }

  lemma EntryReadsOwn(a: Ports, b: Ports, t: TerminalId, w: WorkspaceId, info: PortInfo, now: int)
    requires forall k: Key | k.terminalId == t :: (k in a <==> k in b) && (k in a ==> a[k] == b[k])
    ensures Entry(a, t, w, info, now) == Entry(b, t, w, info, now)
  {
    var k := Key(t, info.port);
    assert k in a <==> k in b;
  }

  lemma SameMap(x: Ports, y: Ports)
    requires (forall k :: k in x <==> k in y) && forall k | k in x :: x[k] == y[k]
    ensures x == y
  { }
}
