/** When META outlives TTL: the exact condition, for one step and for whole runs
    (apps/relay/src/directory.ts, heartbeat and the removing scripts). */
module DirectoryMeta {
  import opened Basics
  import opened DirectoryModel
  import opened DirectoryRuns

  /** Every META entry has a TTL entry, so a sweep will find it. */
  predicate MetaTimed(t: Tables) {
    t.meta.Keys <= t.ttl.Keys
  }

  /** One step breaks this exactly when it is a heartbeat's META write for a host that has no TTL entry. */
  lemma OneStepBreaksExactly(s: State, e: Event)
    requires Enabled(s, e) && MetaTimed(s.tables)
    ensures MetaTimed(Next(s, e).tables) <==> !(e.EWriteMeta? && e.h !in s.tables.ttl)
  {
    if e.EWriteMeta? { assert e.h in Next(s, e).tables.meta; }
  }

  // ------------------------------------------------------------------ whole runs

  predicate WritesTtl(e: Event, h: HostId) {
    (e.ERegister? || e.EWriteTtl?) && e.h == h
  }

  predicate Takes(s: State, e: Event, h: HostId) {
    Enabled(s, e) && h in s.tables.ttl && h !in Next(s, e).tables.ttl
  }

  /** Event `j` of the run, a sweep, clear or unregister, takes the host's TTL entry away. */
  ghost predicate TakenAt(es: seq<Event>, j: nat, h: HostId) {
    j < |es| && exists v :: Runs(Init, es[..j], v) && Takes(v, es[j], h)
  }

  predicate NoTtlWriteAfter(es: seq<Event>, h: HostId, j: nat) {
    forall n | j < n < |es| :: !WritesTtl(es[n], h)
  }

  /** META write `k` of heartbeat `b` landed when the host had no TTL entry, and none was written since. */
  ghost predicate LandsLate(es: seq<Event>, h: HostId, b: BeatId, k: nat) {
    && k < |es| && es[k] == EWriteMeta(b, h) && NoTtlWriteAfter(es, h, k)
    && exists v :: Runs(Init, es[..k], v) && h !in v.tables.ttl
  }

  predicate Alone(t: Tables, h: HostId) {
    h in t.meta && h !in t.ttl
  }

  lemma {:induction false} RunsAgree(s: State, es: seq<Event>, u: State, v: State)
    requires Runs(s, es, u) && Runs(s, es, v)
    ensures u == v
    decreases |es|
  {
    if es != [] { RunsAgree(Next(s, es[0]), es[1..], u, v); }
  }

  lemma OneMore(es: seq<Event>)
    requires es != []
    ensures es == es[..|es| - 1] + [es[|es| - 1]]
    ensures forall k: nat | k < |es| - 1 :: es[..|es| - 1][..k] == es[..k] && es[..|es| - 1][k] == es[k]
  { }

  lemma LateStaysLate(es: seq<Event>, h: HostId, b: BeatId, k: nat)
    requires es != [] && k < |es| - 1
    ensures LandsLate(es, h, b, k) <==> LandsLate(es[..|es| - 1], h, b, k) && !WritesTtl(es[|es| - 1], h)
  {
    OneMore(es);
    assert forall n | k < n < |es| - 1 :: es[..|es| - 1][n] == es[n];
  }

  lemma {:induction false} AloneCameLate(es: seq<Event>, s: State, h: HostId) returns (b: BeatId, k: nat)
    requires Runs(Init, es, s) && Alone(s.tables, h)
    ensures LandsLate(es, h, b, k)
    decreases |es|
  {
    var n := |es| - 1;
    var v := RunsSplit(Init, es, s);
    if Alone(v.tables, h) {
      b, k := AloneCameLate(es[..n], v, h);
      LateStaysLate(es, h, b, k);
    } else {
      b, k := es[n].b, n;
    }
  }

  lemma {:induction false} LateIsAlone(es: seq<Event>, s: State, h: HostId, b: BeatId, k: nat)
    requires Runs(Init, es, s) && LandsLate(es, h, b, k)
    ensures Alone(s.tables, h)
    decreases |es|
  {
    var n := |es| - 1;
    var v := RunsSplit(Init, es, s);
    if k == n {
      var w :| Runs(Init, es[..k], w) && h !in w.tables.ttl;
      RunsAgree(Init, es[..n], v, w);
    } else {
      LateStaysLate(es, h, b, k);
      LateIsAlone(es[..n], v, h, b, k);
      OwnedIsReclaimable(es[..n], v);
    }
  }

  /** In every run, whatever is under way: a host has META without TTL exactly when some META write of it landed while it had
      no TTL entry, and none was written since. */
  lemma MetaAloneExactly(es: seq<Event>, s: State, h: HostId)
    requires Runs(Init, es, s)
    ensures Alone(s.tables, h) <==> exists b, k :: LandsLate(es, h, b, k)
  {
    if Alone(s.tables, h) {
      var b, k := AloneCameLate(es, s, h);
    } else if b, k :| LandsLate(es, h, b, k) {
      LateIsAlone(es, s, h, b, k);
    }
  }

  // --------------------------------------------------------------- and how that came about

  /** Its TTL write landed at `i`, and the entry was removed at `j` in between. */
  ghost predicate Overtaken(es: seq<Event>, h: HostId, b: BeatId, i: nat, j: nat, k: nat) {
    && i < j < k && LandsLate(es, h, b, k)
    && es[i].EWriteTtl? && es[i].b == b && es[i].h == h
    && TakenAt(es, j, h) && NoTtlWriteAfter(es, h, j)
  }

  /** Its TTL write failed. */
  ghost predicate Unpaired(es: seq<Event>, h: HostId, b: BeatId, k: nat) {
    LandsLate(es, h, b, k) && ETtlFails(b) in es
  }

  lemma TakenInPrefix(es: seq<Event>, k: nat, j: nat, h: HostId)
    requires k <= |es| && TakenAt(es[..k], j, h)
    ensures TakenAt(es, j, h)
  {
    assert es[..k][..j] == es[..j] && es[..k][j] == es[j];
  }

  /** A finished TTL write of a heartbeat is in the log, or its failure is. */
  lemma {:induction false} TtlWriteIsLogged(es: seq<Event>, s: State, b: BeatId)
    requires Runs(Init, es, s) && b in s.beats && s.beats[b].Writing? && s.beats[b].ttlDone
    ensures ETtlFails(b) in es || exists i :: 0 <= i < |es| && es[i].EWriteTtl? && es[i].b == b && es[i].h == s.beats[b].host
    decreases |es|
  {
    var n := |es| - 1;
    var v := RunsSplit(Init, es, s);
    if es[n] != ETtlFails(b) && !(es[n].EWriteTtl? && es[n].b == b) {
      TtlWriteIsLogged(es[..n], v, b);
      if ETtlFails(b) !in es[..n] {
        var i :| 0 <= i < n && es[..n][i].EWriteTtl? && es[..n][i].b == b && es[..n][i].h == s.beats[b].host;
        assert es[i] == es[..n][i];
      }
    }
  }

  /** A heartbeat that wrote META stays on record, for that host. */
  lemma {:induction false} WriterIsKnown(es: seq<Event>, s: State, b: BeatId, h: HostId, k: nat)
    requires Runs(Init, es, s) && k < |es| && es[k] == EWriteMeta(b, h)
    ensures b in s.beats && s.beats[b].Writing? && s.beats[b].host == h
    decreases |es|
  {
    var n := |es| - 1;
    var v := RunsSplit(Init, es, s);
    if k < n {
      assert es[..n][k] == es[k];
      WriterIsKnown(es[..n], v, b, h, k);
    }
  }

  /** A TTL entry that was written and is gone was taken, after the last time it was written. */
  lemma {:induction false} GoneWasTaken(es: seq<Event>, s: State, h: HostId, i: nat) returns (j: nat)
    requires Runs(Init, es, s) && i < |es| && WritesTtl(es[i], h) && h !in s.tables.ttl
    ensures i < j < |es| && TakenAt(es, j, h) && NoTtlWriteAfter(es, h, j)
    decreases |es|
  {
    var n := |es| - 1;
    var v := RunsSplit(Init, es, s);
    if h in v.tables.ttl {
      j := n;
      assert Takes(v, es[n], h);
    } else {
      assert es[..n][i] == es[i];
      j := GoneWasTaken(es[..n], v, h, i);
      TakenInPrefix(es, n, j, h);
      StillNoWrite(es, h, j);
    }
  }

  lemma StillNoWrite(es: seq<Event>, h: HostId, j: nat)
    requires es != [] && NoTtlWriteAfter(es[..|es| - 1], h, j) && !WritesTtl(es[|es| - 1], h)
    ensures NoTtlWriteAfter(es, h, j)
  {
    forall m | j < m < |es| - 1 ensures !WritesTtl(es[m], h) { assert es[m] == es[..|es| - 1][m]; }
  }

  lemma NoWriteFrom(es: seq<Event>, h: HostId, j: nat, k: nat)
    requires k < |es| && NoTtlWriteAfter(es[..k], h, j) && !WritesTtl(es[k], h) && NoTtlWriteAfter(es, h, k)
    ensures NoTtlWriteAfter(es, h, j)
  {
    forall m | j < m < k ensures !WritesTtl(es[m], h) { assert es[m] == es[..k][m]; }
  }

  /** If the heartbeat's TTL write landed, it did so before, and the entry was taken in between. */
  lemma LateIsOvertaken(es: seq<Event>, h: HostId, b: BeatId, i: nat, k: nat) returns (j: nat)
    requires LandsLate(es, h, b, k) && i < |es| && es[i].EWriteTtl? && es[i].b == b && es[i].h == h
    ensures Overtaken(es, h, b, i, j, k)
  {
    var v :| Runs(Init, es[..k], v) && h !in v.tables.ttl;
    assert WritesTtl(es[i], h) && i < k && es[..k][i] == es[i];
    j := GoneWasTaken(es[..k], v, h, i);
    TakenInPrefix(es, k, j, h);
    NoWriteFrom(es, h, j, k);
  }

  /** All heartbeats have ended: both their writes have landed or failed. */
  predicate Drained(s: State) {
    forall b | b in s.beats :: s.beats[b].Writing? && s.beats[b].metaDone && s.beats[b].ttlDone
  }

  ghost predicate SomeOvertaken(es: seq<Event>, h: HostId) {
    exists b, i, j, k :: Overtaken(es, h, b, i, j, k)
  }

  ghost predicate SomeUnpaired(es: seq<Event>, h: HostId) {
    exists b, k :: Unpaired(es, h, b, k)
  }

  /** With no heartbeat under way, META has outlived TTL exactly for the hosts with a META write that came late, not written
      since, of a heartbeat whose own TTL write was undone before it or failed. */
  lemma LoneMetaExactly(es: seq<Event>, s: State, h: HostId)
    requires Runs(Init, es, s) && Drained(s)
    ensures Alone(s.tables, h) <==> SomeOvertaken(es, h) || SomeUnpaired(es, h)
  {
    MetaAloneExactly(es, s, h);
    if Alone(s.tables, h) {
      var b, k :| LandsLate(es, h, b, k);
      WriterIsKnown(es, s, b, h, k);
      TtlWriteIsLogged(es, s, b);
      if ETtlFails(b) in es {
        assert Unpaired(es, h, b, k);
      } else {
        var i: nat :| i < |es| && es[i].EWriteTtl? && es[i].b == b && es[i].h == h;
        var j := LateIsOvertaken(es, h, b, i, k);
      }
    }
  }

  /** Each heartbeat writes META before TTL. */
  predicate MetaFirst(es: seq<Event>) {
    forall i, k | 0 <= i < |es| && 0 <= k < |es| && es[i].EWriteTtl? && es[k] == EWriteMeta(es[i].b, es[i].h) :: k < i
  }

  /** If they did, and no TTL write failed, META would lie within TTL whenever no heartbeat is under way. */
  lemma MetaFirstKeepsMetaTimed(es: seq<Event>, s: State)
    requires Runs(Init, es, s) && Drained(s) && MetaFirst(es) && forall b :: ETtlFails(b) !in es
    ensures MetaTimed(s.tables)
  {
    forall h | h in s.tables.meta ensures h in s.tables.ttl {
      LoneMetaExactly(es, s, h);
      forall b, i, j, k ensures !Overtaken(es, h, b, i, j, k) {}
    }
  }

  /** For every host: a heartbeat whose TTL write fails leaves META alone when an unregister came before its META write. */
  lemma FailedTtlLeavesMeta(h: HostId, o: Owner) returns (es: seq<Event>, s: State)
    ensures Runs(Init, es, s) && Drained(s) && Alone(s.tables, h) && h !in s.tables.owner
    ensures forall i | 0 <= i < |es| :: !es[i].EWriteTtl?
  {
    es, s := BeatAboutToWrite(h, o);
    es, s := Further(Init, es, s, EUnregister(h, o));
    es, s := Further(Init, es, s, ETtlFails(0));
    es, s := Further(Init, es, s, EWriteMeta(0, h));
  }
}
