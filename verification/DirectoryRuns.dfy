/** What holds of the directory in every run across machines. */
module DirectoryRuns {
  import opened Basics
  import opened DirectoryModel

  /** Every owned host has META and TTL entries, so a sweep can always reclaim it. */
  ghost predicate Reclaimable(t: Tables) {
    t.owner.Keys <= t.meta.Keys && t.owner.Keys <= t.ttl.Keys
  }

  lemma RunsSnoc(s: State, es: seq<Event>, u: State, e: Event)
    requires Runs(s, es, u) && Enabled(u, e)
    ensures Runs(s, es + [e], Next(u, e))
    decreases |es|
  {
    if es == [] {
      assert (es + [e])[1..] == [];
    } else {
      assert (es + [e])[1..] == es[1..] + [e];
      RunsSnoc(Next(s, es[0]), es[1..], u, e);
    }
  }

  lemma {:induction false} RunsSplit(s: State, es: seq<Event>, u: State) returns (v: State)
    requires Runs(s, es, u) && es != []
    ensures Runs(s, es[..|es| - 1], v) && Enabled(v, es[|es| - 1]) && u == Next(v, es[|es| - 1])
    decreases |es|
  {
    if |es| == 1 {
      v := s;
      assert es[..0] == [];
      assert es[1..] == [];
    } else {
      v := RunsSplit(Next(s, es[0]), es[1..], u);
      assert es[..|es| - 1][1..] == es[1..][..|es| - 2];
    }
  }

  lemma {:induction false} OwnedIsReclaimable(es: seq<Event>, s: State)
    requires Runs(Init, es, s)
    ensures Reclaimable(s.tables)
    decreases |es|
  {
    if es != [] {
      var v := RunsSplit(Init, es, s);
      OwnedIsReclaimable(es[..|es| - 1], v);
    }
  }

  // ------------------------------------------------------------- the sweep

  /** The stamp of the last write of `h`'s TTL in the log, or -1. */
  function LastStamp(es: seq<Event>, h: HostId): int {
    if es == [] then -1
    else
      match es[|es| - 1]
      case ERegister(k, _, now) => if k == h then now else LastStamp(es[..|es| - 1], h)
      case EWriteTtl(_, k, now) => if k == h then now else LastStamp(es[..|es| - 1], h)
      case _ => LastStamp(es[..|es| - 1], h)
  }

  ghost predicate BeatsHaveTime(s: State) {
    forall b | b in s.beats && !s.beats[b].Asking? :: 0 <= s.beats[b].now
  }

  lemma {:induction false} TtlIsLastStamp(es: seq<Event>, s: State)
    requires Runs(Init, es, s)
    ensures BeatsHaveTime(s)
    ensures forall h | h in s.tables.ttl ::
      s.tables.ttl[h] == LastStamp(es, h) + TTL_GRACE_MS && 0 <= LastStamp(es, h)
    decreases |es|
  {
    if es != [] {
      var v := RunsSplit(Init, es, s);
      TtlIsLastStamp(es[..|es| - 1], v);
    }
  }

  /** A sweep takes exactly the listed hosts whose last applied stamp is at least the grace period old. */
  lemma SweepTakesExactlyTheStale(es: seq<Event>, s: State, now: int, h: HostId)
    requires Runs(Init, es, s) && 0 <= now
    ensures var t := Next(s, ESweep(now)).tables;
      && (h in t.ttl <==> h in s.tables.ttl && now - LastStamp(es, h) < TTL_GRACE_MS)
      && (h in s.tables.owner ==> (h in t.owner <==> now - LastStamp(es, h) < TTL_GRACE_MS))
      && (h in t.owner ==> t.owner[h] == s.tables.owner[h])
  {
    TtlIsLastStamp(es, s);
    OwnedIsReclaimable(es, s);
  }

  // --------------------------------------------------------- the ownership

  /** The last machine to register `h` in the log. */
  function LastRegistrar(es: seq<Event>, h: HostId): Option<Owner> {
    if es == [] then None
    else if es[|es| - 1].ERegister? && es[|es| - 1].h == h then Some(es[|es| - 1].from)
    else LastRegistrar(es[..|es| - 1], h)
  }

  lemma {:induction false} OwnerIsLastRegistrar(es: seq<Event>, s: State, h: HostId)
    requires Runs(Init, es, s) && h in s.tables.owner
    ensures LastRegistrar(es, h).Some? && s.tables.owner[h] == EncodeOwner(LastRegistrar(es, h).value)
    decreases |es|
  {
    var v := RunsSplit(Init, es, s);
    if !(es[|es| - 1].ERegister? && es[|es| - 1].h == h) {
      OwnerIsLastRegistrar(es[..|es| - 1], v, h);
    }
  }

  /** A lookup names the machine that registered the host last, or nobody. */
  lemma LookupNamesLastRegistrar(es: seq<Event>, s: State, h: HostId)
    requires Runs(Init, es, s)
    requires forall e | e in es && e.ERegister? :: Plain(e.from.region)
    ensures h in s.tables.owner ==> Lookup(s.tables, h) == LastRegistrar(es, h)
    ensures h !in s.tables.owner ==> Lookup(s.tables, h) == None
  {
    if h in s.tables.owner {
      OwnerIsLastRegistrar(es, s, h);
      RegistrarIsInLog(es, h);
      DecodeInvertsEncode(LastRegistrar(es, h).value);
    }
  }

  lemma {:induction false} RegistrarIsInLog(es: seq<Event>, h: HostId)
    requires LastRegistrar(es, h).Some?
    ensures exists e :: e in es && e.ERegister? && e.from == LastRegistrar(es, h).value
  {
    var e := es[|es| - 1];
    if e.ERegister? && e.h == h {
      assert e in es;
    } else {
      RegistrarIsInLog(es[..|es| - 1], h);
    }
  }

  /** A machine's entry goes only by its own unregister or clear, a sweep past the grace period, or a new register. */
  lemma EntryGoesOnlyBy(es: seq<Event>, s: State, e: Event, h: HostId, o: Owner)
    requires Runs(Init, es, s) && Enabled(s, e)
    requires h in s.tables.owner && s.tables.owner[h] == EncodeOwner(o) && Plain(o.region)
    requires e.EUnregister? || e.EClear? ==> Plain(e.from.region)
    ensures var t := Next(s, e).tables;
      !(h in t.owner && t.owner[h] == EncodeOwner(o)) <==>
        || (e.EUnregister? && e.h == h && e.from == o)
        || (e.EClear? && e.from == o)
        || (e.ESweep? && e.now - LastStamp(es, h) >= TTL_GRACE_MS)
        || (e.ERegister? && e.h == h && EncodeOwner(e.from) != EncodeOwner(o))
  {
    if e.ESweep? {
      SweepTakesExactlyTheStale(es, s, e.now, h);
    } else if (e.EUnregister? || e.EClear?) && EncodeOwner(e.from) == EncodeOwner(o) {
      EncodeIsInjective(e.from, o);
    }
  }

  // ------------------------------------------------------------ the heartbeat

  /** A heartbeat that is over writes nothing more, unless its id is used again. */
  lemma {:induction false} EndedBeatIsOver(s: State, es: seq<Event>, u: State, b: BeatId)
    requires Runs(s, es, u) && b !in s.beats && forall e | e in es && e.EBeat? :: e.b != b
    ensures b !in u.beats && forall e: Event | (e.EWriteMeta? || e.EWriteTtl?) && e.b == b :: !Enabled(u, e)
    decreases |es|
  {
    if es != [] {
      assert es[0] in es && forall e | e in es[1..] :: e in es;
      EndedBeatIsOver(Next(s, es[0]), es[1..], u, b);
    }
  }

  /** A heartbeat that finds its host unowned ends there: it has changed nothing and never will. */
  lemma UnownedBeatEnds(s: State, b: BeatId, now: int, es: seq<Event>, u: State)
    requires Enabled(s, EBeatOwner(b, now)) && s.beats[b].host !in s.tables.owner
    requires Runs(Next(s, EBeatOwner(b, now)), es, u) && forall e | e in es && e.EBeat? :: e.b != b
    ensures Next(s, EBeatOwner(b, now)).tables == s.tables
    ensures b !in u.beats && forall e: Event | (e.EWriteMeta? || e.EWriteTtl?) && e.b == b :: !Enabled(u, e)
  {
    EndedBeatIsOver(Next(s, EBeatOwner(b, now)), es, u, b);
  }

  /** In every run a heartbeat that goes on was told that its host has an owner, at the time it stamps. */
  lemma {:induction false} BeatsAreForOwned(es: seq<Event>, s: State, b: BeatId) returns (i: nat, v: State)
    requires Runs(Init, es, s) && b in s.beats && !s.beats[b].Asking?
    ensures i < |es| && Runs(Init, es[..i], v) && es[i] == EBeatOwner(b, s.beats[b].now) && s.beats[b].host in v.tables.owner
    decreases |es|
  {
    var n := |es| - 1;
    v := RunsSplit(Init, es, s);
    i := n;
    if !(es[n].EBeatOwner? && es[n].b == b) {
      i, v := BeatsAreForOwned(es[..n], v, b);
      assert es[..n][..i] == es[..i];
    }
  }

  /** What a heartbeat with nothing else going on comes to. */
  function Beaten(t: Tables, h: HostId, now: int): Tables {
    if h !in t.owner then t
    else t.(meta := t.meta[h := if h in t.meta then t.meta[h].(lastPongAt := now) else Meta(now, now)],
            ttl := t.ttl[h := now + TTL_GRACE_MS])
  }

  /** The events of such a heartbeat; its two writes land in either order. */
  function LoneBeat(b: BeatId, h: HostId, now: int, owned: bool, metaFirst: bool): seq<Event> {
    if !owned then [EBeat(b, h), EBeatOwner(b, now)]
    else if metaFirst then [EBeat(b, h), EBeatOwner(b, now), EBeatMeta(b), EWriteMeta(b, h), EWriteTtl(b, h, now)]
    else [EBeat(b, h), EBeatOwner(b, now), EBeatMeta(b), EWriteTtl(b, h, now), EWriteMeta(b, h)]
  }

  lemma Further(s: State, es: seq<Event>, v: State, e: Event) returns (more: seq<Event>, u: State)
    requires Runs(s, es, v) && Enabled(v, e)
    ensures more == es + [e] && u == Next(v, e) && Runs(s, more, u)
  {
    RunsSnoc(s, es, v, e);
    more, u := es + [e], Next(v, e);
  }

  lemma LoneBeatReads(s: State, b: BeatId, h: HostId, now: int) returns (es: seq<Event>, u: State)
    requires b !in s.beats && 0 <= now && h in s.tables.owner
    ensures es == [EBeat(b, h), EBeatOwner(b, now), EBeatMeta(b)] && Runs(s, es, u) && u.tables == s.tables
    ensures b in u.beats && u.beats[b] == Writing(h, now,
      if h in s.tables.meta then s.tables.meta[h].(lastPongAt := now) else Meta(now, now), false, false)
  {
    es, u := Further(s, [], s, EBeat(b, h));
    es, u := Further(s, es, u, EBeatOwner(b, now));
    es, u := Further(s, es, u, EBeatMeta(b));
  }

  /** Let finish alone, a heartbeat stamps an owned host and leaves any other as it was. */
  lemma LoneBeatStamps(s: State, b: BeatId, h: HostId, now: int, metaFirst: bool) returns (u: State)
    requires b !in s.beats && 0 <= now
    ensures Runs(s, LoneBeat(b, h, now, h in s.tables.owner, metaFirst), u) && u.tables == Beaten(s.tables, h, now)
  {
    var es: seq<Event>;
    if h !in s.tables.owner {
      es, u := Further(s, [], s, EBeat(b, h));
      es, u := Further(s, es, u, EBeatOwner(b, now));
    } else {
      es, u := LoneBeatReads(s, b, h, now);
      es, u := Further(s, es, u, if metaFirst then EWriteMeta(b, h) else EWriteTtl(b, h, now));
      es, u := Further(s, es, u, if metaFirst then EWriteTtl(b, h, now) else EWriteMeta(b, h));
    }
    assert es == LoneBeat(b, h, now, h in s.tables.owner, metaFirst);
  }

  // ---------------------------------------------------------- META left behind

  /** A host is registered and a heartbeat for it stands before its two writes. */
  lemma BeatAboutToWrite(h: HostId, o: Owner) returns (es: seq<Event>, s: State)
    ensures Runs(Init, es, s)
    ensures s == State(RegisterScript(Init.tables, h, EncodeOwner(o), 0), map[0 := Writing(h, 1, Meta(0, 1), false, false)])
    ensures forall i | 0 <= i < |es| :: !es[i].EWriteTtl?
  {
    es, s := Further(Init, [], Init, ERegister(h, o, 0));
    es, s := Further(Init, es, s, EBeat(0, h));
    es, s := Further(Init, es, s, EBeatOwner(0, 1));
    es, s := Further(Init, es, s, EBeatMeta(0));
  }

  /** Late heartbeat writes can leave META behind: the TTL write lands, a sweep runs, then the META write lands. */
  lemma ZombieMetaIsReachable(h: HostId, o: Owner) returns (es: seq<Event>, s: State)
    ensures Runs(Init, es, s) && h in s.tables.meta && h !in s.tables.ttl && h !in s.tables.owner
  {
    es, s := BeatAboutToWrite(h, o);
    es, s := Further(Init, es, s, EWriteTtl(0, h, 1));
    es, s := Further(Init, es, s, ESweep(TTL_GRACE_MS + 1));
    es, s := Further(Init, es, s, EWriteMeta(0, h));
  }

  /** Such META survives every sweep, clear and unregister. */
  lemma {:induction false} ZombieMetaIsNeverReclaimed(s: State, es: seq<Event>, u: State, h: HostId)
    requires Runs(s, es, u) && h in s.tables.meta && h !in s.tables.ttl && h !in s.tables.owner
    requires forall e | e in es :: e.EUnregister? || e.ESweep? || e.EClear?
    ensures h in u.tables.meta && u.tables.meta[h] == s.tables.meta[h]
    decreases |es|
  {
    if es != [] {
      assert es[0] in es;
      forall e | e in es[1..] ensures e.EUnregister? || e.ESweep? || e.EClear? { assert e in es; }
      ZombieMetaIsNeverReclaimed(Next(s, es[0]), es[1..], u, h);
    }
  }
}
