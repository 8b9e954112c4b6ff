/**
 The shared ownership directory (apps/relay/src/directory.ts): three keyed
 tables, scripts that run atomically, and a heartbeat that is several separate
 calls.  Any number of machines, each with its own clock, act on the tables.
 */
module DirectoryModel {
  import opened Basics

  type HostId = string
  type BeatId = nat

  const TTL_GRACE_MS := 90_000

  // ------------------------------------------------------------ the owner

  datatype Owner = Owner(region: string, machineId: string)

  function EncodeOwner(o: Owner): string {
    o.region + ":" + o.machineId
  }

  function DecodeOwner(value: string): Option<Owner> {
    var i := IndexOf(value, ':');
    if i <= 0 then None else Some(Owner(value[..i], value[i + 1..]))
  }

  /** A region an owner string can carry. */
  predicate Plain(region: string) {
    region != "" && ':' !in region
  }

  /** The owner string is read back exactly when the region is non-empty and colon-free. */
  lemma DecodeInvertsEncode(o: Owner)
    ensures DecodeOwner(EncodeOwner(o)) == Some(o) <==> Plain(o.region)
  {
    var s := EncodeOwner(o);
    var i := IndexOf(s, ':');
    assert s[|o.region|] == ':' && s[..|o.region|] == o.region && s[|o.region| + 1..] == o.machineId;
    assert forall j | 0 <= j < |o.region| :: s[j] == o.region[j];
    assert i < |o.region| ==> o.region[i] == ':';
    assert i < |o.region| ==> |s[..i]| < |o.region|;
  }

  lemma EncodeIsInjective(a: Owner, b: Owner)
    requires Plain(a.region) && Plain(b.region) && EncodeOwner(a) == EncodeOwner(b)
    ensures a == b
  {
    DecodeInvertsEncode(a);
    DecodeInvertsEncode(b);
  }

  /** An owner string belongs to a second owner exactly when it holds a second colon. */
  lemma ColonRegionsCollide(o: Owner)
    ensures (exists p :: p != o && EncodeOwner(p) == EncodeOwner(o)) <==> ':' in o.region || ':' in o.machineId
  {
    if ':' in o.region {
      CutInRegion(o);
    } else if ':' in o.machineId {
      CutInMachine(o);
    } else {
      forall p | EncodeOwner(p) == EncodeOwner(o) ensures p == o { OneCut(o, p); }
    }
  }

  lemma CutInRegion(o: Owner)
    requires ':' in o.region
    ensures exists p :: p != o && EncodeOwner(p) == EncodeOwner(o)
  {
    var i :| 0 <= i < |o.region| && o.region[i] == ':';
    var p := Owner(o.region[..i], o.region[i + 1..] + ":" + o.machineId);
    assert EncodeOwner(p) == EncodeOwner(o);
    assert |p.region| < |o.region|;
  }

  lemma CutInMachine(o: Owner)
    requires ':' in o.machineId
    ensures exists p :: p != o && EncodeOwner(p) == EncodeOwner(o)
  {
    var i :| 0 <= i < |o.machineId| && o.machineId[i] == ':';
    var p := Owner(o.region + ":" + o.machineId[..i], o.machineId[i + 1..]);
    assert EncodeOwner(p) == EncodeOwner(o);
    assert |p.region| > |o.region|;
  }

  lemma OneCut(o: Owner, p: Owner)
    requires ':' !in o.region && ':' !in o.machineId && EncodeOwner(p) == EncodeOwner(o)
    ensures p == o
  {
    var s := EncodeOwner(o);
    assert s[|p.region|] == ':';
    assert forall k | 0 <= k < |o.region| :: s[k] == o.region[k];
    assert forall k | |o.region| < k < |s| :: s[k] == o.machineId[k - |o.region| - 1];
    assert |p.region| == |o.region|;
    assert s[..|p.region|] == p.region && s[..|p.region|] == o.region;
    assert s[|p.region| + 1..] == p.machineId && s[|p.region| + 1..] == o.machineId;
  }

  // ----------------------------------------------------------- the tables

  datatype Meta = Meta(registeredAt: int, lastPongAt: int)

  datatype Tables = Tables(owner: map<HostId, string>, meta: map<HostId, Meta>, ttl: map<HostId, int>)

  function Remove(t: Tables, hs: set<HostId>): Tables {
    Tables(t.owner - hs, t.meta - hs, t.ttl - hs)
  }

  lemma RemoveOneMore(t: Tables, hs: set<HostId>, h: HostId)
    ensures Remove(t, {}) == t
    ensures Remove(Remove(t, hs), {h}) == Remove(t, hs + {h})
  { }

  function RegisterScript(t: Tables, h: HostId, owner: string, now: int): Tables {
    Tables(t.owner[h := owner], t.meta[h := Meta(now, now)], t.ttl[h := now + TTL_GRACE_MS])
  }

  function UnregisterScript(t: Tables, h: HostId, owner: string): Tables {
    if h in t.owner && t.owner[h] == owner then Remove(t, {h}) else t
  }

  function Due(t: Tables, now: int): set<HostId> {
    set h | h in t.ttl && 0 <= t.ttl[h] <= now
  }

  function SweepScript(t: Tables, now: int): Tables {
    Remove(t, Due(t, now))
  }

  function OwnedBy(t: Tables, owner: string): set<HostId> {
    set h | h in t.owner && t.owner[h] == owner
  }

  function ClearScript(t: Tables, owner: string): Tables {
    Remove(t, OwnedBy(t, owner))
  }

  function Lookup(t: Tables, h: HostId): Option<Owner> {
    if h !in t.owner || t.owner[h] == "" then None else DecodeOwner(t.owner[h])
  }

  // -------------------------------------------------------- the heartbeat

  /** A heartbeat between its calls: asked for the owner, reading META at `now`, or writing both tables; a write is done when
      it has landed or failed. */
  datatype Beat =
    | Asking(host: HostId)
    | Reading(host: HostId, now: int)
    | Writing(host: HostId, now: int, meta: Meta, metaDone: bool, ttlDone: bool)

  datatype State = State(tables: Tables, beats: map<BeatId, Beat>)

  const Init := State(Tables(map[], map[], map[]), map[])

  datatype Event =
    | ERegister(h: HostId, from: Owner, now: int)
    | EUnregister(h: HostId, from: Owner)
    | ESweep(now: int)
    | EClear(from: Owner)
    | EBeat(b: BeatId, h: HostId)
    | EBeatOwner(b: BeatId, now: int)
    | EBeatMeta(b: BeatId)
    | EWriteMeta(b: BeatId, h: HostId)
    | EWriteTtl(b: BeatId, h: HostId, now: int)
    | EBeatFails(b: BeatId)
    | EMetaFails(b: BeatId)
    | ETtlFails(b: BeatId)

  predicate Enabled(s: State, e: Event) {
    match e
    case ERegister(h, o, now) => 0 <= now
    case ESweep(now) => 0 <= now
    case EBeat(b, h) => b !in s.beats
    case EBeatOwner(b, now) => 0 <= now && b in s.beats && s.beats[b].Asking?
    case EBeatMeta(b) => b in s.beats && s.beats[b].Reading?
    case EWriteMeta(b, h) => b in s.beats && s.beats[b].Writing? && s.beats[b].host == h && !s.beats[b].metaDone
    case EWriteTtl(b, h, now) =>
      b in s.beats && s.beats[b].Writing? && s.beats[b].host == h && s.beats[b].now == now && !s.beats[b].ttlDone
    case EBeatFails(b) => b in s.beats && !s.beats[b].Writing?
    case EMetaFails(b) => b in s.beats && s.beats[b].Writing? && !s.beats[b].metaDone
    case ETtlFails(b) => b in s.beats && s.beats[b].Writing? && !s.beats[b].ttlDone
    case _ => true
  }

  function Next(s: State, e: Event): State
    requires Enabled(s, e)
  {
    match e
    case ERegister(h, o, now) => s.(tables := RegisterScript(s.tables, h, EncodeOwner(o), now))
    case EUnregister(h, o) => s.(tables := UnregisterScript(s.tables, h, EncodeOwner(o)))
    case ESweep(now) => s.(tables := SweepScript(s.tables, now))
    case EClear(o) => s.(tables := ClearScript(s.tables, EncodeOwner(o)))
    case EBeat(b, h) => s.(beats := s.beats[b := Asking(h)])
    case EBeatOwner(b, now) =>
      var h := s.beats[b].host;
      if h in s.tables.owner then s.(beats := s.beats[b := Reading(h, now)]) else s.(beats := s.beats - {b})
    case EBeatMeta(b) =>
      var h, now := s.beats[b].host, s.beats[b].now;
      var m := if h in s.tables.meta then s.tables.meta[h].(lastPongAt := now) else Meta(now, now);
      s.(beats := s.beats[b := Writing(h, now, m, false, false)])
    case EWriteMeta(b, h) =>
      State(s.tables.(meta := s.tables.meta[h := s.beats[b].meta]), s.beats[b := s.beats[b].(metaDone := true)])
    case EWriteTtl(b, h, now) =>
      State(s.tables.(ttl := s.tables.ttl[h := now + TTL_GRACE_MS]), s.beats[b := s.beats[b].(ttlDone := true)])
    case EBeatFails(b) => s.(beats := s.beats - {b})
    case EMetaFails(b) => s.(beats := s.beats[b := s.beats[b].(metaDone := true)])
    case ETtlFails(b) => s.(beats := s.beats[b := s.beats[b].(ttlDone := true)])
  }

  /** Every interleaving of every machine's calls. */
  predicate Runs(s: State, es: seq<Event>, u: State)
    decreases |es|
  {
    if es == [] then s == u
    else Enabled(s, es[0]) && Runs(Next(s, es[0]), es[1..], u)
  }
}
