/** The directory scripts as imperative code over the three tables. */
module DirectoryClass {
  import opened Basics
  import opened DirectoryModel
  import opened DirectoryRuns

  /** The keys of `ks` whose value is `owner`. */
  function Among(entries: map<HostId, string>, ks: set<HostId>, owner: string): set<HostId> {
    set h | h in ks && h in entries && entries[h] == owner
  }

  lemma AmongOneMore(entries: map<HostId, string>, ks: set<HostId>, h: HostId, owner: string)
    requires h in entries && h !in ks
    ensures Among(entries, ks + {h}, owner) ==
      if entries[h] == owner then Among(entries, ks, owner) + {h} else Among(entries, ks, owner)
    ensures h !in Among(entries, ks, owner)
  { }

  /** Nobody can tell the difference at any host but `h`. */
  ghost predicate OthersSeeNothing(was: Tables, now: Tables, h: HostId) {
    forall k | k != h ::
      && Lookup(now, k) == Lookup(was, k) && (k in now.meta <==> k in was.meta)
      && forall t :: k in Due(now, t) <==> k in Due(was, t)
  }

  lemma RegisterIsLocal(was: Tables, h: HostId, owner: string, now: int)
    ensures OthersSeeNothing(was, RegisterScript(was, h, owner, now), h)
  {
    var tables := RegisterScript(was, h, owner, now);
    forall k | k != h
      ensures Lookup(tables, k) == Lookup(was, k) && (k in tables.meta <==> k in was.meta)
      ensures forall t :: k in Due(tables, t) <==> k in Due(was, t)
    {
      assert k in tables.ttl <==> k in was.ttl;
    }
  }

  /** A registered host is found at once, and no sweep takes it before its grace has passed. */
  lemma RegisterEffect(was: Tables, h: HostId, machine: Owner, now: int)
    ensures var tables := RegisterScript(was, h, EncodeOwner(machine), now);
      && (Reclaimable(was) ==> Reclaimable(tables))
      && (Lookup(tables, h) == Some(machine) <==> Plain(machine.region))
      && forall t :: h in Due(tables, t) <==> 0 <= now + TTL_GRACE_MS <= t
  {
    DecodeInvertsEncode(machine);
    assert EncodeOwner(machine)[|machine.region|] == ':';
  }

  /** Nothing is left of these hosts in any table, and everything of the others. */
  ghost predicate GoneAt(was: Tables, now: Tables, hs: set<HostId>) {
    && (forall h :: (h in now.owner <==> h in was.owner && h !in hs) && (h in now.owner ==> now.owner[h] == was.owner[h]))
    && (forall h :: (h in now.meta <==> h in was.meta && h !in hs) && (h in now.meta ==> now.meta[h] == was.meta[h]))
    && (forall h :: (h in now.ttl <==> h in was.ttl && h !in hs) && (h in now.ttl ==> now.ttl[h] == was.ttl[h]))
  }

  lemma RemovedAreGone(t: Tables, hs: set<HostId>)
    ensures GoneAt(t, Remove(t, hs), hs)
  { }

  lemma RemoveKeeps(t: Tables, hs: set<HostId>)
    requires Reclaimable(t)
    ensures Reclaimable(Remove(t, hs))
  { }

  lemma AmongAll(t: Tables, owner: string)
    ensures Among(t.owner, t.owner.Keys, owner) == OwnedBy(t, owner)
  { }

  class Directory {
    var owner: map<HostId, string>
    var meta: map<HostId, Meta>
    var ttl: map<HostId, int>

    function Abs(): Tables reads this {
      Tables(owner, meta, ttl)
    }

    ghost predicate Valid() reads this { Reclaimable(Abs()) }

    constructor ()
      ensures Valid() && Abs() == Init.tables
    {
      owner, meta, ttl := map[], map[], map[];
    }

    method Register(h: HostId, machine: Owner, now: int)
      requires Valid()
      modifies this
      ensures Abs() == RegisterScript(old(Abs()), h, EncodeOwner(machine), now)
      ensures Valid() && OthersSeeNothing(old(Abs()), Abs(), h)
      ensures Lookup(Abs(), h) == Some(machine) <==> Plain(machine.region)
      ensures forall t :: h in Due(Abs(), t) <==> 0 <= now + TTL_GRACE_MS <= t
      ensures h in meta && meta[h] == Meta(now, now)
    {
      RegisterEffect(Abs(), h, machine, now);
      RegisterIsLocal(Abs(), h, EncodeOwner(machine), now);
      owner := owner[h := EncodeOwner(machine)];
      meta := meta[h := Meta(now, now)];
      ttl := ttl[h := now + TTL_GRACE_MS];
    }

    method Unregister(h: HostId, machine: Owner) returns (removed: nat)
      requires Valid()
      modifies this
      ensures Valid() && Abs() == UnregisterScript(old(Abs()), h, EncodeOwner(machine))
      ensures removed == |old(owner)| - |owner|
      ensures if h in old(owner) && old(owner)[h] == EncodeOwner(machine) then GoneAt(old(Abs()), Abs(), {h}) else Abs() == old(Abs())
    {
      RemovedAreGone(Abs(), {h});
      if h in owner && owner[h] == EncodeOwner(machine) {
        ghost var was := owner.Keys;
        owner, meta, ttl := owner - {h}, meta - {h}, ttl - {h};
        assert owner.Keys == was - {h};
        return 1;
      }
      return 0;
    }

    /** `heartbeat`, with nothing else going on: an owned host is stamped and keeps its registration time; any other is left
        alone. */
    method Heartbeat(h: HostId, now: int)
      requires Valid()
      modifies this
      ensures Valid() && Abs() == Beaten(old(Abs()), h, now) && OthersSeeNothing(old(Abs()), Abs(), h)
      ensures owner == old(owner) && (h !in owner ==> meta == old(meta) && ttl == old(ttl))
      ensures h in owner ==>
        ttl == old(ttl)[h := now + TTL_GRACE_MS] && meta == old(meta)[h := Meta(old(meta)[h].registeredAt, now)]
    {
      if h !in owner { return; }
      var stamped := if h in meta then meta[h].(lastPongAt := now) else Meta(now, now);
      meta := meta[h := stamped];
      ttl := ttl[h := now + TTL_GRACE_MS];
    }

    method RemoveMember(h: HostId)
      modifies this
      ensures Abs() == Remove(old(Abs()), {h})
    {
      owner, meta, ttl := owner - {h}, meta - {h}, ttl - {h};
    }

    /** Re-checks each member's score before removing it, as the script does. */
    method SweepStale(now: int) returns (removed: nat)
      requires Valid()
      modifies this
      ensures Abs() == SweepScript(old(Abs()), now) && Valid()
      ensures removed == |Due(old(Abs()), now)| && GoneAt(old(Abs()), Abs(), Due(old(Abs()), now))
    {
      RemoveKeeps(Abs(), Due(Abs(), now));
      RemovedAreGone(Abs(), Due(Abs(), now));
      var stale := Due(Abs(), now);
      var done: set<HostId> := {};
      removed := 0;
      RemoveOneMore(Abs(), {}, "");
      while stale - done != {}
        invariant done <= stale
        invariant Abs() == Remove(old(Abs()), done)
        invariant removed == |done|
        decreases stale - done
      {
        var member :| member in stale - done;
        if member in ttl && ttl[member] <= now {
          RemoveOneMore(old(Abs()), done, member);
          RemoveMember(member);
          removed := removed + 1;
        }
        done := done + {member};
      }
      assert done == stale;
    }

    /** Removes the entries of one machine, whatever it left behind. */
    method ClearStaleEntriesForMachine(machine: Owner) returns (cleared: nat)
      requires Valid()
      modifies this
      ensures Abs() == ClearScript(old(Abs()), EncodeOwner(machine)) && Valid()
      ensures cleared == |OwnedBy(old(Abs()), EncodeOwner(machine))|
      ensures GoneAt(old(Abs()), Abs(), OwnedBy(old(Abs()), EncodeOwner(machine)))
    {
      var self := EncodeOwner(machine);
      RemoveKeeps(Abs(), OwnedBy(Abs(), self));
      RemovedAreGone(Abs(), OwnedBy(Abs(), self));
      AmongAll(Abs(), self);
      cleared := RemoveEach(owner, self);
    }

    /** Its loop over the entries it has read. */
    method RemoveEach(entries: map<HostId, string>, self: string) returns (cleared: nat)
      modifies this
      ensures Abs() == Remove(old(Abs()), Among(entries, entries.Keys, self))
      ensures cleared == |Among(entries, entries.Keys, self)|
    {
      var done: set<HostId> := {};
      cleared := 0;
      RemoveOneMore(Abs(), {}, "");
      while entries.Keys - done != {}
        invariant done <= entries.Keys
        invariant Abs() == Remove(old(Abs()), Among(entries, done, self))
        invariant cleared == |Among(entries, done, self)|
        decreases entries.Keys - done
      {
        var h :| h in entries.Keys - done;
        AmongOneMore(entries, done, h, self);
        if entries[h] == self {
          RemoveOneMore(old(Abs()), Among(entries, done, self), h);
          RemoveMember(h);
          cleared := cleared + 1;
        }
        done := done + {h};
      }
      assert done == entries.Keys;
    }
  }
}
