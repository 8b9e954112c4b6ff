/**
 The port tracker's data and what its updates mean
 (packages/port-scanner/src/port-manager.ts).
 */
module PortModel {
  import opened Basics

  type TerminalId = string
  type WorkspaceId = string

  const IGNORED_PORTS: set<nat> := {22, 80, 443}

  /** `localeCompare` is a total preorder on strings: strings compare as their collation keys. */
  type Collation = string -> real

  datatype PortInfo = PortInfo(port: nat, pid: int, processName: string, address: string)

  // ------------------------------------------------------- comparePortInfo

  function AddressRank(address: string): nat {
    var a := ToLower(address);
    if a == "127.0.0.1" || a == "localhost" then 0
    else if a == "0.0.0.0" || a == "*" then 1
    else if ':' !in a then 2
    else if a == "::1" || a == "0:0:0:0:0:0:0:1" then 3
    else if a == "::" || a == "0:0:0:0:0:0:0:0" then 4
    else 5
  }

  /** `comparePortInfo(a, b) < 0`. */
  predicate Less(key: Collation, a: PortInfo, b: PortInfo) {
    if a.port != b.port then a.port < b.port
    else if a.pid != b.pid then a.pid < b.pid
    else if key(a.processName) != key(b.processName) then key(a.processName) < key(b.processName)
    else if AddressRank(a.address) != AddressRank(b.address) then AddressRank(a.address) < AddressRank(b.address)
    else key(a.address) < key(b.address)
  }

  lemma LessIsTransitive(key: Collation, a: PortInfo, b: PortInfo, c: PortInfo)
    ensures !Less(key, a, a)
    ensures Less(key, a, b) && !Less(key, c, b) ==> Less(key, a, c)
    ensures !Less(key, a, b) && !Less(key, b, c) ==> !Less(key, a, c)
  { }

  lemma TieMeansEqual(key: Collation, a: PortInfo, b: PortInfo)
    requires !Less(key, a, b) && !Less(key, b, a)
    requires forall x: string, y: string :: key(x) == key(y) ==> x == y
    ensures a == b
  { }

  // ------------------------------------------------- dedupePortInfosByPort

  /** `best` holds, for every port in `infos`, the first of its least records. */
  ghost predicate IsBest(key: Collation, infos: seq<PortInfo>, best: map<nat, PortInfo>) {
    && (forall i | 0 <= i < |infos| :: infos[i].port in best && !Less(key, infos[i], best[infos[i].port]))
    && (forall p | p in best :: exists i: nat :: FirstBest(key, infos, p, i) && infos[i] == best[p])
  }

  /** Record `i` is for port `p`, and no earlier record of that port is as good. */
  ghost predicate FirstBest(key: Collation, infos: seq<PortInfo>, p: nat, i: nat) {
    i < |infos| && infos[i].port == p && forall j | 0 <= j < i && infos[j].port == p :: Less(key, infos[i], infos[j])
  }

  lemma NewBest(key: Collation, infos: seq<PortInfo>, n: nat, best: map<nat, PortInfo>)
    requires n < |infos|
    requires forall i | 0 <= i < n :: infos[i].port in best && !Less(key, infos[i], best[infos[i].port])
    requires infos[n].port !in best || Less(key, infos[n], best[infos[n].port])
    ensures FirstBest(key, infos, infos[n].port, n)
    ensures forall i | 0 <= i <= n && infos[i].port == infos[n].port :: !Less(key, infos[i], infos[n])
  {
    var info := infos[n];
    forall j | 0 <= j < n && infos[j].port == info.port ensures Less(key, info, infos[j]) {
      LessIsTransitive(key, info, best[info.port], infos[j]);
    }
    forall i | 0 <= i <= n && infos[i].port == info.port ensures !Less(key, infos[i], info) {
      LessIsTransitive(key, infos[i], info, infos[i]);
    }
  }

  method DedupePortInfosByPort(key: Collation, infos: seq<PortInfo>) returns (best: map<nat, PortInfo>)
    ensures IsBest(key, infos, best)
  {
    best := map[];
    ghost var at: map<nat, nat> := map[];
    for n := 0 to |infos|
      invariant at.Keys == best.Keys
      invariant forall i | 0 <= i < n :: infos[i].port in best && !Less(key, infos[i], best[infos[i].port])
      invariant forall p | p in best :: at[p] < n && FirstBest(key, infos, p, at[p]) && infos[at[p]] == best[p]
    {
      var info := infos[n];
      if info.port !in best || Less(key, info, best[info.port]) {
        NewBest(key, infos, n, best);
        best := best[info.port := info];
        at := at[info.port := n];
      }
    }
  }

  /** The winners do not depend on the order of the records, up to records that compare equal. */
  lemma BestIgnoresOrder(key: Collation, s: seq<PortInfo>, t: seq<PortInfo>, a: map<nat, PortInfo>, b: map<nat, PortInfo>)
    requires (forall x :: x in s <==> x in t) && IsBest(key, s, a) && IsBest(key, t, b)
    ensures a.Keys == b.Keys
    ensures forall p | p in a :: !Less(key, a[p], b[p]) && !Less(key, b[p], a[p])
  {
    BestCovers(key, s, t, a, b);
    BestCovers(key, t, s, b, a);
  }

  lemma BestCovers(key: Collation, s: seq<PortInfo>, t: seq<PortInfo>, a: map<nat, PortInfo>, b: map<nat, PortInfo>)
    requires (forall x :: x in s ==> x in t) && IsBest(key, s, a) && IsBest(key, t, b)
    ensures forall p | p in a :: p in b && !Less(key, a[p], b[p])
  {
    forall p | p in a ensures p in b && !Less(key, a[p], b[p]) {
      var i: nat :| FirstBest(key, s, p, i) && s[i] == a[p];
      assert s[i] in t;
      var j :| 0 <= j < |t| && t[j] == s[i];
    }
  }

  /** When the collation tells distinct strings apart, the winners are the same records. */
  lemma BestIsUnique(key: Collation, s: seq<PortInfo>, t: seq<PortInfo>, a: map<nat, PortInfo>, b: map<nat, PortInfo>)
    requires (forall x :: x in s <==> x in t) && IsBest(key, s, a) && IsBest(key, t, b)
    requires forall x: string, y: string :: key(x) == key(y) ==> x == y
    ensures a == b
  {
    BestIgnoresOrder(key, s, t, a, b);
    forall p | p in a ensures a[p] == b[p] {
      TieMeansEqual(key, a[p], b[p]);
    }
  }

  /** Among the records of a port the winner has the least process id; of those the least name; of those the nearest address, and
      then the least. */
  lemma WinnerIsLeast(key: Collation, infos: seq<PortInfo>, best: map<nat, PortInfo>, x: PortInfo)
    requires IsBest(key, infos, best) && x in infos
    ensures x.port in best && best[x.port].port == x.port && best[x.port] in infos
    ensures var b := best[x.port];
      && b.pid <= x.pid
      && (b.pid == x.pid ==> key(b.processName) <= key(x.processName))
      && (b.pid == x.pid && key(b.processName) == key(x.processName) ==> AddressRank(b.address) <= AddressRank(x.address))
      && (b.pid == x.pid && key(b.processName) == key(x.processName) && AddressRank(b.address) == AddressRank(x.address) ==>
            key(b.address) <= key(x.address))
  {
    var i :| 0 <= i < |infos| && infos[i] == x;
    var j: nat :| FirstBest(key, infos, x.port, j) && infos[j] == best[x.port];
  }

  /** How near an address is: this host, any, another without a colon, and the same of those with one; in any case. */
  lemma AddressesRank(a: string, b: string)
    ensures AddressRank(a) == 0 <==> ToLower(a) in {"127.0.0.1", "localhost"}
    ensures AddressRank(a) == 1 <==> ToLower(a) in {"0.0.0.0", "*"}
    ensures AddressRank(a) == 3 <==> ToLower(a) in {"::1", "0:0:0:0:0:0:0:1"}
    ensures AddressRank(a) == 4 <==> ToLower(a) in {"::", "0:0:0:0:0:0:0:0"}
    ensures ':' !in ToLower(a) && ':' in ToLower(b) ==> AddressRank(a) < AddressRank(b)
    ensures AddressRank(a) <= 5
  {
    assert "::1"[0] == ':' && "0:0:0:0:0:0:0:1"[1] == ':' && "::"[0] == ':' && "0:0:0:0:0:0:0:0"[1] == ':';
    assert ':' !in "127.0.0.1" && ':' !in "localhost" && ':' !in "0.0.0.0" && ':' !in "*";
  }

  // -------------------------------------------------------- the tracked ports

  datatype DetectedPort = DetectedPort(
    port: nat, pid: int, processName: string, terminalId: TerminalId, workspaceId: WorkspaceId,
    detectedAt: int, address: string)

  datatype Key = Key(terminalId: TerminalId, port: nat)

  function KeyOf(p: DetectedPort): Key {
    Key(p.terminalId, p.port)
  }

  function MakeKey(k: Key): string {
    k.terminalId + ":" + Decimal(k.port)
  }

  /** The string keys of the source identify exactly the pairs used here, whatever the terminal ids contain. */
  lemma MakeKeyIsInjective(a: Key, b: Key)
    requires MakeKey(a) == MakeKey(b)
    ensures a == b
  {
    var s := MakeKey(a);
    var i, j := |a.terminalId|, |b.terminalId|;
    assert s[i] == ':' && s[j] == ':';
    assert s[i + 1..] == Decimal(a.port) && s[j + 1..] == Decimal(b.port);
    assert forall k | i < k < |s| :: s[k] == Decimal(a.port)[k - i - 1];
    assert forall k | j < k < |s| :: s[k] == Decimal(b.port)[k - j - 1];
    assert i == j;
    assert s[..i] == a.terminalId && s[..j] == b.terminalId;
    DecimalIsInjective(a.port, b.port);
  }

  type Ports = map<Key, DetectedPort>

  datatype Event = Added(p: DetectedPort) | Removed(p: DetectedPort)

  /** A listener's picture after an event; none if the event contradicts it. */
  function Apply(view: Option<Ports>, e: Event): Option<Ports> {
    if view.None? then None
    else
      var m := view.value;
      match e
      case Added(p) => if KeyOf(p) in m then None else Some(m[KeyOf(p) := p])
      case Removed(p) => if KeyOf(p) in m && m[KeyOf(p)] == p then Some(m - {KeyOf(p)}) else None
  }

  function Replay(log: seq<Event>): Option<Ports> {
    if log == [] then Some(map[]) else Apply(Replay(log[..|log| - 1]), log[|log| - 1])
  }

  lemma ReplaySnoc(log: seq<Event>, e: Event)
    ensures Replay(log + [e]) == Apply(Replay(log), e)
  {
    assert (log + [e])[..|log|] == log;
  }

  ghost predicate Keyed(ports: Ports) {
    forall k | k in ports :: KeyOf(ports[k]) == k
  }

  /** The entry an update leaves for `info`: identity and age of the old entry survive. */
  function Entry(was: Ports, t: TerminalId, w: WorkspaceId, info: PortInfo, now: int): DetectedPort {
    var k := Key(t, info.port);
    if k in was then was[k].(pid := info.pid, processName := info.processName, address := info.address)
    else DetectedPort(info.port, info.pid, info.processName, t, w, now, info.address)
  }

  /** The whole effect of one update: terminal `t` has exactly the winners, every other terminal is untouched. */
  function Updated(ports: Ports, t: TerminalId, w: WorkspaceId, best: map<nat, PortInfo>, now: int): Ports {
    map k | k in ports.Keys + (set p | p in best :: Key(t, p)) && (k.terminalId == t ==> k.port in best) ::
      if k.terminalId == t then Entry(ports, t, w, best[k.port], now) else ports[k]
  }

  function KeysOf(ports: Ports, t: TerminalId): set<Key> {
    set k | k in ports && k.terminalId == t
  }

  function OfTerminal(ports: Ports, t: TerminalId): Ports {
    map k | k in ports && k.terminalId == t :: ports[k]
  }

  // --------------------------------------------------- what an update means to a listener

  /** The entry holds what was found; whose it is and since when is kept from the entry there was. */
  ghost predicate TrackedAs(was: Ports, entry: DetectedPort, t: TerminalId, w: WorkspaceId, found: PortInfo, now: int) {
    var k := Key(t, found.port);
    && entry.port == found.port && entry.pid == found.pid && entry.processName == found.processName
    && entry.address == found.address && entry.terminalId == t
    && entry.workspaceId == (if k in was then was[k].workspaceId else w)
    && entry.detectedAt == (if k in was then was[k].detectedAt else now)
  }

  /** The terminal tracks exactly the ports that have a winner, each as its winner. */
  ghost predicate TracksWinners(was: Ports, ports: Ports, t: TerminalId, w: WorkspaceId, best: map<nat, PortInfo>, now: int) {
    && (forall k: Key | k.terminalId == t :: k in ports <==> k.port in best)
    && (forall p | p in best :: best[p].port == p && Key(t, p) in ports && TrackedAs(was, ports[Key(t, p)], t, w, best[p], now))
  }

  lemma UpdatedTracks(was: Ports, t: TerminalId, w: WorkspaceId, best: map<nat, PortInfo>, now: int)
    requires Keyed(was) && forall p | p in best :: best[p].port == p
    ensures TracksWinners(was, Updated(was, t, w, best, now), t, w, best, now)
  {
    forall k: Key | k.terminalId == t && k.port in best ensures k in Updated(was, t, w, best, now) { assert k == Key(t, k.port); }
    forall p | p in best ensures TrackedAs(was, Updated(was, t, w, best, now)[Key(t, p)], t, w, best[p], now) {
      assert Key(t, p) in was ==> KeyOf(was[Key(t, p)]) == Key(t, p);
    }
  }

  lemma SameTerminalTracks(was: Ports, a: Ports, b: Ports, t: TerminalId, w: WorkspaceId, best: map<nat, PortInfo>, now: int)
    requires TracksWinners(was, a, t, w, best, now) && OfTerminal(a, t) == OfTerminal(b, t)
    ensures TracksWinners(was, b, t, w, best, now)
  {
    forall k: Key | k.terminalId == t ensures (k in a <==> k in b) && (k in a ==> a[k] == b[k]) {
      assert (k in a <==> k in OfTerminal(a, t)) && (k in b <==> k in OfTerminal(b, t));
      assert k in a ==> OfTerminal(a, t)[k] == a[k];
    }
  }

  /** An entry came, went or became another. */
  predicate Changed(was: Ports, now: Ports, k: Key) {
    (k in was || k in now) && !(k in was && k in now && was[k] == now[k])
  }

  /** A port that is tracked on is announced exactly when its process, the process's name or its address has changed. */
  lemma ChangedIsVisible(was: Ports, now: Ports, t: TerminalId, w: WorkspaceId, best: map<nat, PortInfo>, at: int, p: nat)
    requires Keyed(was) && TracksWinners(was, now, t, w, best, at) && p in best && Key(t, p) in was
    ensures var before := was[Key(t, p)];
      Changed(was, now, Key(t, p)) <==>
        before.pid != best[p].pid || before.processName != best[p].processName || before.address != best[p].address
  {
    assert KeyOf(was[Key(t, p)]) == Key(t, p);
  }

  ghost predicate NoRepeats(news: seq<Event>) {
    forall i, j | 0 <= i < j < |news| :: news[i] != news[j]
  }

  predicate IsNews(was: Ports, now: Ports, e: Event) {
    && Changed(was, now, KeyOf(e.p))
    && var ports := if e.Added? then now else was;
    KeyOf(e.p) in ports && ports[KeyOf(e.p)] == e.p
  }

  /** What is announced: each change, its old entry as removed and its new one as added, once; and nothing else. */
  ghost predicate Announced(was: Ports, now: Ports, news: seq<Event>) {
    && (forall e | e in news :: IsNews(was, now, e))
    && (forall k | k in now && Changed(was, now, k) :: Added(now[k]) in news)
    && (forall k | k in was && Changed(was, now, k) :: Removed(was[k]) in news)
    && NoRepeats(news)
  }

  /** The news of a change at one key. */
  function News(was: Ports, now: Ports, k: Key): seq<Event> {
    if !Changed(was, now, k) then []
    else (if k in was then [Removed(was[k])] else []) + if k in now then [Added(now[k])] else []
  }

  /** What is left without the entries of these terminals. */
  function Forgotten(ports: Ports, ts: set<TerminalId>): Ports {
    map k | k in ports && k.terminalId !in ts :: ports[k]
  }

  lemma ForgottenOneMore(ports: Ports, ts: set<TerminalId>, t: TerminalId)
    ensures Forgotten(ports, {}) == ports
    ensures Forgotten(ports, ts) - KeysOf(Forgotten(ports, ts), t) == Forgotten(ports, ts + {t})
    ensures ApartIn(ports, Forgotten(ports, ts), Forgotten(ports, ts + {t}))
  { }

  /** No entry changed both before and after. */
  ghost predicate ApartIn(was: Ports, mid: Ports, now: Ports) {
    forall k :: !(Changed(was, mid, k) && Changed(mid, now, k))
  }

  lemma SameChanges(was: Ports, mid: Ports, now: Ports, k: Key)
    requires ApartIn(was, mid, now)
    ensures Changed(was, now, k) <==> Changed(was, mid, k) || Changed(mid, now, k)
    ensures Changed(mid, now, k) ==> (k in was <==> k in mid) && (k in was ==> was[k] == mid[k])
    ensures Changed(was, mid, k) ==> (k in now <==> k in mid) && (k in now ==> now[k] == mid[k])
  { }

  lemma NewsTogether(was: Ports, mid: Ports, now: Ports, e: Event)
    requires ApartIn(was, mid, now) && (IsNews(was, mid, e) || IsNews(mid, now, e))
    ensures IsNews(was, now, e)
  {
    SameChanges(was, mid, now, KeyOf(e.p));
  }

  /** Of changes to different entries, what is announced of each in turn is announced of both. */
  lemma AnnouncedTogether(was: Ports, mid: Ports, now: Ports, a: seq<Event>, b: seq<Event>)
    requires ApartIn(was, mid, now) && Announced(was, mid, a) && Announced(mid, now, b)
    ensures Announced(was, now, a + b)
  {
    forall e | e in a + b ensures IsNews(was, now, e) { NewsTogether(was, mid, now, e); }
    forall k | k in now && Changed(was, now, k) ensures Added(now[k]) in a + b { SameChanges(was, mid, now, k); }
    forall k | k in was && Changed(was, now, k) ensures Removed(was[k]) in a + b { SameChanges(was, mid, now, k); }
    forall e ensures !(e in a && e in b) { assert (e in a ==> IsNews(was, mid, e)) && (e in b ==> IsNews(mid, now, e)); }
    NoRepeatsTogether(a, b);
  }

  lemma NoRepeatsTogether(a: seq<Event>, b: seq<Event>)
    requires NoRepeats(a) && NoRepeats(b) && forall e :: !(e in a && e in b)
    ensures NoRepeats(a + b)
  {
    forall i, j | 0 <= i < j < |a + b| ensures (a + b)[i] != (a + b)[j] {
      if i < |a| <= j { assert a[i] in a && b[j - |a|] in b; }
    }
  }

  lemma NewsAreAnnounced(was: Ports, now: Ports, k: Key)
    requires Keyed(was) && Keyed(now) && forall x | x != k :: (x in now <==> x in was) && (x in was ==> now[x] == was[x])
    ensures Announced(was, now, News(was, now, k))
  {
    assert forall x | x != k :: !Changed(was, now, x);
  }

  /** What changed at a key untouched so far is announced next. */
  lemma AnnouncedOneMore(was: Ports, mid: Ports, now: Ports, news: seq<Event>, k: Key)
    requires Keyed(mid) && Keyed(now) && Announced(was, mid, news) && !Changed(was, mid, k)
    requires forall x | x != k :: (x in now <==> x in mid) && (x in mid ==> now[x] == mid[x])
    ensures Announced(was, now, news + News(mid, now, k))
  {
    NewsAreAnnounced(mid, now, k);
    assert forall x | x != k :: !Changed(mid, now, x);
    AnnouncedTogether(was, mid, now, news, News(mid, now, k));
  }

  /** What is left of the entries of the terminals in use. */
  function Claimed(ports: Ports, live: set<TerminalId>): Ports {
    map k | k in ports && k.terminalId in live :: ports[k]
  }

  /** First what a scan found is announced, and then what no terminal in use claims. */
  ghost predicate AnnouncedByScan(was: Ports, now: Ports, live: set<TerminalId>, news: seq<Event>) {
    exists mid: Ports, n: nat ::
      n <= |news| && now == Claimed(mid, live) && Announced(was, mid, news[..n]) && Announced(mid, now, news[n..])
  }

  lemma NothingAnnounced(ports: Ports)
    ensures Announced(ports, ports, [])
  { }

  // ------------------------------------------------------------- scan results

  /** `portInfos.filter`: without the ignored ports. */
  function Visible(infos: seq<PortInfo>): seq<PortInfo> {
    if infos == [] then []
    else
      var info := infos[|infos| - 1];
      Visible(infos[..|infos| - 1]) + if info.port in IGNORED_PORTS then [] else [info]
  }

  /** The records whose process belongs to terminal `t`, in order. */
  function Owned(infos: seq<PortInfo>, owner: map<int, TerminalId>, t: TerminalId): seq<PortInfo> {
    if infos == [] then []
    else
      var info := infos[|infos| - 1];
      Owned(infos[..|infos| - 1], owner, t) + if info.pid in owner && owner[info.pid] == t then [info] else []
  }

  lemma {:induction false} OwnedAre(infos: seq<PortInfo>, owner: map<int, TerminalId>, t: TerminalId, x: PortInfo)
    ensures x in Visible(Owned(infos, owner, t)) <==>
      x in infos && x.pid in owner && owner[x.pid] == t && x.port !in IGNORED_PORTS
  {
    OwnedOnly(infos, owner, t, x);
    VisibleOnly(Owned(infos, owner, t), x);
  }

  lemma {:induction false} OwnedOnly(infos: seq<PortInfo>, owner: map<int, TerminalId>, t: TerminalId, x: PortInfo)
    ensures x in Owned(infos, owner, t) <==> x in infos && x.pid in owner && owner[x.pid] == t
  {
    if infos != [] {
      OwnedOnly(infos[..|infos| - 1], owner, t, x);
      assert infos == infos[..|infos| - 1] + [infos[|infos| - 1]];
    }
  }

  lemma {:induction false} VisibleOnly(infos: seq<PortInfo>, x: PortInfo)
    ensures x in Visible(infos) <==> x in infos && x.port !in IGNORED_PORTS
  {
    if infos != [] {
      VisibleOnly(infos[..|infos| - 1], x);
      assert infos == infos[..|infos| - 1] + [infos[|infos| - 1]];
    }
  }

  /** Either filter takes the records one by one, in order, and keeps each as often as it stands there. */
  lemma VisibleInOrder(infos: seq<PortInfo>, x: PortInfo)
    ensures Visible(infos + [x]) == if x.port in IGNORED_PORTS then Visible(infos) else Visible(infos) + [x]
  {
    assert (infos + [x])[..|infos|] == infos;
  }

  lemma OwnedInOrder(infos: seq<PortInfo>, owner: map<int, TerminalId>, t: TerminalId, x: PortInfo)
    ensures Owned(infos + [x], owner, t)
         == if x.pid in owner && owner[x.pid] == t then Owned(infos, owner, t) + [x] else Owned(infos, owner, t)
  {
    assert (infos + [x])[..|infos|] == infos;
  }

  /** What a scan knows when its last await returns. */
  datatype ScanResult = ScanResult(
    trees: map<TerminalId, WorkspaceId>, owner: map<int, TerminalId>, infos: seq<PortInfo>, emptyTrees: set<TerminalId>)

  /** After a scan, a surviving terminal that was scanned tracks exactly its winners, each as it was found. */
  ghost predicate Scanned(key: Collation, was: Ports, now: Ports, r: ScanResult, t: TerminalId, at: int) {
    if t in r.trees then
      exists best ::
        IsBest(key, Visible(Owned(r.infos, r.owner, t)), best) && TracksWinners(was, now, t, r.trees[t], best, at)
    else if t in r.emptyTrees then OfTerminal(now, t) == map[]
    else OfTerminal(now, t) == OfTerminal(was, t)
  }

  /** Every terminal in use tracks what was found of it, and exactly that is announced. */
  ghost predicate ScanSettled(key: Collation, was: Ports, now: Ports, live: set<TerminalId>, r: ScanResult, news: seq<Event>, at: int) {
    && (forall t | t in live :: Scanned(key, was, now, r, t, at))
    && AnnouncedByScan(was, now, live, news)
  }
}
