/** How requests for a host find the relay that holds its tunnel (apps/relay/src/index.ts, proxy.ts). */
module Routing {
  import opened Basics

  datatype Machine = Machine(region: string, id: string)

  // ------------------------------------------------------------- requests, by replay

  /** What a relay answers: itself, a replay elsewhere, or 503. */
  datatype Answer = Serve | ToInstance(id: string) | ToRegion(region: string) | Unavailable

  /** `maybeReplay` and what follows it; `owner` is what the directory answers, none also for a failed lookup. */
  function Answered(m: Machine, holdsTunnel: bool, owner: Option<Machine>): Answer {
    if holdsTunnel then Serve
    else if owner.None? || owner.value == m then Unavailable
    else if owner.value.region == m.region then ToInstance(owner.value.id)
    else ToRegion(owner.value.region)
  }

  /** Where a replayed request may arrive: the machine named, or any of the region. */
  predicate Arrives(a: Answer, m: Machine) {
    match a
    case ToInstance(id) => m.id == id
    case ToRegion(region) => m.region == region
    case _ => false
  }

  /** The machines of the fleet that a request visits in turn, while the directory and the tunnels stay as they are. */
  predicate Visits(fleet: set<Machine>, holders: set<Machine>, owner: Option<Machine>, hops: seq<Machine>) {
    && (forall i | 0 <= i < |hops| :: hops[i] in fleet)
    && (forall i | 0 <= i < |hops| - 1 :: Arrives(Answered(hops[i], hops[i] in holders, owner), hops[i + 1]))
  }

  /** A machine without the tunnel that has the owner's id but another region than the entry gives. */
  predicate Misplaced(fleet: set<Machine>, holders: set<Machine>, o: Machine, x: Machine) {
    x in fleet && x !in holders && x.id == o.id && x.region != o.region
  }

  /** A machine without the tunnel in the region the entry gives, other than the owner. */
  predicate Bystander(fleet: set<Machine>, holders: set<Machine>, o: Machine, y: Machine) {
    y in fleet && y !in holders && y.region == o.region && y != o
  }

  predicate CanLoop(fleet: set<Machine>, holders: set<Machine>, owner: Option<Machine>) {
    owner.Some?
    && (exists x | x in fleet :: Misplaced(fleet, holders, owner.value, x))
    && (exists y | y in fleet :: Bystander(fleet, holders, owner.value, y))
  }

  /** No replay goes to the machine itself. */
  lemma NoReplayToItself(fleet: set<Machine>, holders: set<Machine>, owner: Option<Machine>, hops: seq<Machine>, i: nat)
    requires Visits(fleet, holders, owner, hops) && i + 1 < |hops|
    ensures hops[i + 1] != hops[i]
  {
    assert Arrives(Answered(hops[i], hops[i] in holders, owner), hops[i + 1]);
  }

  /** Replayed from the owner's region, a request arrives at the owner or at a tunnel. */
  lemma InRegionFindsOwner(fleet: set<Machine>, holders: set<Machine>, o: Machine, a: Machine, b: Machine)
    requires !CanLoop(fleet, holders, Some(o)) && a in fleet && b in fleet
    requires Arrives(Answered(a, a in holders, Some(o)), b) && a.region == o.region
    ensures b == o || b in holders
  {
    var bystander, misplaced := Bystander(fleet, holders, o, a), Misplaced(fleet, holders, o, b);
  }

  /** At most two replays, a region and then an instance; then the machine reached holds the tunnel or answers 503,
      and whenever the owner holds the tunnel nobody answers 503. */
  lemma ReplaysEnd(fleet: set<Machine>, holders: set<Machine>, owner: Option<Machine>, hops: seq<Machine>)
    requires hops != [] && Visits(fleet, holders, owner, hops) && !CanLoop(fleet, holders, owner)
    ensures |hops| <= 3
    ensures |hops| == 3 ==> Answered(hops[0], hops[0] in holders, owner).ToRegion? && Answered(hops[1], hops[1] in holders, owner).ToInstance?
    ensures |hops| == 3 ==>
      Answered(hops[2], hops[2] in holders, owner) == if hops[2] in holders then Serve else Unavailable
    ensures owner.Some? && owner.value in holders ==> !Answered(hops[|hops| - 1], hops[|hops| - 1] in holders, owner).Unavailable?
  {
    if |hops| >= 2 {
      assert Arrives(Answered(hops[0], hops[0] in holders, owner), hops[1]);
      if |hops| >= 3 {
        assert Arrives(Answered(hops[1], hops[1] in holders, owner), hops[2]);
        if hops[0].region == owner.value.region { InRegionFindsOwner(fleet, holders, owner.value, hops[0], hops[1]); }
        if hops[1].region == owner.value.region { InRegionFindsOwner(fleet, holders, owner.value, hops[1], hops[2]); }
        assert |hops| > 3 ==> Arrives(Answered(hops[2], hops[2] in holders, owner), hops[3]);
      }
    }
  }

  /** From a misplaced machine and a bystander a request goes back and forth for any number of hops. */
  lemma {:induction false} LoopOf(fleet: set<Machine>, holders: set<Machine>, o: Machine, x: Machine, y: Machine, n: nat)
    returns (hops: seq<Machine>)
    requires Misplaced(fleet, holders, o, x) && Bystander(fleet, holders, o, y)
    ensures |hops| == n + 1 && hops[n] == (if n % 2 == 0 then x else y)
    ensures Visits(fleet, holders, Some(o), hops)
  {
    if n == 0 {
      hops := [x];
    } else {
      var before := LoopOf(fleet, holders, o, x, y, n - 1);
      hops := before + [if n % 2 == 0 then x else y];
      forall i | 0 <= i < n ensures Arrives(Answered(hops[i], hops[i] in holders, Some(o)), hops[i + 1]) {
        if i < n - 1 { assert hops[i] == before[i] && hops[i + 1] == before[i + 1]; }
      }
    }
  }

  /** Some request is replayed `n` times. */
  ghost predicate SomeVisit(fleet: set<Machine>, holders: set<Machine>, owner: Option<Machine>, n: nat) {
    exists hops :: |hops| == n + 1 && Visits(fleet, holders, owner, hops)
  }

  /** In every fleet, replays are bounded by two from every start exactly when it cannot loop; otherwise there is no bound. */
  lemma MisplacedOwnerLoops(fleet: set<Machine>, holders: set<Machine>, owner: Option<Machine>)
    ensures !CanLoop(fleet, holders, owner) <==> forall hops | Visits(fleet, holders, owner, hops) :: |hops| <= 3
    ensures CanLoop(fleet, holders, owner) ==> forall n: nat :: SomeVisit(fleet, holders, owner, n)
  {
    if CanLoop(fleet, holders, owner) {
      var x :| x in fleet && Misplaced(fleet, holders, owner.value, x);
      var y :| y in fleet && Bystander(fleet, holders, owner.value, y);
      forall n: nat ensures SomeVisit(fleet, holders, owner, n) {
        var hops := LoopOf(fleet, holders, owner.value, x, y, n);
      }
      var four := LoopOf(fleet, holders, owner.value, x, y, 3);
    } else {
      forall hops | Visits(fleet, holders, owner, hops) ensures |hops| <= 3 {
        if hops != [] { ReplaysEnd(fleet, holders, owner, hops); }
      }
    }
  }

  /** An entry written by a machine still in the fleet, where ids name machines, cannot loop. */
  lemma OwnEntriesCannotLoop(fleet: set<Machine>, holders: set<Machine>, o: Machine)
    requires o in fleet && forall a, b | a in fleet && b in fleet && a.id == b.id :: a == b
    ensures !CanLoop(fleet, holders, Some(o))
  {
  }

  // --------------------------------------------------------------- upgrades, by bridge

  const HOP_PARAM := "_rlp"

  /** The pieces of a query string between `&`. */
  function Pieces(s: string): (r: seq<string>)
    ensures r != []
  {
    if s == "" then [""]
    else
      var rest := Pieces(s[1..]);
      if s[0] == '&' then [""] + rest else [[s[0]] + rest[0]] + rest[1..]
  }

  datatype Param = Param(name: string, value: string)

  /** Percent-decoding of a name or a value. */
  type Decoding = string -> string

  /** What any percent-decoding does to the marker, which holds no escape. */
  predicate KeepsMarker(decode: Decoding) {
    decode(HOP_PARAM) == HOP_PARAM && decode("1") == "1"
  }

  function ParamOf(decode: Decoding, piece: string): Param {
    var i := IndexOf(piece, '=');
    if i < 0 then Param(decode(piece), "") else Param(decode(piece[..i]), decode(piece[i + 1..]))
  }

  function Params(decode: Decoding, pieces: seq<string>): (r: seq<Param>)
    ensures |r| == |pieces|
  {
    seq(|pieces|, i requires 0 <= i < |pieces| => ParamOf(decode, pieces[i]))
  }

  /** The parameters of a URL's search part, which is empty or begins with `?`. */
  function Query(decode: Decoding, search: string): seq<Param> {
    if search == "" then [] else Params(decode, Pieces(search[1..]))
  }

  /** The first value of a parameter. */
  function First(params: seq<Param>, name: string): Option<string> {
    if params == [] then None
    else if params[0].name == name then Some(params[0].value)
    else First(params[1..], name)
  }

  predicate IsHop(decode: Decoding, search: string) {
    First(Query(decode, search), HOP_PARAM) == Some("1")
  }

  /** The search part of `internalProxyUrl`. */
  function WithMarker(search: string): string {
    search + (if search != "" then "&" else "?") + HOP_PARAM + "=1"
  }

  datatype Upgrade = Held | BridgeTo(owner: Machine, search: string) | Refused

  function Upgraded(decode: Decoding, m: Machine, holdsTunnel: bool, owner: Option<Machine>, search: string): Upgrade {
    if holdsTunnel then Held
    else if !IsHop(decode, search) && owner.Some? && owner.value != m then BridgeTo(owner.value, WithMarker(search))
    else Refused
  }

  lemma {:induction false} PiecesJoin(a: string, b: string)
    ensures Pieces(a + "&" + b) == Pieces(a) + Pieces(b)
    decreases |a|
  {
    var s := a + "&" + b;
    if a == "" {
      assert s[1..] == b;
    } else {
      assert s[0] == a[0] && s[1..] == a[1..] + "&" + b;
      PiecesJoin(a[1..], b);
      FirstAndRest(Pieces(a[1..]), Pieces(b));
    }
  }

  lemma FirstAndRest(x: seq<string>, y: seq<string>)
    requires x != []
    ensures (x + y)[0] == x[0] && (x + y)[1..] == x[1..] + y
    ensures forall p: seq<string> {:trigger p + x} :: p + (x + y) == (p + x) + y
    ensures forall p: seq<string> {:trigger p + x[1..]} :: p + (x[1..] + y) == (p + x[1..]) + y
  {
  }

  lemma MarkerIsAParam(decode: Decoding)
    requires KeepsMarker(decode)
    ensures Params(decode, Pieces(HOP_PARAM + "=1")) == [Param(HOP_PARAM, "1")]
  {
    var s := HOP_PARAM + "=1";
    assert s == "_rlp=1";
    NoAmpersand(s);
    assert s[4] == '=' && IndexOf(s, '=') == 4;
    assert s[..4] == "_rlp" && s[5..] == "1";
  }

  lemma {:induction false} NoAmpersand(s: string)
    requires '&' !in s
    ensures Pieces(s) == [s]
  {
    if s != "" {
      assert s[0] in s;
      NoAmpersand(s[1..]);
      assert [s[0]] + s[1..] == s;
    }
  }

  lemma {:induction false} FirstOfJoin(a: seq<Param>, b: seq<Param>, name: string)
    ensures First(a + b, name) == if First(a, name).Some? then First(a, name) else First(b, name)
  {
    if a == [] {
      assert a + b == b;
    } else {
      FirstOfJoin(a[1..], b, name);
      assert (a + b)[1..] == a[1..] + b;
    }
  }

  predicate IsSearch(search: string) {
    search == "" || search[0] == '?'
  }

  lemma MarkerIsAppended(decode: Decoding, search: string)
    requires IsSearch(search) && KeepsMarker(decode)
    ensures IsSearch(WithMarker(search)) && Query(decode, WithMarker(search)) == Query(decode, search) + [Param(HOP_PARAM, "1")]
  {
    MarkerIsAParam(decode);
    var marker := HOP_PARAM + "=1";
    if search == "" {
      assert WithMarker(search)[1..] == marker;
    } else {
      var rest := search[1..];
      assert WithMarker(search)[1..] == rest + "&" + marker;
      PiecesJoin(rest, marker);
      assert Params(decode, Pieces(rest) + Pieces(marker)) == Params(decode, Pieces(rest)) + Params(decode, Pieces(marker));
    }
  }

  /** A bridged upgrade is recognised as one exactly when its query did not already give the marker another value,
      names and values decoded. */
  lemma MarkerIsSeen(decode: Decoding, search: string)
    requires IsSearch(search) && KeepsMarker(decode)
    ensures IsHop(decode, WithMarker(search)) <==> First(Query(decode, search), HOP_PARAM) in {None, Some("1")}
  {
    MarkerIsAppended(decode, search);
    FirstOfJoin(Query(decode, search), [Param(HOP_PARAM, "1")], HOP_PARAM);
    assert First([Param(HOP_PARAM, "1")], HOP_PARAM) == Some("1");
  }

  /** One relay's part in an upgrade: who it is, whether it holds the tunnel, and what the directory tells it then. */
  datatype Visit = Visit(at: Machine, holdsTunnel: bool, owner: Option<Machine>, search: string)

  function Hand(decode: Decoding, v: Visit): Upgrade {
    Upgraded(decode, v.at, v.holdsTunnel, v.owner, v.search)
  }

  predicate Passes(decode: Decoding, v: Visit, w: Visit) {
    Hand(decode, v).BridgeTo? && Hand(decode, v).owner == w.at && Hand(decode, v).search == w.search
  }

  /** Each visit but the last hands the upgrade on to the next; the directory may change at will in between. */
  predicate Bridged(decode: Decoding, visits: seq<Visit>) {
    forall i | 0 <= i < |visits| - 1 :: Passes(decode, visits[i], visits[i + 1])
  }

  /** An upgrade is bridged at most once, whatever the directory does, and never to the relay itself. */
  lemma BridgedAtMostOnce(decode: Decoding, visits: seq<Visit>)
    requires KeepsMarker(decode)
    requires visits != [] && Bridged(decode, visits)
    requires IsSearch(visits[0].search) && First(Query(decode, visits[0].search), HOP_PARAM) in {None, Some("1")}
    ensures |visits| <= 2
    ensures |visits| == 2 ==> visits[1].at != visits[0].at && !Hand(decode, visits[1]).BridgeTo?
    ensures IsHop(decode, visits[0].search) ==> |visits| == 1
  {
    if |visits| >= 2 {
      assert Passes(decode, visits[0], visits[1]);
      MarkerIsSeen(decode, visits[0].search);
      assert |visits| > 2 ==> Passes(decode, visits[1], visits[2]);
    }
  }

  /** The relay with the tunnel serves the upgrade; another hands it on exactly when it was not handed on before and the
      directory names some other relay; it refuses the rest. */
  lemma UpgradesAreAnswered(decode: Decoding, v: Visit)
    ensures Hand(decode, v).Held? <==> v.holdsTunnel
    ensures forall o, x :: Hand(decode, v) == BridgeTo(o, x) <==>
      !v.holdsTunnel && !IsHop(decode, v.search) && v.owner == Some(o) && o != v.at && x == WithMarker(v.search)
    ensures Hand(decode, v).Refused? <==> !v.holdsTunnel && (IsHop(decode, v.search) || v.owner.None? || v.owner == Some(v.at))
  { }

  /** While the directory names a relay that holds the tunnel, an upgrade with no marker of its own is served wherever it comes in,
      after at most one bridge, by a relay that holds the tunnel. */
  lemma UpgradesReachHolders(decode: Decoding, visits: seq<Visit>, o: Machine, holders: set<Machine>)
    requires KeepsMarker(decode) && o in holders
    requires visits != [] && Bridged(decode, visits) && !Hand(decode, visits[|visits| - 1]).BridgeTo?
    requires IsSearch(visits[0].search) && First(Query(decode, visits[0].search), HOP_PARAM).None?
    requires forall i | 0 <= i < |visits| :: visits[i].owner == Some(o) && (visits[i].holdsTunnel <==> visits[i].at in holders)
    ensures Hand(decode, visits[|visits| - 1]).Held? && visits[|visits| - 1].at in holders
    ensures |visits| == if visits[0].at in holders then 1 else 2
    ensures |visits| == 2 ==> visits[1].at == o
  {
    BridgedAtMostOnce(decode, visits);
    UpgradesAreAnswered(decode, visits[0]);
    if |visits| == 2 { assert Passes(decode, visits[0], visits[1]); }
  }

  /** Such a way to be served exists from every relay. */
  lemma UpgradesAreServed(decode: Decoding, m: Machine, o: Machine, holders: set<Machine>, search: string) returns (visits: seq<Visit>)
    requires KeepsMarker(decode) && o in holders && IsSearch(search) && First(Query(decode, search), HOP_PARAM).None?
    ensures visits != [] && Bridged(decode, visits) && visits[0] == Visit(m, m in holders, Some(o), search)
    ensures Hand(decode, visits[|visits| - 1]).Held?
    ensures forall i | 0 <= i < |visits| :: visits[i].owner == Some(o) && (visits[i].holdsTunnel <==> visits[i].at in holders)
  {
    visits := [Visit(m, m in holders, Some(o), search)];
    if m !in holders { visits := visits + [Visit(o, true, Some(o), WithMarker(search))]; }
  }

  /** Two relays, each told that the other holds the tunnel. */
  function Flapping(a: Machine, b: Machine, i: nat, search: string): Visit {
    if i % 2 == 0 then Visit(a, false, Some(b), search) else Visit(b, false, Some(a), search)
  }

  lemma FlappingPasses(decode: Decoding, a: Machine, b: Machine, i: nat, search: string)
    requires KeepsMarker(decode) && a != b
    requires IsSearch(search) && First(Query(decode, search), HOP_PARAM) !in {None, Some("1")}
    ensures Passes(decode, Flapping(a, b, i, search), Flapping(a, b, i + 1, WithMarker(search)))
    ensures IsSearch(WithMarker(search)) && First(Query(decode, WithMarker(search)), HOP_PARAM) == First(Query(decode, search), HOP_PARAM)
  {
    MarkerIsAppended(decode, search);
    FirstOfJoin(Query(decode, search), [Param(HOP_PARAM, "1")], HOP_PARAM);
  }

  /** When the query did give the marker another value, any two that name each other hand the upgrade on without end. */
  lemma {:induction false} OtherMarkerValueLoops(decode: Decoding, a: Machine, b: Machine, n: nat, search: string) returns (visits: seq<Visit>)
    requires KeepsMarker(decode) && a != b
    requires IsSearch(search) && First(Query(decode, search), HOP_PARAM) !in {None, Some("1")}
    ensures |visits| == n + 1 && Bridged(decode, visits) && visits[0] == Flapping(a, b, 0, search)
    ensures IsSearch(visits[n].search) && First(Query(decode, visits[n].search), HOP_PARAM) == First(Query(decode, search), HOP_PARAM)
    ensures visits[n] == Flapping(a, b, n, visits[n].search)
  {
    if n == 0 {
      visits := [Flapping(a, b, 0, search)];
    } else {
      var before := OtherMarkerValueLoops(decode, a, b, n - 1, search);
      FlappingPasses(decode, a, b, n - 1, before[n - 1].search);
      visits := before + [Flapping(a, b, n, WithMarker(before[n - 1].search))];
      forall i | 0 <= i < n ensures Passes(decode, visits[i], visits[i + 1]) {
        if i < n - 1 { assert Passes(decode, before[i], before[i + 1]); }
      }
    }
  }
}
