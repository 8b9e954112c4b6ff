/** The organization hooks as they happen: each is several statements with the library's own insert or delete
    after or before it, and any other change can come in between (packages/auth/src/server.ts). */
module TeamLeaves {
  import opened Teams

  type OpId = nat

  /** A leave that has been counted and not yet deleted. */
  datatype Leave = Leave(team: Id, user: Id, org: Id)

  /** A team being deleted: its members are listed, those with no other team are known, their new team is known, or only
      the delete is left to do. */
  datatype Stage = Listed(users: set<Id>) | Judged(users: set<Id>) | Chosen(users: set<Id>, next: Id) | Ready

  datatype Deletion = Deletion(team: Id, org: Id, stage: Stage)

  /** A member who is not yet enrolled. */
  datatype Arrival = Inserted(member: Member) | Picked(member: Member, chosen: Id)

  /** The tables, and what is under way; a departure's rows are gone and its member is not. */
  datatype State = State(
    db: Db, leaves: map<OpId, Leave>, deletions: map<OpId, Deletion>,
    arrivals: map<OpId, Arrival>, departures: map<OpId, Member>)

  /** One statement. `chosen` is the team a query for the oldest one found. */
  datatype Step =
    | NewTeam(team: Id, info: Team)
    | AddToTeam(team: Id, user: Id)
    | Count(id: OpId, team: Id, user: Id)
    | Delete(id: OpId)
    | Select(id: OpId, team: Id)
    | Judge(id: OpId)
    | Choose(id: OpId, chosen: Id)
    | Rehome(id: OpId)
    | Cascade(id: OpId)
    | Insert(id: OpId, member: Member)
    | Pick(id: OpId, chosen: Id)
    | Enrol(id: OpId)
    | Strip(id: OpId, member: Member)
    | Drop(id: OpId)

  function Settled(db: Db): State {
    State(db, map[], map[], map[], map[])
  }

  function RowOf(l: Leave): Row {
    Row(l.team, l.user, l.org)
  }

  function OtherRows(rows: set<Row>, l: Leave): set<Row> {
    Elsewhere(rows, l.org, l.user, l.team)
  }

  function UsersOf(rows: set<Row>, t: Id): set<Id> {
    set r | r in rows && r.team == t :: r.user
  }

  function Without(rows: set<Row>, t: Id): set<Row> {
    set r | r in rows && r.team != t
  }

  predicate NoTeam(teams: map<Id, Team>, org: Id) {
    forall t | t in teams :: teams[t].org != org
  }

  predicate CanStep(st: State, e: Step) {
    match e
    case NewTeam(t, info) => Enabled(st.db, Event.AddTeam(t, info))
    case AddToTeam(t, user) => Enabled(st.db, Event.AddToTeam(t, user))
    case Count(id, t, user) => id !in st.leaves && Enabled(st.db, Event.LeaveTeam(t, user))
    case Delete(id) => id in st.leaves
    case Select(id, t) => id !in st.deletions && t in st.db.teams
    case Judge(id) => id in st.deletions && st.deletions[id].stage.Listed?
    case Choose(id, chosen) =>
      && id in st.deletions && st.deletions[id].stage.Judged?
      && var d := st.deletions[id];
      Oldest(Others(st.db.teams, d.team), d.org, chosen) || NoTeam(Others(st.db.teams, d.team), d.org)
    case Rehome(id) => id in st.deletions && st.deletions[id].stage.Chosen?
    case Cascade(id) => id in st.deletions && st.deletions[id].stage.Ready?
    case Insert(id, m) => id !in st.arrivals && m !in st.db.members
    case Pick(id, chosen) =>
      && id in st.arrivals && st.arrivals[id].Inserted?
      && (Oldest(st.db.teams, st.arrivals[id].member.org, chosen) || NoTeam(st.db.teams, st.arrivals[id].member.org))
    case Enrol(id) => id in st.arrivals && st.arrivals[id].Picked?
    case Strip(id, m) => id !in st.departures && m in st.db.members
    case Drop(id) => id in st.departures
  }

  /** An insert into a team that is gone fails, and with it the hook and what it is a hook of. */
  function After(st: State, e: Step): State
    requires CanStep(st, e)
  {
    match e
    case NewTeam(t, info) => st.(db := Next(st.db, Event.AddTeam(t, info)))
    case AddToTeam(t, user) => st.(db := Next(st.db, Event.AddToTeam(t, user)))
    case Count(id, t, user) =>
      var l := Leave(t, user, st.db.teams[t].org);
      if OtherRows(st.db.rows, l) == {} then st else st.(leaves := st.leaves[id := l])
    case Delete(id) =>
      st.(db := st.db.(rows := st.db.rows - {RowOf(st.leaves[id])}), leaves := st.leaves - {id})
    case Select(id, t) =>
      var users := UsersOf(st.db.rows, t);
      AtStage(st, id, Deletion(t, st.db.teams[t].org, if users == {} then Ready else Listed(users)))
    case Judge(id) =>
      var d := st.deletions[id];
      var orphans := set u | u in d.stage.users && Elsewhere(st.db.rows, d.org, u, d.team) == {};
      AtStage(st, id, d.(stage := if orphans == {} then Ready else Judged(orphans)))
    case Choose(id, chosen) =>
      var d := st.deletions[id];
      AtStage(st, id, d.(stage :=
        if TeamOf(Others(st.db.teams, d.team), d.org, chosen) then Chosen(d.stage.users, chosen) else Ready))
    case Rehome(id) =>
      var d := st.deletions[id];
      if d.stage.next !in st.db.teams then st.(deletions := st.deletions - {id})
      else AtStage(WithRows(st, set u | u in d.stage.users :: Row(d.stage.next, u, d.org)), id, d.(stage := Ready))
    case Cascade(id) =>
      var t := st.deletions[id].team;
      st.(db := st.db.(teams := Others(st.db.teams, t), rows := Without(st.db.rows, t)), deletions := st.deletions - {id})
    case Insert(id, m) =>
      st.(db := st.db.(members := st.db.members + {m}), arrivals := st.arrivals[id := Inserted(m)])
    case Pick(id, chosen) =>
      var m := st.arrivals[id].member;
      if TeamOf(st.db.teams, m.org, chosen) then st.(arrivals := st.arrivals[id := Picked(m, chosen)])
      else st.(arrivals := st.arrivals - {id})
    case Enrol(id) =>
      var a := st.arrivals[id];
      var more := if a.chosen in st.db.teams then {Row(a.chosen, a.member.user, a.member.org)} else {};
      WithRows(st, more).(arrivals := st.arrivals - {id})
    case Strip(id, m) =>
      st.(db := st.db.(rows := set r | r in st.db.rows && !(r.user == m.user && TeamOf(st.db.teams, m.org, r.team))),
          departures := st.departures[id := m])
    case Drop(id) =>
      st.(db := st.db.(members := st.db.members - {st.departures[id]}), departures := st.departures - {id})
  }

  function AtStage(st: State, id: OpId, d: Deletion): State {
    st.(deletions := st.deletions[id := d])
  }

  function WithRows(st: State, more: set<Row>): State {
    st.(db := st.db.(rows := st.db.rows + more))
  }

  datatype Run = Begin | Later(before: Run, step: Step)

  ghost predicate Leads(first: State, r: Run, last: State)
    decreases r
  {
    match r
    case Begin => last == first
    case Later(before, e) => exists mid :: Leads(first, before, mid) && CanStep(mid, e) && last == After(mid, e)
  }

  lemma OneStep(first: State, r: Run, st: State, e: Step) returns (r1: Run, st1: State)
    requires Leads(first, r, st) && CanStep(st, e)
    ensures r1 == Later(r, e) && st1 == After(st, e) && Leads(first, r1, st1)
  {
    r1, st1 := Later(r, e), After(st, e);
  }

  // ----------------------------------------------------------------- a hook on its own

  /** What a deletion does before its delete. */
  function Preparation(db: Db, t: Id, chosen: Id): Run
    requires t in db.teams
  {
    var listed := Later(Begin, Select(0, t));
    if UsersOf(db.rows, t) == {} then listed
    else if Orphans(db.rows, db.teams[t].org, t) == {} then Later(listed, Judge(0))
    else if !TeamOf(Others(db.teams, t), db.teams[t].org, chosen) then Later(Later(listed, Judge(0)), Choose(0, chosen))
    else Later(Later(Later(listed, Judge(0)), Choose(0, chosen)), Rehome(0))
  }

  /** The statements of one event, with nothing in between. */
  function Statements(db: Db, e: Event): Run
    requires Enabled(db, e)
  {
    match e
    case AddMember(m, chosen) =>
      var picked := Later(Later(Begin, Insert(0, m)), Pick(0, chosen));
      if TeamOf(db.teams, m.org, chosen) then Later(picked, Enrol(0)) else picked
    case RemoveMember(m) => Later(Later(Begin, Strip(0, m)), Drop(0))
    case AddTeam(t, info) => Later(Begin, NewTeam(t, info))
    case AddToTeam(t, user) => Later(Begin, Step.AddToTeam(t, user))
    case LeaveTeam(t, user) =>
      if Elsewhere(db.rows, db.teams[t].org, user, t) == {} then Later(Begin, Count(0, t, user))
      else Later(Later(Begin, Count(0, t, user)), Delete(0))
    case DeleteTeam(t, chosen) => Later(Preparation(db, t, chosen), Cascade(0))
  }

  lemma ListedOrphans(rows: set<Row>, org: Id, t: Id)
    ensures (set u | u in UsersOf(rows, t) && Elsewhere(rows, org, u, t) == {}) == Orphans(rows, org, t)
    ensures UsersOf(rows, t) == {} ==> Orphans(rows, org, t) == {}
  { }

  /** The deletion is ready, and its orphans have their new rows. */
  lemma PreparationRuns(db: Db, t: Id, chosen: Id) returns (last: State)
    requires Enabled(db, Event.DeleteTeam(t, chosen))
    ensures Leads(Settled(db), Preparation(db, t, chosen), last)
    ensures last == Settled(db.(rows := Rehomed(db, t, chosen))).(deletions := map[0 := Deletion(t, db.teams[t].org, Ready)])
  {
    var first, org := Settled(db), db.teams[t].org;
    ListedOrphans(db.rows, org, t);
    NobodyMoves(db.rows, chosen, org);
    var r: Run;
    r, last := OneStep(first, Begin, first, Select(0, t));
    if UsersOf(db.rows, t) != {} {
      r, last := OneStep(first, r, last, Judge(0));
      if Orphans(db.rows, org, t) != {} { last := RehomingRuns(db, r, last, t, chosen); }
    }
  }

  lemma NobodyMoves(rows: set<Row>, chosen: Id, org: Id)
    ensures rows + (set u | u in {} :: Row(chosen, u, org)) == rows
  { }

  lemma RehomingRuns(db: Db, r: Run, st: State, t: Id, chosen: Id) returns (last: State)
    requires Enabled(db, Event.DeleteTeam(t, chosen)) && Leads(Settled(db), r, st)
    requires st == Settled(db).(deletions := map[0 := Deletion(t, db.teams[t].org, Judged(Orphans(db.rows, db.teams[t].org, t)))])
    ensures last == Settled(db.(rows := Rehomed(db, t, chosen))).(deletions := map[0 := Deletion(t, db.teams[t].org, Ready)])
    ensures Leads(Settled(db),
      if TeamOf(Others(db.teams, t), db.teams[t].org, chosen) then Later(Later(r, Choose(0, chosen)), Rehome(0))
      else Later(r, Choose(0, chosen)), last)
  {
    var r1: Run;
    r1, last := OneStep(Settled(db), r, st, Choose(0, chosen));
    if TeamOf(Others(db.teams, t), db.teams[t].org, chosen) { r1, last := OneStep(Settled(db), r1, last, Rehome(0)); }
  }

  /** With nothing in between, the statements of an event make the change the event stands for, and leave nothing under way. */
  lemma AloneIsNext(db: Db, e: Event)
    requires Enabled(db, e)
    ensures Leads(Settled(db), Statements(db, e), Settled(Next(db, e)))
  {
    var first, last := Settled(db), Settled(db);
    var r := Begin;
    match e
    case AddMember(_, _) => MemberAlone(db, e);
    case RemoveMember(_) => MemberAlone(db, e);
    case AddTeam(t, info) => r, last := OneStep(first, r, last, NewTeam(t, info));
    case AddToTeam(t, user) => r, last := OneStep(first, r, last, Step.AddToTeam(t, user));
    case LeaveTeam(t, user) => LeaveAlone(db, t, user);
    case DeleteTeam(t, chosen) =>
      last := PreparationRuns(db, t, chosen);
      r, last := OneStep(first, Preparation(db, t, chosen), last, Cascade(0));
  }

  lemma LeaveAlone(db: Db, t: Id, user: Id)
    requires Enabled(db, Event.LeaveTeam(t, user))
    ensures Leads(Settled(db), Statements(db, Event.LeaveTeam(t, user)), Settled(Next(db, Event.LeaveTeam(t, user))))
  {
    var r, last := OneStep(Settled(db), Begin, Settled(db), Count(0, t, user));
    if Elsewhere(db.rows, db.teams[t].org, user, t) != {} { r, last := OneStep(Settled(db), r, last, Delete(0)); }
  }

  lemma MemberAlone(db: Db, e: Event)
    requires Enabled(db, e) && (e.AddMember? || e.RemoveMember?)
    ensures Leads(Settled(db), Statements(db, e), Settled(Next(db, e)))
  {
    var first, last := Settled(db), Settled(db);
    var r := Begin;
    match e
    case AddMember(m, chosen) =>
      r, last := OneStep(first, r, last, Insert(0, m));
      r, last := OneStep(first, r, last, Pick(0, chosen));
      if TeamOf(db.teams, m.org, chosen) { r, last := OneStep(first, r, last, Enrol(0)); }
    case RemoveMember(m) =>
      r, last := OneStep(first, r, last, Strip(0, m));
      r, last := OneStep(first, r, last, Drop(0));
  }

  // ------------------------------------------------------ which statement takes a last team

  /** Without the row `gone`, a member who has a team has none exactly when that was its only row. */
  lemma OnlyRow(rows: set<Row>, after: set<Row>, m: Member, t: Id)
    requires Housed(rows, m) && forall u :: Row(u, m.user, m.org) in after <==> Row(u, m.user, m.org) in rows && u != t
    ensures !Housed(after, m) <==> Elsewhere(rows, m.org, m.user, t) == {}
  {
    if Elsewhere(rows, m.org, m.user, t) != {} {
      var r :| r in Elsewhere(rows, m.org, m.user, t);
      assert r == Row(r.team, m.user, m.org) && r in after;
    } else {
      forall u ensures Row(u, m.user, m.org) !in after {
        assert Row(u, m.user, m.org) !in Elsewhere(rows, m.org, m.user, t);
      }
    }
  }

  /** Whatever has happened since its count, the delete of a leave takes away a member's last team exactly when the member is
      the one who leaves and has no row in another team of the organization at that moment. */
  lemma DeleteOrphansExactly(st: State, id: OpId, m: Member)
    requires CanStep(st, Delete(id)) && m in st.db.members && Housed(st.db.rows, m)
    ensures !Housed(After(st, Delete(id)).db.rows, m) <==>
      m == Member(st.leaves[id].user, st.leaves[id].org) && OtherRows(st.db.rows, st.leaves[id]) == {}
  {
    var l, after := st.leaves[id], After(st, Delete(id)).db.rows;
    if m == Member(l.user, l.org) {
      OnlyRow(st.db.rows, after, m, l.team);
    } else {
      var t :| Row(t, m.user, m.org) in st.db.rows;
      assert Row(t, m.user, m.org) in after;
    }
  }

  /** Whatever has happened since its hook looked, the delete of a team takes away a member's last team exactly when the member
      has no row in another team of the organization at that moment. */
  lemma CascadeOrphansExactly(st: State, id: OpId, m: Member)
    requires CanStep(st, Cascade(id)) && m in st.db.members && Housed(st.db.rows, m)
    ensures !Housed(After(st, Cascade(id)).db.rows, m) <==> Elsewhere(st.db.rows, m.org, m.user, st.deletions[id].team) == {}
  {
    OnlyRow(st.db.rows, After(st, Cascade(id)).db.rows, m, st.deletions[id].team);
  }

  /** A newcomer is left without a team exactly when the team picked is gone before the row is written. */
  lemma EnrolHousesExactly(st: State, id: OpId)
    requires CanStep(st, Enrol(id)) && !Housed(st.db.rows, st.arrivals[id].member)
    ensures Housed(After(st, Enrol(id)).db.rows, st.arrivals[id].member) <==> st.arrivals[id].chosen in st.db.teams
  {
    var a := st.arrivals[id];
    assert a.chosen in st.db.teams ==> Row(a.chosen, a.member.user, a.member.org) in After(st, Enrol(id)).db.rows;
  }

  // ------------------------------------------------------------------ runs that orphan

  /** A member of exactly two teams. */
  predicate InBoth(db: Db, m: Member, a: Id, b: Id) {
    m in db.members && a != b && a in db.teams && b in db.teams && Row(a, m.user, m.org) in db.rows
    && Row(b, m.user, m.org) in db.rows && forall r | r in db.rows && r.user == m.user && r.org == m.org :: r.team in {a, b}
  }

  lemma BothAreElsewhere(db: Db, m: Member, a: Id, b: Id)
    requires Inv(db) && InBoth(db, m, a, b)
    ensures db.teams[a].org == m.org && db.teams[b].org == m.org
    ensures Row(b, m.user, m.org) in Elsewhere(db.rows, m.org, m.user, a)
    ensures Row(a, m.user, m.org) in Elsewhere(db.rows, m.org, m.user, b)
  {
    assert TeamOf(db.teams, m.org, a) && TeamOf(db.teams, m.org, b);
  }

  /** Two leaves counted before either is deleted leave every member of exactly two teams without one. */
  lemma TwoLeavesAtOnceOrphan(db: Db, m: Member, a: Id, b: Id) returns (r: Run, last: State)
    requires Inv(db) && InBoth(db, m, a, b)
    ensures r == Later(Later(Later(Later(Begin, Count(0, a, m.user)), Count(1, b, m.user)), Delete(0)), Delete(1))
    ensures Leads(Settled(db), r, last)
    ensures m in last.db.members && !Housed(last.db.rows, m) && !Inv(last.db)
  {
    BothAreElsewhere(db, m, a, b);
    r, last := OneStep(Settled(db), Begin, Settled(db), Count(0, a, m.user));
    r, last := OneStep(Settled(db), r, last, Count(1, b, m.user));
    r, last := OneStep(Settled(db), r, last, Delete(0));
    r, last := OneStep(Settled(db), r, last, Delete(1));
  }

  /** The user's leave of the other team, complete, while a team of two is being deleted. */
  lemma LeaveRuns(first: State, r: Run, st: State, m: Member, a: Id, b: Id) returns (r1: Run, last: State)
    requires Leads(first, r, st) && st.leaves == map[] && Inv(st.db) && InBoth(st.db, m, a, b)
    ensures r1 == Later(Later(r, Count(0, b, m.user)), Delete(0)) && Leads(first, r1, last)
    ensures last == st.(db := st.db.(rows := st.db.rows - {Row(b, m.user, m.org)}))
  {
    BothAreElsewhere(st.db, m, a, b);
    r1, last := OneStep(first, r, st, Count(0, b, m.user));
    r1, last := OneStep(first, r1, last, Delete(0));
  }

  /** The rest of a deletion whose orphans are known: nobody else gets a row. */
  lemma DeletionFinishes(first: State, r: Run, st: State, id: OpId, chosen: Id, m: Member) returns (r1: Run, last: State)
    requires Leads(first, r, st) && id in st.deletions && (st.deletions[id].stage.Judged? || st.deletions[id].stage.Ready?)
    requires Oldest(Others(st.db.teams, st.deletions[id].team), st.deletions[id].org, chosen)
    requires m in st.db.members && (st.deletions[id].stage.Judged? ==> m.user !in st.deletions[id].stage.users)
    requires forall u | Row(u, m.user, m.org) in st.db.rows :: u == st.deletions[id].team
    ensures Leads(first, r1, last) && last.db.teams == Others(st.db.teams, st.deletions[id].team)
    ensures m in last.db.members && !Housed(last.db.rows, m)
  {
    r1, last := r, st;
    if st.deletions[id].stage.Judged? {
      r1, last := OneStep(first, r1, last, Choose(id, chosen));
      r1, last := OneStep(first, r1, last, Rehome(id));
    }
    r1, last := OneStep(first, r1, last, Cascade(id));
  }

  /** No two leaves overlap and other teams remain, and yet: a member of exactly two teams who leaves the second after the
      deletion of the first has looked for other teams is left without one. */
  lemma LeaveDuringDeletionOrphans(db: Db, m: Member, a: Id, b: Id, chosen: Id) returns (r: Run, last: State)
    requires Inv(db) && InBoth(db, m, a, b) && Oldest(Others(db.teams, a), m.org, chosen)
    ensures Leads(Settled(db), r, last) && last.db.teams == Others(db.teams, a) && b in last.db.teams
    ensures m in last.db.members && !Housed(last.db.rows, m) && !Inv(last.db)
  {
    BothAreElsewhere(db, m, a, b);
    assert m.user in UsersOf(db.rows, a);
    r, last := OneStep(Settled(db), Begin, Settled(db), Select(0, a));
    r, last := OneStep(Settled(db), r, last, Judge(0));
    r, last := LeaveRuns(Settled(db), r, last, m, a, b);
    r, last := DeletionFinishes(Settled(db), r, last, 0, chosen, m);
  }

  // -------------------------------------------------------------- when nothing overlaps

  predicate Leaving(leaves: map<OpId, Leave>, user: Id, org: Id) {
    exists id | id in leaves :: leaves[id].user == user && leaves[id].org == org
  }

  predicate Deleting(deletions: map<OpId, Deletion>, org: Id) {
    exists id | id in deletions :: deletions[id].org == org
  }

  /** A removal that begins while another one of the same user in the same organization is under way: two leaves; a leave and
      the removal of the member; a leave and the deletion of a team the user is in. Or two deletions in one organization, or
      the deletion of the team a newcomer is given. */
  predicate Overlaps(st: State, e: Step)
    requires CanStep(st, e)
  {
    match e
    case Count(_, t, user) =>
      var org := st.db.teams[t].org;
      || Leaving(st.leaves, user, org)
      || exists id | id in st.deletions :: st.deletions[id].org == org && Row(st.deletions[id].team, user, org) in st.db.rows
    case Strip(_, m) => Leaving(st.leaves, m.user, m.org)
    case Select(_, t) =>
      var org := st.db.teams[t].org;
      || Deleting(st.deletions, org)
      || (exists id | id in st.leaves :: st.leaves[id].org == org && Row(t, st.leaves[id].user, org) in st.db.rows)
      || (exists id | id in st.arrivals :: st.arrivals[id].Picked? && st.arrivals[id].chosen == t)
    case Pick(_, chosen) => exists id | id in st.deletions :: st.deletions[id].team == chosen
    case _ => false
  }

  /** Where the hooks rely on the organization's having a team: adding to it, or keeping another one. */
  predicate SomeTeam(st: State, e: Step)
    requires CanStep(st, e)
  {
    match e
    case Select(_, t) => !NoTeam(Others(st.db.teams, t), st.db.teams[t].org)
    case Pick(id, _) => !NoTeam(st.db.teams, st.arrivals[id].member.org)
    case _ => true
  }

  predicate Orderly(st: State, e: Step)
    requires CanStep(st, e)
  {
    !Overlaps(st, e) && SomeTeam(st, e)
  }

  /** Coming or going. */
  predicate InTransit(st: State, m: Member) {
    (exists id | id in st.arrivals :: st.arrivals[id].member == m) || (exists id | id in st.departures :: st.departures[id] == m)
  }

  function Unhoused(s: Stage): set<Id> {
    if s.Ready? then {} else s.users
  }

  /** A row in a third team. */
  ghost predicate Spare(rows: set<Row>, l: Leave, t: Id) {
    exists u :: u != l.team && u != t && Row(u, l.user, l.org) in rows
  }

  /** The team is there with another one to go to, and each member has a row elsewhere or is to be given one. */
  ghost predicate DeletionSound(st: State, d: Deletion) {
    && TeamOf(st.db.teams, d.org, d.team)
    && (d.stage.Chosen? ==> TeamOf(Others(st.db.teams, d.team), d.org, d.stage.next))
    && (d.stage.Listed? || d.stage.Judged? ==> !NoTeam(Others(st.db.teams, d.team), d.org))
    && forall m | m in st.db.members && m.org == d.org && !InTransit(st, m) ::
         Elsewhere(st.db.rows, d.org, m.user, d.team) != {} || m.user in Unhoused(d.stage)
  }

  ghost predicate DeletionsSound(st: State) {
    && (forall id | id in st.deletions :: DeletionSound(st, st.deletions[id]))
    && (forall i, j | i in st.deletions && j in st.deletions && i != j :: st.deletions[i].org != st.deletions[j].org)
  }

  /** Every leave under way leaves the user a row, in a team that is not being deleted. */
  ghost predicate LeavesSound(rows: set<Row>, leaves: map<OpId, Leave>, deletions: map<OpId, Deletion>) {
    && (forall id | id in leaves :: Spare(rows, leaves[id], leaves[id].team))
    && (forall id, d | id in leaves && d in deletions && deletions[d].org == leaves[id].org ::
          Spare(rows, leaves[id], deletions[d].team))
    && (forall i, j | i in leaves && j in leaves && i != j :: leaves[i].user != leaves[j].user || leaves[i].org != leaves[j].org)
  }

  /** A picked team is there and stays. */
  ghost predicate ArrivalsSound(st: State) {
    forall id | id in st.arrivals && st.arrivals[id].Picked? ::
      && TeamOf(st.db.teams, st.arrivals[id].member.org, st.arrivals[id].chosen)
      && forall d | d in st.deletions :: st.deletions[d].team != st.arrivals[id].chosen
  }

  /** Every member who is not coming or going has a team, and what is under way will not change that. */
  ghost predicate Safe(st: State) {
    && RowsFit(st.db.teams, st.db.rows)
    && (forall m | m in st.db.members && !InTransit(st, m) :: Housed(st.db.rows, m))
    && DeletionsSound(st) && LeavesSound(st.db.rows, st.leaves, st.deletions) && ArrivalsSound(st)
  }

  lemma HasElsewhere(rows: set<Row>, org: Id, user: Id, t: Id, u: Id)
    requires Row(u, user, org) in rows && u != t
    ensures Elsewhere(rows, org, user, t) != {}
  {
    assert Row(u, user, org) in Elsewhere(rows, org, user, t);
  }

  lemma ElsewhereHas(rows: set<Row>, org: Id, user: Id, t: Id) returns (u: Id)
    requires Elsewhere(rows, org, user, t) != {}
    ensures Row(u, user, org) in rows && u != t
  {
    var r :| r in Elsewhere(rows, org, user, t);
    u := r.team;
    assert r == Row(u, user, org);
  }

  /** The rows of one member decide what is said of the member. */
  lemma SameRowsElsewhere(rows: set<Row>, after: set<Row>, org: Id, user: Id, t: Id)
    requires Elsewhere(rows, org, user, t) != {} && forall u | u != t && Row(u, user, org) in rows :: Row(u, user, org) in after
    ensures Elsewhere(after, org, user, t) != {}
  {
    var u := ElsewhereHas(rows, org, user, t);
    HasElsewhere(after, org, user, t, u);
  }

  // -------------------------------------------------------------------- each statement

  lemma MoreRowsKeep(st: State, more: set<Row>)
    requires Safe(st) && RowsFit(st.db.teams, more)
    ensures Safe(WithRows(st, more))
  {
    var after := WithRows(st, more);
    forall m | m in after.db.members && !InTransit(after, m) ensures Housed(after.db.rows, m) {
      assert !InTransit(st, m);
      StillHoused(st.db.rows, after.db.rows, m);
    }
    forall id | id in after.deletions ensures DeletionSound(after, after.deletions[id]) {
      MoreRowsKeepDeletion(st, more, st.deletions[id]);
    }
  }

  lemma MoreRowsKeepDeletion(st: State, more: set<Row>, d: Deletion)
    requires DeletionSound(st, d)
    ensures DeletionSound(WithRows(st, more), d)
  {
    var after := WithRows(st, more);
    forall m | m in after.db.members && m.org == d.org && !InTransit(after, m)
      ensures Elsewhere(after.db.rows, d.org, m.user, d.team) != {} || m.user in Unhoused(d.stage)
    {
      assert !InTransit(st, m);
      if Elsewhere(st.db.rows, d.org, m.user, d.team) != {} {
        SameRowsElsewhere(st.db.rows, after.db.rows, d.org, m.user, d.team);
      }
    }
  }

  lemma NewTeamKeeps(st: State, t: Id, info: Team)
    requires Safe(st) && CanStep(st, NewTeam(t, info))
    ensures Safe(After(st, NewTeam(t, info)))
  {
    var after := After(st, NewTeam(t, info));
    assert forall m :: InTransit(after, m) == InTransit(st, m);
    forall id | id in after.deletions ensures DeletionSound(after, after.deletions[id]) {
      var d := st.deletions[id];
      assert DeletionSound(st, d) && d.team != t;
      if u :| u in Others(st.db.teams, d.team) && st.db.teams[u].org == d.org {
        assert u in Others(after.db.teams, d.team) && after.db.teams[u].org == d.org;
      }
    }
  }

  lemma CountKeeps(st: State, id: OpId, t: Id, user: Id)
    requires Safe(st) && CanStep(st, Count(id, t, user)) && Orderly(st, Count(id, t, user))
    ensures Safe(After(st, Count(id, t, user)))
  {
    var after := After(st, Count(id, t, user));
    var l := Leave(t, user, st.db.teams[t].org);
    if OtherRows(st.db.rows, l) != {} {
      var u := ElsewhereHas(st.db.rows, l.org, user, t);
      assert Spare(st.db.rows, l, t);
      forall d | d in st.deletions && st.deletions[d].org == l.org ensures Spare(st.db.rows, l, st.deletions[d].team) {
        assert u != st.deletions[d].team;
      }
      SameButLeaves(st, after);
    }
  }

  lemma SameButLeaves(st: State, after: State)
    requires Safe(st) && after == st.(leaves := after.leaves) && LeavesSound(st.db.rows, after.leaves, st.deletions)
    ensures Safe(after)
  {
    assert forall m :: InTransit(after, m) == InTransit(st, m);
    forall id | id in after.deletions ensures DeletionSound(after, after.deletions[id]) {
      assert DeletionSound(st, st.deletions[id]);
    }
  }

  lemma DeleteKeepsDeletion(st: State, id: OpId, k: OpId)
    requires Safe(st) && id in st.leaves && k in st.deletions
    ensures DeletionSound(After(st, Delete(id)), st.deletions[k])
  {
    var after, l, d := After(st, Delete(id)), st.leaves[id], st.deletions[k];
    assert DeletionSound(st, d);
    forall m | m in after.db.members && m.org == d.org && !InTransit(after, m)
      ensures Elsewhere(after.db.rows, d.org, m.user, d.team) != {} || m.user in Unhoused(d.stage)
    {
      assert !InTransit(st, m);
      if m.user == l.user && d.org == l.org {
        assert Spare(st.db.rows, l, d.team);
        var u :| u != l.team && u != d.team && Row(u, l.user, l.org) in st.db.rows;
        HasElsewhere(after.db.rows, d.org, m.user, d.team, u);
      } else if Elsewhere(st.db.rows, d.org, m.user, d.team) != {} {
        SameRowsElsewhere(st.db.rows, after.db.rows, d.org, m.user, d.team);
      }
    }
  }

  lemma SpareKept(rows: set<Row>, after: set<Row>, l: Leave, t: Id)
    requires Spare(rows, l, t)
    requires forall u | u != t && u != l.team && Row(u, l.user, l.org) in rows :: Row(u, l.user, l.org) in after
    ensures Spare(after, l, t)
  {
    var u :| u != l.team && u != t && Row(u, l.user, l.org) in rows;
    assert Row(u, l.user, l.org) in after;
  }

  lemma DeleteKeepsLeaves(st: State, id: OpId)
    requires LeavesSound(st.db.rows, st.leaves, st.deletions) && id in st.leaves
    ensures LeavesSound(st.db.rows - {RowOf(st.leaves[id])}, st.leaves - {id}, st.deletions)
  {
    var after := st.db.rows - {RowOf(st.leaves[id])};
    forall j, t | j in st.leaves && j != id && Spare(st.db.rows, st.leaves[j], t) ensures Spare(after, st.leaves[j], t) {
      SpareKept(st.db.rows, after, st.leaves[j], t);
    }
  }

  lemma DeleteKeeps(st: State, id: OpId)
    requires Safe(st) && id in st.leaves
    ensures Safe(After(st, Delete(id)))
  {
    var after := After(st, Delete(id));
    DeleteKeepsLeaves(st, id);
    forall m | m in after.db.members && !InTransit(after, m) ensures Housed(after.db.rows, m) {
      assert !InTransit(st, m);
      DeleteOrphansExactly(st, id, m);
      SpareIsOther(st.db.rows, st.leaves[id]);
    }
    forall k | k in after.deletions ensures DeletionSound(after, after.deletions[k]) { DeleteKeepsDeletion(st, id, k); }
  }

  lemma SpareIsOther(rows: set<Row>, l: Leave)
    requires Spare(rows, l, l.team)
    ensures OtherRows(rows, l) != {}
  {
    var u :| u != l.team && Row(u, l.user, l.org) in rows;
    HasElsewhere(rows, l.org, l.user, l.team, u);
  }

  /** Right after the members are listed, each has a row elsewhere or is on the list. */
  lemma ListedIsSound(st: State, t: Id, m: Member)
    requires Safe(st) && t in st.db.teams && m in st.db.members && m.org == st.db.teams[t].org && !InTransit(st, m)
    ensures Elsewhere(st.db.rows, m.org, m.user, t) != {} || m.user in UsersOf(st.db.rows, t)
  {
    var u :| Row(u, m.user, m.org) in st.db.rows;
    if u != t { HasElsewhere(st.db.rows, m.org, m.user, t, u); } else { assert Row(t, m.user, m.org).user == m.user; }
  }

  /** Who leaves now is in another team than the one to go. */
  lemma SpareFromSelected(rows: set<Row>, l: Leave, t: Id)
    requires Spare(rows, l, l.team) && Row(t, l.user, l.org) !in rows
    ensures Spare(rows, l, t)
  {
    var u :| u != l.team && Row(u, l.user, l.org) in rows;
  }

  lemma SelectKeepsLeaves(st: State, id: OpId, t: Id)
    requires Safe(st) && CanStep(st, Select(id, t)) && Orderly(st, Select(id, t))
    ensures LeavesSound(st.db.rows, st.leaves, After(st, Select(id, t)).deletions)
  {
    forall k | k in st.leaves && st.leaves[k].org == st.db.teams[t].org ensures Spare(st.db.rows, st.leaves[k], t) {
      SpareFromSelected(st.db.rows, st.leaves[k], t);
    }
  }

  lemma SelectKeepsDeletions(st: State, id: OpId, t: Id)
    requires Safe(st) && CanStep(st, Select(id, t)) && Orderly(st, Select(id, t))
    ensures DeletionsSound(After(st, Select(id, t)))
  {
    var after := After(st, Select(id, t));
    assert forall m :: InTransit(after, m) == InTransit(st, m);
    forall m | m in st.db.members && m.org == st.db.teams[t].org && !InTransit(st, m)
      ensures Elsewhere(st.db.rows, m.org, m.user, t) != {} || m.user in UsersOf(st.db.rows, t)
    { ListedIsSound(st, t, m); }
    forall k | k in st.deletions ensures DeletionSound(after, st.deletions[k]) { assert DeletionSound(st, st.deletions[k]); }
  }

  lemma SelectKeeps(st: State, id: OpId, t: Id)
    requires Safe(st) && CanStep(st, Select(id, t)) && Orderly(st, Select(id, t))
    ensures Safe(After(st, Select(id, t)))
  {
    SelectKeepsLeaves(st, id, t);
    SelectKeepsDeletions(st, id, t);
    assert forall m :: InTransit(After(st, Select(id, t)), m) == InTransit(st, m);
  }

  /** A later stage of the same deletion. */
  lemma StageKeeps(st: State, id: OpId, d: Deletion)
    requires Safe(st) && id in st.deletions && d.team == st.deletions[id].team && d.org == st.deletions[id].org
    requires DeletionSound(st, d)
    ensures Safe(AtStage(st, id, d))
  {
    var after := AtStage(st, id, d);
    assert forall m :: InTransit(after, m) == InTransit(st, m);
    forall k | k in after.deletions ensures DeletionSound(after, after.deletions[k]) {
      if k != id { assert DeletionSound(st, st.deletions[k]); }
    }
  }

  lemma JudgeKeeps(st: State, id: OpId)
    requires Safe(st) && CanStep(st, Judge(id))
    ensures Safe(After(st, Judge(id)))
  {
    assert DeletionSound(st, st.deletions[id]);
    StageKeeps(st, id, After(st, Judge(id)).deletions[id]);
  }

  lemma ChooseKeeps(st: State, id: OpId, chosen: Id)
    requires Safe(st) && CanStep(st, Choose(id, chosen))
    ensures Safe(After(st, Choose(id, chosen)))
  {
    assert DeletionSound(st, st.deletions[id]);
    StageKeeps(st, id, After(st, Choose(id, chosen)).deletions[id]);
  }

  lemma RehomeKeeps(st: State, id: OpId)
    requires Safe(st) && CanStep(st, Rehome(id))
    ensures Safe(After(st, Rehome(id)))
  {
    var d := st.deletions[id];
    var more := set u | u in d.stage.users :: Row(d.stage.next, u, d.org);
    assert DeletionSound(st, d);
    MoreRowsKeep(st, more);
    var mid := WithRows(st, more);
    assert DeletionSound(mid, d);
    forall m | m in mid.db.members && m.org == d.org && !InTransit(mid, m) ensures Elsewhere(mid.db.rows, d.org, m.user, d.team) != {} {
      if m.user in d.stage.users {
        assert Row(d.stage.next, m.user, d.org) in more;
        HasElsewhere(mid.db.rows, d.org, m.user, d.team, d.stage.next);
      }
    }
    StageKeeps(mid, id, d.(stage := Ready));
  }

  lemma CascadeKeepsDeletion(st: State, id: OpId, k: OpId)
    requires Safe(st) && CanStep(st, Cascade(id)) && k in st.deletions && k != id
    ensures DeletionSound(After(st, Cascade(id)), st.deletions[k])
  {
    var after, d, t := After(st, Cascade(id)), st.deletions[k], st.deletions[id].team;
    assert DeletionSound(st, d) && DeletionSound(st, st.deletions[id]);
    if u :| u in Others(st.db.teams, d.team) && st.db.teams[u].org == d.org {
      assert u in Others(after.db.teams, d.team) && after.db.teams[u].org == d.org;
    }
    forall m | m in after.db.members && m.org == d.org && !InTransit(after, m)
      ensures Elsewhere(after.db.rows, d.org, m.user, d.team) != {} || m.user in Unhoused(d.stage)
    {
      assert !InTransit(st, m);
      if Elsewhere(st.db.rows, d.org, m.user, d.team) != {} {
        var u := ElsewhereHas(st.db.rows, d.org, m.user, d.team);
        assert TeamOf(st.db.teams, d.org, u);
        HasElsewhere(after.db.rows, d.org, m.user, d.team, u);
      }
    }
  }

  lemma CascadeKeepsLeave(st: State, id: OpId, k: OpId, t: Id)
    requires Safe(st) && CanStep(st, Cascade(id)) && k in st.leaves && Spare(st.db.rows, st.leaves[k], t)
    requires st.leaves[k].org != st.deletions[id].org
    ensures Spare(Without(st.db.rows, st.deletions[id].team), st.leaves[k], t)
  {
    var l := st.leaves[k];
    var u :| u != l.team && u != t && Row(u, l.user, l.org) in st.db.rows;
    assert TeamOf(st.db.teams, l.org, u) && DeletionSound(st, st.deletions[id]);
    assert Row(u, l.user, l.org) in Without(st.db.rows, st.deletions[id].team);
  }

  lemma CascadeKeepsLeaves(st: State, id: OpId)
    requires Safe(st) && CanStep(st, Cascade(id))
    ensures LeavesSound(Without(st.db.rows, st.deletions[id].team), st.leaves, st.deletions - {id})
  {
    var t := st.deletions[id].team;
    var rows := Without(st.db.rows, t);
    forall k | k in st.leaves ensures Spare(rows, st.leaves[k], st.leaves[k].team) {
      var l := st.leaves[k];
      if l.org == st.deletions[id].org {
        assert Spare(st.db.rows, l, t);
        var u :| u != l.team && u != t && Row(u, l.user, l.org) in st.db.rows;
        assert Row(u, l.user, l.org) in rows;
      } else {
        CascadeKeepsLeave(st, id, k, l.team);
      }
    }
    forall k, d | k in st.leaves && d in st.deletions - {id} && st.deletions[d].org == st.leaves[k].org
      ensures Spare(rows, st.leaves[k], st.deletions[d].team)
    {
      CascadeKeepsLeave(st, id, k, st.deletions[d].team);
    }
  }

  lemma CascadeKeeps(st: State, id: OpId)
    requires Safe(st) && CanStep(st, Cascade(id))
    ensures Safe(After(st, Cascade(id)))
  {
    var after, d := After(st, Cascade(id)), st.deletions[id];
    assert DeletionSound(st, d);
    CascadeKeepsLeaves(st, id);
    forall m | m in after.db.members && !InTransit(after, m) ensures Housed(after.db.rows, m) {
      assert !InTransit(st, m);
      CascadeOrphansExactly(st, id, m);
      if m.org != d.org {
        var u :| Row(u, m.user, m.org) in st.db.rows;
        assert TeamOf(st.db.teams, m.org, u);
        HasElsewhere(st.db.rows, m.org, m.user, d.team, u);
      }
    }
    forall k | k in after.deletions ensures DeletionSound(after, after.deletions[k]) { CascadeKeepsDeletion(st, id, k); }
  }

  /** Members may come to be in transit, or go; nothing else changes. */
  lemma FewerSettledKeep(st: State, after: State)
    requires Safe(st) && after.db.teams == st.db.teams && after.db.rows == st.db.rows
    requires after.leaves == st.leaves && after.deletions == st.deletions && ArrivalsSound(after)
    requires forall m | m in after.db.members && !InTransit(after, m) :: m in st.db.members && !InTransit(st, m)
    ensures Safe(after)
  {
    forall k | k in after.deletions ensures DeletionSound(after, after.deletions[k]) { assert DeletionSound(st, st.deletions[k]); }
  }

  lemma InsertKeeps(st: State, id: OpId, m: Member)
    requires Safe(st) && CanStep(st, Insert(id, m))
    ensures Safe(After(st, Insert(id, m)))
  {
    var after := After(st, Insert(id, m));
    assert after.arrivals[id].member == m;
    forall x | !InTransit(after, x) ensures !InTransit(st, x) {
      forall k | k in st.arrivals ensures st.arrivals[k].member != x { assert after.arrivals[k] == st.arrivals[k]; }
    }
    FewerSettledKeep(st, after);
  }

  lemma PickKeeps(st: State, id: OpId, chosen: Id)
    requires Safe(st) && CanStep(st, Pick(id, chosen)) && Orderly(st, Pick(id, chosen))
    ensures Safe(After(st, Pick(id, chosen)))
  {
    var after := After(st, Pick(id, chosen));
    forall x | !InTransit(after, x) ensures !InTransit(st, x) {
      forall k | k in st.arrivals ensures st.arrivals[k].member != x { assert after.arrivals[k].member == st.arrivals[k].member; }
    }
    FewerSettledKeep(st, after);
  }

  lemma StripKeepsRows(st: State, id: OpId, m: Member, r: Row)
    requires Safe(st) && CanStep(st, Strip(id, m))
    ensures r in After(st, Strip(id, m)).db.rows <==> r in st.db.rows && !(r.user == m.user && r.org == m.org)
  {
    if r in st.db.rows { assert TeamOf(st.db.teams, r.org, r.team); }
  }

  lemma StripKeeps(st: State, id: OpId, m: Member)
    requires Safe(st) && CanStep(st, Strip(id, m)) && Orderly(st, Strip(id, m))
    ensures Safe(After(st, Strip(id, m)))
  {
    var after := After(st, Strip(id, m));
    forall r ensures r in after.db.rows <==> r in st.db.rows && !(r.user == m.user && r.org == m.org) { StripKeepsRows(st, id, m, r); }
    assert after.departures[id] == m;
    forall x | !InTransit(after, x) ensures x != m && !InTransit(st, x) {
      forall k | k in st.departures ensures st.departures[k] != x { assert after.departures[k] == st.departures[k]; }
    }
    forall x | x in after.db.members && !InTransit(after, x) ensures Housed(after.db.rows, x) {
      var u :| Row(u, x.user, x.org) in st.db.rows;
      assert Row(u, x.user, x.org) in after.db.rows;
    }
    forall k | k in after.deletions ensures DeletionSound(after, after.deletions[k]) { StripKeepsDeletion(st, after, m, st.deletions[k]); }
    forall k, t | k in st.leaves && Spare(st.db.rows, st.leaves[k], t) ensures Spare(after.db.rows, st.leaves[k], t) {
      SpareKept(st.db.rows, after.db.rows, st.leaves[k], t);
    }
  }

  lemma StripKeepsDeletion(st: State, after: State, m: Member, d: Deletion)
    requires DeletionSound(st, d) && after.db.teams == st.db.teams && after.db.members == st.db.members
    requires forall r | r in st.db.rows && !(r.user == m.user && r.org == m.org) :: r in after.db.rows
    requires forall x | !InTransit(after, x) :: x != m && !InTransit(st, x)
    ensures DeletionSound(after, d)
  {
    forall x | x in after.db.members && x.org == d.org && !InTransit(after, x)
      ensures Elsewhere(after.db.rows, d.org, x.user, d.team) != {} || x.user in Unhoused(d.stage)
    {
      if Elsewhere(st.db.rows, d.org, x.user, d.team) != {} {
        SameRowsElsewhere(st.db.rows, after.db.rows, d.org, x.user, d.team);
      }
    }
  }

  lemma DropKeeps(st: State, id: OpId)
    requires Safe(st) && CanStep(st, Drop(id))
    ensures Safe(After(st, Drop(id)))
  {
    var after := After(st, Drop(id));
    forall x | x in after.db.members && !InTransit(after, x) ensures !InTransit(st, x) {
      forall k | k in st.departures ensures st.departures[k] != x {
        if k != id { assert after.departures[k] == st.departures[k]; }
      }
    }
    FewerSettledKeep(st, after);
  }

  lemma EnrolKeeps(st: State, id: OpId)
    requires Safe(st) && CanStep(st, Enrol(id))
    ensures Safe(After(st, Enrol(id)))
  {
    var a := st.arrivals[id];
    var row := Row(a.chosen, a.member.user, a.member.org);
    MoreRowsKeep(st, {row});
    var mid, after := WithRows(st, {row}), After(st, Enrol(id));
    forall x | x != a.member && !InTransit(after, x) ensures !InTransit(mid, x) {
      forall k | k in mid.arrivals ensures mid.arrivals[k].member != x {
        if k != id { assert after.arrivals[k] == mid.arrivals[k]; }
      }
    }
    assert row in after.db.rows;
    forall k | k in after.deletions ensures DeletionSound(after, after.deletions[k]) {
      var d := mid.deletions[k];
      assert DeletionSound(mid, d);
      if d.org == a.member.org { HasElsewhere(after.db.rows, d.org, a.member.user, d.team, a.chosen); }
    }
  }

  lemma StepStaysSafe(st: State, e: Step)
    requires Safe(st) && CanStep(st, e) && Orderly(st, e)
    ensures Safe(After(st, e))
  {
    match e
    case NewTeam(t, info) => NewTeamKeeps(st, t, info);
    case AddToTeam(t, user) => MoreRowsKeep(st, {Row(t, user, st.db.teams[t].org)});
    case Count(id, t, user) => CountKeeps(st, id, t, user);
    case Delete(id) => DeleteKeeps(st, id);
    case Select(id, t) => SelectKeeps(st, id, t);
    case Judge(id) => JudgeKeeps(st, id);
    case Choose(id, chosen) => ChooseKeeps(st, id, chosen);
    case Rehome(id) => RehomeKeeps(st, id);
    case Cascade(id) => CascadeKeeps(st, id);
    case Insert(id, m) => InsertKeeps(st, id, m);
    case Pick(id, chosen) => PickKeeps(st, id, chosen);
    case Enrol(id) => EnrolKeeps(st, id);
    case Strip(id, m) => StripKeeps(st, id, m);
    case Drop(id) => DropKeeps(st, id);
  }

  ghost predicate OrderlyRun(first: State, r: Run, last: State)
    decreases r
  {
    match r
    case Begin => last == first
    case Later(before, e) => exists mid ::
      OrderlyRun(first, before, mid) && CanStep(mid, e) && Orderly(mid, e) && last == After(mid, e)
  }

  /** When no removals overlap and a team remains, every member who is not coming or going has a team, after every statement
      of every hook; and everybody has once nobody is. */
  lemma {:induction false} SeparateRemovalsKeepATeam(db: Db, r: Run, last: State)
    requires Inv(db) && OrderlyRun(Settled(db), r, last)
    ensures Safe(last) && (last.arrivals == map[] && last.departures == map[] ==> Inv(last.db))
    decreases r
  {
    if r.Later? {
      var mid :| OrderlyRun(Settled(db), r.before, mid) && CanStep(mid, r.step) && Orderly(mid, r.step) && last == After(mid, r.step);
      SeparateRemovalsKeepATeam(db, r.before, mid);
      StepStaysSafe(mid, r.step);
    }
    if last.arrivals == map[] && last.departures == map[] {
      assert forall m :: !InTransit(last, m);
    }
  }
}
