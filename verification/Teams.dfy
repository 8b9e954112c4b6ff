/** Team membership of organization members, as the organization hooks keep it (packages/auth/src/server.ts). */
module Teams {

  type Id = string

  datatype Team = Team(org: Id, createdAt: int)

  /** A row of team_members; its organization is its team's. */
  datatype Row = Row(team: Id, user: Id, org: Id)

  datatype Member = Member(user: Id, org: Id)

  datatype Db = Db(members: set<Member>, teams: map<Id, Team>, rows: set<Row>)

  /** Each hook together with the library's own insert or delete. `chosen` is the team the query for the oldest one found. */
  datatype Event =
    | AddMember(member: Member, chosen: Id)
    | RemoveMember(member: Member)
    | AddTeam(team: Id, info: Team)
    | AddToTeam(team: Id, user: Id)
    | LeaveTeam(team: Id, user: Id)
    | DeleteTeam(team: Id, chosen: Id)

  predicate TeamOf(teams: map<Id, Team>, org: Id, t: Id) {
    t in teams && teams[t].org == org
  }

  predicate Oldest(teams: map<Id, Team>, org: Id, t: Id) {
    TeamOf(teams, org, t) && forall u | u in teams && teams[u].org == org :: teams[t].createdAt <= teams[u].createdAt
  }

  /** The teams without one. */
  function Others(teams: map<Id, Team>, t: Id): map<Id, Team> {
    teams - {t}
  }

  /** Rows of the user in other teams of the organization: what `beforeRemoveTeamMember` counts. */
  function Elsewhere(rows: set<Row>, org: Id, user: Id, team: Id): set<Row> {
    set r | r in rows && r.user == user && r.org == org && r.team != team
  }

  /** Members of the team with no other team in its organization: whom `beforeDeleteTeam` re-homes. */
  function Orphans(rows: set<Row>, org: Id, team: Id): set<Id> {
    set r | r in rows && r.team == team && Elsewhere(rows, org, r.user, team) == {} :: r.user
  }

  predicate Enabled(db: Db, e: Event) {
    match e
    case AddMember(m, chosen) =>
      m !in db.members && (Oldest(db.teams, m.org, chosen) || forall t | t in db.teams :: db.teams[t].org != m.org)
    case RemoveMember(m) => m in db.members
    case AddTeam(t, _) => t !in db.teams
    case AddToTeam(t, user) => t in db.teams && Member(user, db.teams[t].org) in db.members
    case LeaveTeam(t, user) => t in db.teams && Row(t, user, db.teams[t].org) in db.rows
    case DeleteTeam(t, chosen) =>
      t in db.teams && (Oldest(Others(db.teams, t), db.teams[t].org, chosen)
        || forall u | u in db.teams && u != t :: db.teams[u].org != db.teams[t].org)
  }

  /** `afterAddMember`: into the oldest team, if there is one. */
  function Enrolled(db: Db, m: Member, chosen: Id): set<Row> {
    if TeamOf(db.teams, m.org, chosen) then db.rows + {Row(chosen, m.user, m.org)} else db.rows
  }

  /** `beforeDeleteTeam`: orphans go to the oldest other team, if there is one. */
  function Rehomed(db: Db, t: Id, chosen: Id): set<Row>
    requires t in db.teams
  {
    var org := db.teams[t].org;
    if TeamOf(Others(db.teams, t), org, chosen) then db.rows + set u | u in Orphans(db.rows, org, t) :: Row(chosen, u, org)
    else db.rows
  }

  function Next(db: Db, e: Event): Db
    requires Enabled(db, e)
  {
    match e
    case AddMember(m, chosen) => db.(members := db.members + {m}, rows := Enrolled(db, m, chosen))
    case RemoveMember(m) =>
      db.(members := db.members - {m},
          rows := set r | r in db.rows && !(r.user == m.user && TeamOf(db.teams, m.org, r.team)))
    case AddTeam(t, info) => db.(teams := db.teams[t := info])
    case AddToTeam(t, user) => db.(rows := db.rows + {Row(t, user, db.teams[t].org)})
    case LeaveTeam(t, user) =>
      if Elsewhere(db.rows, db.teams[t].org, user, t) == {} then db
      else db.(rows := db.rows - {Row(t, user, db.teams[t].org)})
    case DeleteTeam(t, chosen) =>
      db.(teams := Others(db.teams, t), rows := set r | r in Rehomed(db, t, chosen) && r.team != t)
  }

  // -------------------------------------------------------------------- invariants

  predicate RowsFit(teams: map<Id, Team>, rows: set<Row>) {
    forall r | r in rows :: TeamOf(teams, r.org, r.team)
  }

  /** The member is in some team of its organization. */
  ghost predicate Housed(rows: set<Row>, m: Member) {
    exists t :: Row(t, m.user, m.org) in rows
  }

  ghost predicate Inv(db: Db) {
    RowsFit(db.teams, db.rows) && forall m | m in db.members :: Housed(db.rows, m)
  }

  /** Where the hooks rely on the organization's having a team: adding to it, or keeping another one. */
  predicate TeamRemains(db: Db, e: Event) {
    match e
    case AddMember(m, _) => exists t | t in db.teams :: db.teams[t].org == m.org
    case DeleteTeam(t, _) => t in db.teams && exists u | u in db.teams :: u != t && db.teams[u].org == db.teams[t].org
    case _ => true
  }

  lemma StillHoused(rows: set<Row>, more: set<Row>, m: Member)
    requires Housed(rows, m) && rows <= more
    ensures Housed(more, m)
  {
    var t :| Row(t, m.user, m.org) in rows;
    assert Row(t, m.user, m.org) in more;
  }

  lemma AddKeeps(db: Db, m: Member, chosen: Id)
    requires Inv(db) && Enabled(db, AddMember(m, chosen)) && TeamRemains(db, AddMember(m, chosen))
    ensures Inv(Next(db, AddMember(m, chosen)))
  {
    var after := Next(db, AddMember(m, chosen));
    assert Row(chosen, m.user, m.org) in after.rows;
    forall x | x in after.members ensures Housed(after.rows, x) {
      if x in db.members { StillHoused(db.rows, after.rows, x); }
    }
  }

  lemma RemoveKeeps(db: Db, m: Member)
    requires Inv(db) && Enabled(db, RemoveMember(m))
    ensures Inv(Next(db, RemoveMember(m)))
  {
    var after := Next(db, RemoveMember(m));
    forall x | x in after.members ensures Housed(after.rows, x) {
      var t :| Row(t, x.user, x.org) in db.rows;
      assert x.user == m.user ==> x.org != m.org;
      assert Row(t, x.user, x.org) in after.rows;
    }
  }

  lemma LeaveKeeps(db: Db, t: Id, user: Id)
    requires Inv(db) && Enabled(db, LeaveTeam(t, user))
    ensures Inv(Next(db, LeaveTeam(t, user)))
  {
    var after := Next(db, LeaveTeam(t, user));
    var org := db.teams[t].org;
    forall x | x in after.members ensures Housed(after.rows, x) {
      var u :| Row(u, x.user, x.org) in db.rows;
      if Row(u, x.user, x.org) !in after.rows {
        var r :| r in Elsewhere(db.rows, org, user, t);
        assert Row(r.team, x.user, x.org) == r && r in after.rows;
      }
    }
  }

  lemma DeleteKeeps(db: Db, t: Id, chosen: Id)
    requires Inv(db) && Enabled(db, DeleteTeam(t, chosen)) && TeamRemains(db, DeleteTeam(t, chosen))
    ensures Inv(Next(db, DeleteTeam(t, chosen)))
  {
    var after := Next(db, DeleteTeam(t, chosen));
    var org := db.teams[t].org;
    assert TeamOf(Others(db.teams, t), org, chosen);
    forall x | x in after.members ensures Housed(after.rows, x) {
      var u :| Row(u, x.user, x.org) in db.rows;
      if u == t {
        if Elsewhere(db.rows, org, x.user, t) == {} {
          assert Row(t, x.user, org) in db.rows && x.user in Orphans(db.rows, org, t);
          assert Row(chosen, x.user, org) in after.rows;
        } else {
          var r :| r in Elsewhere(db.rows, org, x.user, t);
          assert Row(r.team, x.user, x.org) == r && r in after.rows;
        }
      } else {
        assert Row(u, x.user, x.org) in after.rows;
      }
    }
  }

  lemma NextKeeps(db: Db, e: Event)
    requires Inv(db) && Enabled(db, e) && TeamRemains(db, e)
    ensures Inv(Next(db, e))
  {
    match e
    case AddMember(m, chosen) => AddKeeps(db, m, chosen);
    case RemoveMember(m) => RemoveKeeps(db, m);
    case LeaveTeam(t, user) => LeaveKeeps(db, t, user);
    case DeleteTeam(t, chosen) => DeleteKeeps(db, t, chosen);
    case AddTeam(_, _) =>
    case AddToTeam(_, _) =>
      var after := Next(db, e);
      forall x | x in after.members ensures Housed(after.rows, x) { StillHoused(db.rows, after.rows, x); }
  }

  /** The step leaves every member in a team exactly when the organization it concerns has, or keeps, a team,
      or no member depends on the team that goes. */
  lemma KeptExactlyWhenATeamRemains(db: Db, e: Event)
    requires Inv(db) && Enabled(db, e)
    ensures Inv(Next(db, e)) <==>
      TeamRemains(db, e) || (e.DeleteTeam? && forall r | r in db.rows && r.team == e.team :: Member(r.user, r.org) !in db.members)
  {
    var after := Next(db, e);
    if TeamRemains(db, e) {
      NextKeeps(db, e);
    } else if e.AddMember? {
      assert forall r | r in db.rows :: r.org != e.member.org;
      assert !Housed(after.rows, e.member);
    } else {
      LastTeamGoes(db, e.team, e.chosen);
    }
  }

  lemma LastTeamGoes(db: Db, t: Id, chosen: Id)
    requires Inv(db) && Enabled(db, DeleteTeam(t, chosen)) && !TeamRemains(db, DeleteTeam(t, chosen))
    ensures Inv(Next(db, DeleteTeam(t, chosen))) <==>
      forall r | r in db.rows && r.team == t :: Member(r.user, r.org) !in db.members
  {
    var after := Next(db, DeleteTeam(t, chosen));
    assert after.rows == set r | r in db.rows && r.team != t;
    if forall r | r in db.rows && r.team == t :: Member(r.user, r.org) !in db.members {
      forall x | x in after.members ensures Housed(after.rows, x) {
        var u :| Row(u, x.user, x.org) in db.rows;
        assert Row(u, x.user, x.org) in after.rows;
      }
    } else {
      var r :| r in db.rows && r.team == t && Member(r.user, r.org) in db.members;
      assert forall x | x in after.rows :: x.org != r.org;
      assert !Housed(after.rows, Member(r.user, r.org));
    }
  }

  // ------------------------------------------------------------------- every run

  datatype Trace = Empty | Then(before: Trace, event: Event)

  ghost predicate Runs(begin: Db, t: Trace, end: Db)
    decreases t
  {
    match t
    case Empty => end == begin
    case Then(before, e) => exists mid ::
      Runs(begin, before, mid) && Enabled(mid, e) && TeamRemains(mid, e) && end == Next(mid, e)
  }

  /** Every member stays in at least one team of the organization, whatever is added, removed, left or deleted. */
  lemma {:induction false} EveryMemberHasATeam(begin: Db, t: Trace, end: Db)
    requires Inv(begin) && Runs(begin, t, end)
    ensures Inv(end)
    ensures forall m | m in end.members :: exists team | team in end.teams :: end.teams[team].org == m.org && Row(team, m.user, m.org) in end.rows
    decreases t
  {
    if t.Then? {
      var mid :| Runs(begin, t.before, mid) && Enabled(mid, t.event) && TeamRemains(mid, t.event) && end == Next(mid, t.event);
      EveryMemberHasATeam(begin, t.before, mid);
      NextKeeps(mid, t.event);
    }
    forall m | m in end.members ensures exists team | team in end.teams :: end.teams[team].org == m.org && Row(team, m.user, m.org) in end.rows {
      var u :| Row(u, m.user, m.org) in end.rows;
      assert TeamOf(end.teams, m.org, u);
    }
  }

  // -------------------------------------------------------------------- the hooks

  /** The user of the row is in the team to go, in no other of the organization, and the chosen team is there to take the user. */
  ghost predicate LostHome(rows: set<Row>, teams: map<Id, Team>, t: Id, chosen: Id, r: Row)
    requires t in teams
  {
    && r.org == teams[t].org && chosen != t && TeamOf(teams, r.org, chosen)
    && (exists x | x in rows :: x.team == t && x.user == r.user)
    && forall x | x in rows && x.user == r.user && x.org == r.org :: x.team == t
  }

  /** The three tables, changed statement by statement as the hooks and the library do. */
  class Organizations {
    var members: set<Member>
    var teams: map<Id, Team>
    var rows: set<Row>

    ghost function Abs(): Db reads this { Db(members, teams, rows) }

    ghost predicate Valid() reads this { Inv(Abs()) }

    /** The library's insert, then `afterAddMember`: the newcomer is in the oldest team if there is one, and is left
        without a team only if the organization has none. */
    method AddMember(m: Member, chosen: Id)
      requires Valid() && Enabled(Abs(), Event.AddMember(m, chosen))
      modifies this
      ensures Abs() == Next(old(Abs()), Event.AddMember(m, chosen))
      ensures members == old(members) + {m} && teams == old(teams)
      ensures Valid() <==> exists t | t in teams :: teams[t].org == m.org
      ensures Valid() ==> TeamOf(teams, m.org, chosen) && Row(chosen, m.user, m.org) in rows
      ensures Valid() ==> forall t | t in teams && teams[t].org == m.org :: teams[chosen].createdAt <= teams[t].createdAt
      ensures forall r: Row | Member(r.user, r.org) != m :: r in rows <==> r in old(rows)
    {
      KeptExactlyWhenATeamRemains(Abs(), Event.AddMember(m, chosen));
      members := members + {m};
      if TeamOf(teams, m.org, chosen) { rows := rows + {Row(chosen, m.user, m.org)}; }
    }

    /** `beforeRemoveMember`, then the library's delete: exactly the member's own rows go, by the team's organization. */
    method RemoveMember(m: Member)
      requires Valid() && Enabled(Abs(), Event.RemoveMember(m))
      modifies this
      ensures Abs() == Next(old(Abs()), Event.RemoveMember(m)) && Valid()
      ensures members == old(members) - {m} && teams == old(teams) && forall r: Row :: r in rows <==> r in old(rows) && Member(r.user, r.org) != m
    {
      NextKeeps(Abs(), Event.RemoveMember(m));
      var ofOrg := set t | t in teams && teams[t].org == m.org;
      rows := set r | r in rows && !(r.user == m.user && r.team in ofOrg);
      members := members - {m};
    }

    /** `beforeRemoveTeamMember`, then the library's delete unless the hook throws. */
    method LeaveTeam(t: Id, user: Id) returns (threw: bool)
      requires Valid() && Enabled(Abs(), Event.LeaveTeam(t, user))
      modifies this
      ensures Abs() == Next(old(Abs()), Event.LeaveTeam(t, user)) && Valid()
      ensures threw <==> forall r | r in old(rows) && r.user == user && r.org == teams[t].org :: r.team == t
      ensures members == old(members) && teams == old(teams)
      ensures rows == if threw then old(rows) else old(rows) - {Row(t, user, teams[t].org)}
    {
      NextKeeps(Abs(), Event.LeaveTeam(t, user));
      var others := set r | r in rows && r.user == user && r.org == teams[t].org && r.team != t;
      assert others == Elsewhere(rows, teams[t].org, user, t);
      assert others == {} <==> forall r | r in rows && r.user == user && r.org == teams[t].org :: r.team == t by {
        forall r | r in rows && r.user == user && r.org == teams[t].org ensures r.team == t || r in others {}
      }
      if |others| == 0 { return true; }
      rows := rows - {Row(t, user, teams[t].org)};
      return false;
    }

    /** The library's own inserts, which have no hook. */
    method AddTeam(t: Id, info: Team)
      requires Valid() && Enabled(Abs(), Event.AddTeam(t, info))
      modifies this
      ensures Abs() == Next(old(Abs()), Event.AddTeam(t, info)) && Valid()
      ensures teams == old(teams)[t := info] && rows == old(rows) && members == old(members)
    {
      NextKeeps(Abs(), Event.AddTeam(t, info));
      teams := teams[t := info];
    }

    method AddToTeam(t: Id, user: Id)
      requires Valid() && Enabled(Abs(), Event.AddToTeam(t, user))
      modifies this
      ensures Abs() == Next(old(Abs()), Event.AddToTeam(t, user)) && Valid()
      ensures rows == old(rows) + {Row(t, user, teams[t].org)} && teams == old(teams) && members == old(members)
    {
      NextKeeps(Abs(), Event.AddToTeam(t, user));
      rows := rows + {Row(t, user, teams[t].org)};
    }

    /** `beforeDeleteTeam`, then the library's delete, which cascades to the team's rows. */
    method DeleteTeam(t: Id, chosen: Id)
      requires Valid() && Enabled(Abs(), Event.DeleteTeam(t, chosen))
      modifies this
      ensures Abs() == Next(old(Abs()), Event.DeleteTeam(t, chosen))
      ensures TeamRemains(old(Abs()), Event.DeleteTeam(t, chosen)) ==> Valid()
      ensures teams == old(teams) - {t} && members == old(members)
      ensures forall r: Row :: r in rows <==>
        r.team != t && (r in old(rows) || (r.team == chosen && LostHome(old(rows), old(teams), t, chosen, r)))
      ensures forall r, u | r in rows && r !in old(rows) && u in teams && teams[u].org == r.org ::
        r.team in teams && teams[r.team].createdAt <= teams[u].createdAt
    {
      KeptExactlyWhenATeamRemains(Abs(), Event.DeleteTeam(t, chosen));
      var org := teams[t].org;
      var inTeam := set r | r in rows && r.team == t :: r.user;
      var safe := set r | r in rows && r.user in inTeam && r.org == org && r.team != t :: r.user;
      var orphans := inTeam - safe;
      SameOrphans(rows, org, t);
      if orphans != {} && chosen != t && TeamOf(teams, org, chosen) {
        rows := rows + set u | u in orphans :: Row(chosen, u, org);
      }
      teams := teams - {t};
      rows := set r | r in rows && r.team != t;
    }
  }

  /** Who is not safe elsewhere is an orphan. */
  lemma SameOrphans(rows: set<Row>, org: Id, t: Id)
    ensures var inTeam := set r | r in rows && r.team == t :: r.user;
      var safe := set r | r in rows && r.user in inTeam && r.org == org && r.team != t :: r.user;
      inTeam - safe == Orphans(rows, org, t)
  {
    var inTeam := set r | r in rows && r.team == t :: r.user;
    var safe := set r | r in rows && r.user in inTeam && r.org == org && r.team != t :: r.user;
    forall u | u in inTeam ensures u in safe <==> Elsewhere(rows, org, u, t) != {} {
      if u in safe {
        var r :| r in rows && r.user == u && r.org == org && r.team != t;
        assert r in Elsewhere(rows, org, u, t);
      }
      if Elsewhere(rows, org, u, t) != {} {
        var r :| r in Elsewhere(rows, org, u, t);
      }
    }
  }
}
