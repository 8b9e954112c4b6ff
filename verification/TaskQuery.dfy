/** Searching tasks: LIKE patterns and the conditions of a task list
    (packages/db/src/task-list-query.ts), under PostgreSQL's LIKE (section 9.7.1 of its documentation). */
module TaskQuery {
  import opened Basics

  // ------------------------------------------------------------------- patterns

  /** What a pattern character stands for. */
  datatype Token = Any | One | Lit(c: char)

  /** A pattern that ends with the escape character is an error. */
  function Tokens(pattern: string): Option<seq<Token>> {
    if pattern == "" then Some([])
    else if pattern[0] == '\\' then
      if |pattern| == 1 then None else Prepend(Lit(pattern[1]), Tokens(pattern[2..]))
    else
      Prepend(if pattern[0] == '%' then Any else if pattern[0] == '_' then One else Lit(pattern[0]), Tokens(pattern[1..]))
  }

  function Prepend(t: Token, rest: Option<seq<Token>>): Option<seq<Token>> {
    if rest.None? then None else Some([t] + rest.value)
  }

  /** How ILIKE compares characters: equal after folding. */
  type Fold = char -> char

  predicate Matches(fold: Fold, ts: seq<Token>, text: string)
    decreases |ts|, |text|
  {
    if ts == [] then text == ""
    else
      match ts[0]
      case Any => Matches(fold, ts[1..], text) || (text != "" && Matches(fold, ts, text[1..]))
      case One => text != "" && Matches(fold, ts[1..], text[1..])
      case Lit(c) => text != "" && fold(c) == fold(text[0]) && Matches(fold, ts[1..], text[1..])
  }

  /** `text ILIKE pattern`; none when the pattern is an error. */
  function ILike(fold: Fold, pattern: string, text: string): Option<bool> {
    match Tokens(pattern)
    case None => None
    case Some(ts) => Some(Matches(fold, ts, text))
  }

  predicate Special(c: char) {
    c == '\\' || c == '%' || c == '_'
  }

  /** `escapeLikePattern`. */
  function Escape(s: string): string {
    if s == "" then "" else EscapeChar(s[0]) + Escape(s[1..])
  }

  // ------------------------------------------------------- what escaping achieves

  function Lits(s: string): (ts: seq<Token>)
    ensures |ts| == |s| && forall i | 0 <= i < |s| :: ts[i] == Lit(s[i])
  {
    seq(|s|, i requires 0 <= i < |s| => Lit(s[i]))
  }

  predicate SameText(fold: Fold, s: string, t: string) {
    |s| == |t| && forall i | 0 <= i < |s| :: fold(s[i]) == fold(t[i])
  }

  function EscapeChar(c: char): string {
    if Special(c) then ['\\', c] else [c]
  }

  lemma EscapedCharIsLiteral(c: char, rest: string)
    ensures Tokens(EscapeChar(c) + rest) == Prepend(Lit(c), Tokens(rest))
  {
    var p := EscapeChar(c) + rest;
    assert p[|EscapeChar(c)|..] == rest;
  }

  lemma LitsGrow(s: string, tail: seq<Token>)
    requires s != ""
    ensures [Lit(s[0])] + (Lits(s[1..]) + tail) == Lits(s) + tail
  {
  }

  lemma {:induction false} EscapeThenTokens(s: string, tail: string)
    ensures Tokens(Escape(s) + tail) == if Tokens(tail).None? then None else Some(Lits(s) + Tokens(tail).value)
  {
    if s == "" {
      assert Escape(s) + tail == tail;
      assert Tokens(tail).Some? ==> Lits(s) + Tokens(tail).value == Tokens(tail).value;
    } else {
      EscapeThenTokens(s[1..], tail);
      assert Escape(s) + tail == EscapeChar(s[0]) + (Escape(s[1..]) + tail);
      EscapedCharIsLiteral(s[0], Escape(s[1..]) + tail);
      if Tokens(tail).Some? { LitsGrow(s, Tokens(tail).value); }
    }
  }

  lemma {:induction false} LitsMatch(fold: Fold, s: string, ts: seq<Token>, text: string)
    ensures Matches(fold, Lits(s) + ts, text) <==>
      |s| <= |text| && SameText(fold, s, text[..|s|]) && Matches(fold, ts, text[|s|..])
    decreases |s|
  {
    if s == "" {
      assert Lits(s) + ts == ts && text[0..] == text;
    } else if text != "" {
      LitsMatch(fold, s[1..], ts, text[1..]);
      var all := Lits(s) + ts;
      assert all[0] == Lit(s[0]) && all[1..] == Lits(s[1..]) + ts;
      if |s| <= |text| {
        assert text[1..][..|s| - 1] == text[..|s|][1..] && text[1..][|s| - 1..] == text[|s|..];
        SameTextStep(fold, s, text[..|s|]);
      }
    }
  }

  lemma SameTextStep(fold: Fold, s: string, t: string)
    requires s != "" && t != ""
    ensures SameText(fold, s, t) <==> fold(s[0]) == fold(t[0]) && SameText(fold, s[1..], t[1..])
  {
    if fold(s[0]) == fold(t[0]) && SameText(fold, s[1..], t[1..]) {
      forall i | 0 <= i < |s| ensures fold(s[i]) == fold(t[i]) {
        if i > 0 { assert s[i] == s[1..][i - 1] && t[i] == t[1..][i - 1]; }
      }
    }
  }

  lemma {:induction false} AnyMatches(fold: Fold, ts: seq<Token>, text: string)
    ensures Matches(fold, [Any] + ts, text) <==> exists i | 0 <= i <= |text| :: Matches(fold, ts, text[i..])
    decreases |text|
  {
    assert ([Any] + ts)[1..] == ts && text[0..] == text;
    if text != "" {
      AnyMatches(fold, ts, text[1..]);
      assert forall i | 0 <= i < |text| :: text[1..][i..] == text[i + 1..];
      if i :| 0 <= i <= |text| && Matches(fold, ts, text[i..]) {
        if i > 0 { assert text[1..][i - 1..] == text[i..]; }
      }
      if i :| 0 <= i <= |text| - 1 && Matches(fold, ts, text[1..][i..]) {
        assert text[1..][i..] == text[i + 1..];
      }
    }
  }

  lemma PercentIsAny()
    ensures Tokens("%") == Some([Any])
  {
    assert "%"[1..] == "" && Tokens("") == Some([]);
    assert [Any] + [] == [Any];
  }

  lemma AnythingMatches(fold: Fold, text: string)
    ensures Matches(fold, [Any], text)
  {
    AnyMatches(fold, [], text);
    assert [Any] + [] == [Any] && text[|text|..] == "";
  }

  /** An escaped string matches itself, up to the folding, and nothing else. */
  lemma EscapedMatchesOnlyItself(fold: Fold, s: string, text: string)
    ensures ILike(fold, Escape(s), text) == Some(SameText(fold, s, text))
  {
    EscapeThenTokens(s, "");
    assert Escape(s) + "" == Escape(s);
    LitsMatch(fold, s, [], text);
    assert |s| == |text| ==> text[..|s|] == text;
  }

  predicate Begins(fold: Fold, s: string, text: string) {
    |s| <= |text| && SameText(fold, s, text[..|s|])
  }

  predicate Contains(fold: Fold, s: string, text: string) {
    exists i | 0 <= i <= |text| :: Begins(fold, s, text[i..])
  }

  /** `escaped%` matches exactly the texts that begin with the string. */
  lemma PrefixPattern(fold: Fold, s: string, text: string)
    ensures ILike(fold, Escape(s) + "%", text) == Some(Begins(fold, s, text))
  {
    EscapeThenTokens(s, "%");
    PercentIsAny();
    LitsMatch(fold, s, [Any], text);
    if |s| <= |text| { AnythingMatches(fold, text[|s|..]); }
  }

  /** `%escaped%` matches exactly the texts that contain the string. */
  lemma ContainsPattern(fold: Fold, s: string, text: string)
    ensures ILike(fold, "%" + Escape(s) + "%", text) == Some(Contains(fold, s, text))
  {
    var p := "%" + Escape(s) + "%";
    assert p[1..] == Escape(s) + "%";
    EscapeThenTokens(s, "%");
    PercentIsAny();
    assert Tokens(p) == Some([Any] + (Lits(s) + [Any]));
    AnyMatches(fold, Lits(s) + [Any], text);
    forall i | 0 <= i <= |text| ensures Matches(fold, Lits(s) + [Any], text[i..]) <==> Begins(fold, s, text[i..]) {
      LitsMatch(fold, s, [Any], text[i..]);
      if |s| <= |text[i..]| { AnythingMatches(fold, text[i..][|s|..]); }
    }
  }

  // ---------------------------------------------------------- why it is needed

  function Exact(c: char): char { c }

  /** A text that the tokens match. */
  function Witness(ts: seq<Token>): string {
    if ts == [] then ""
    else (match ts[0] case Any => "" case One => "a" case Lit(c) => [c]) + Witness(ts[1..])
  }

  lemma {:induction false} WitnessMatches(ts: seq<Token>)
    ensures Matches(Exact, ts, Witness(ts))
  {
    if ts != [] {
      WitnessMatches(ts[1..]);
      if ts[0].Any? { assert Witness(ts) == Witness(ts[1..]); } else { assert Witness(ts)[1..] == Witness(ts[1..]); }
    }
  }

  lemma ExactIsEqual(s: string, t: string)
    ensures SameText(Exact, s, t) <==> s == t
  {
    assert (forall i | 0 <= i < |s| :: i < |t| ==> Exact(s[i]) == s[i] && Exact(t[i]) == t[i]);
  }

  predicate Plain(s: string) {
    forall i | 0 <= i < |s| :: !Special(s[i])
  }

  lemma {:induction false} WitnessDiffers(s: string)
    requires Tokens(s).Some?
    ensures |Witness(Tokens(s).value)| <= |s|
    ensures Witness(Tokens(s).value) == s ==> Plain(s)
    decreases |s|
  {
    if s != "" {
      var n := if s[0] == '\\' then 2 else 1;
      WitnessDiffers(s[n..]);
      var ts := Tokens(s).value;
      assert ts[1..] == Tokens(s[n..]).value;
      if Witness(ts) == s {
        assert |Witness(ts)| == |s|;
        assert Witness(ts)[1..] == s[1..] && s[0] == Witness(ts)[0];
      }
    }
  }

  /** Used unescaped, a string matches exactly itself if and only if it holds no special character. */
  lemma UnescapedIsExactOnlyIfPlain(s: string)
    ensures (forall text :: ILike(Exact, s, text) == Some(SameText(Exact, s, text))) <==> Plain(s)
  {
    if Plain(s) {
      PlainIsEscaped(s);
      forall text ensures ILike(Exact, s, text) == Some(SameText(Exact, s, text)) {
        EscapedMatchesOnlyItself(Exact, s, text);
      }
    } else if Tokens(s).None? {
      assert ILike(Exact, s, "") != Some(SameText(Exact, s, ""));
    } else {
      var w := Witness(Tokens(s).value);
      WitnessMatches(Tokens(s).value);
      WitnessDiffers(s);
      assert ILike(Exact, s, w) == Some(true);
      ExactIsEqual(s, w);
    }
  }

  lemma {:induction false} PlainIsEscaped(s: string)
    requires Plain(s)
    ensures Escape(s) == s
  {
    if s != "" { PlainIsEscaped(s[1..]); }
  }

  // --------------------------------------------------------- the task list conditions

  datatype Column =
    | OrganizationId | StatusId | AssigneeId | CreatorId | Priority
    | Title | Description | ExternalProjectId | ExternalProjectName | ExternalCycleId

  /** A task row; a column that is NULL is not in `text`. */
  datatype Row = Row(text: map<Column, string>, labels: Option<set<string>>, dueDate: Option<int>, deletedAt: Option<int>)

  datatype Status = Status(id: string, organizationId: string, typ: string)

  datatype Filters = Filters(
    organizationId: string, includeDeleted: bool,
    statusId: Option<string>, statusType: Option<string>, assigneeId: Option<string>, creatorId: Option<string>,
    priority: Option<string>, labels: Option<seq<string>>, search: Option<string>,
    externalProjectId: Option<string>, externalProjectName: Option<string>, externalCycleId: Option<string>,
    dueDateFrom: Option<int>, dueDateTo: Option<int>)

  datatype Condition =
    | Equals(column: Column, value: string)
    | NotDeleted
    | OfStatusType(organizationId: string, typ: string)
    | HasLabels(labels: seq<string>)
    | Like(column: Column, pattern: string)
    | Either(left: Condition, right: Condition)
    | DueFrom(date: int)
    | DueTo(date: int)

  /** SQL's truth values, and the error of a bad pattern. */
  datatype Truth = True | False | Unknown | Failure

  datatype Database = Database(fold: Fold, statuses: set<Status>)

  function Known(b: bool): Truth {
    if b then True else False
  }

  function Eval(db: Database, c: Condition, row: Row): Truth {
    match c
    case Equals(column, v) => if column !in row.text then Unknown else Known(row.text[column] == v)
    case NotDeleted => Known(row.deletedAt.None?)
    case OfStatusType(org, typ) =>
      if StatusId !in row.text then Unknown
      else Known(exists s | s in db.statuses :: s.id == row.text[StatusId] && s.organizationId == org && s.typ == typ)
    case HasLabels(labels) =>
      if row.labels.None? then Unknown else Known(forall l | l in labels :: l in row.labels.value)
    case Like(column, pattern) =>
      if column !in row.text then Unknown
      else
        (match ILike(db.fold, pattern, row.text[column])
         case None => Failure
         case Some(b) => Known(b))
    case Either(l, r) =>
      var a, b := Eval(db, l, row), Eval(db, r, row);
      if a.Failure? || b.Failure? then Failure
      else if a.True? || b.True? then True
      else if a.Unknown? || b.Unknown? then Unknown
      else False
    case DueFrom(d) => if row.dueDate.None? then Unknown else Known(row.dueDate.value >= d)
    case DueTo(d) => if row.dueDate.None? then Unknown else Known(row.dueDate.value <= d)
  }

  /** A WHERE clause keeps a row when every condition is true of it. */
  predicate Selected(db: Database, cs: seq<Condition>, row: Row) {
    forall c | c in cs :: Eval(db, c, row) == True
  }

  predicate Given(v: Option<string>) {
    v.Some? && v.value != ""
  }

  predicate Is(row: Row, column: Column, v: Option<string>) {
    Given(v) ==> column in row.text && row.text[column] == v.value
  }

  /** What the filters ask for. */
  predicate Wanted(db: Database, f: Filters, row: Row) {
    && OrganizationId in row.text && row.text[OrganizationId] == f.organizationId
    && (!f.includeDeleted ==> row.deletedAt.None?)
    && Is(row, StatusId, f.statusId)
    && (Given(f.statusType) ==> StatusId in row.text && exists s | s in db.statuses ::
          s.id == row.text[StatusId] && s.organizationId == f.organizationId && s.typ == f.statusType.value)
    && Is(row, AssigneeId, f.assigneeId) && Is(row, CreatorId, f.creatorId) && Is(row, Priority, f.priority)
    && (f.labels.Some? && f.labels.value != [] ==> row.labels.Some? && forall l | l in f.labels.value :: l in row.labels.value)
    && (Given(f.search) ==>
          || (Title in row.text && Contains(db.fold, f.search.value, row.text[Title]))
          || (Description in row.text && Contains(db.fold, f.search.value, row.text[Description])))
    && Is(row, ExternalProjectId, f.externalProjectId)
    && (Given(f.externalProjectName) ==>
          ExternalProjectName in row.text && Begins(db.fold, f.externalProjectName.value, row.text[ExternalProjectName]))
    && Is(row, ExternalCycleId, f.externalCycleId)
    && (f.dueDateFrom.Some? ==> row.dueDate.Some? && row.dueDate.value >= f.dueDateFrom.value)
    && (f.dueDateTo.Some? ==> row.dueDate.Some? && row.dueDate.value <= f.dueDateTo.value)
  }

  function IfGiven(column: Column, v: Option<string>): seq<Condition> {
    if Given(v) then [Equals(column, v.value)] else []
  }

  function SearchPart(v: Option<string>): seq<Condition> {
    if !Given(v) then []
    else
      var pattern := "%" + Escape(v.value) + "%";
      [Either(Like(Title, pattern), Like(Description, pattern))]
  }

  function ProjectNamePart(v: Option<string>): seq<Condition> {
    if Given(v) then [Like(ExternalProjectName, Escape(v.value) + "%")] else []
  }

  function StatusTypePart(org: string, v: Option<string>): seq<Condition> {
    if Given(v) then [OfStatusType(org, v.value)] else []
  }

  function LabelsPart(v: Option<seq<string>>): seq<Condition> {
    if v.Some? && v.value != [] then [HasLabels(v.value)] else []
  }

  function DatesPart(from: Option<int>, to: Option<int>): seq<Condition> {
    (if from.Some? then [DueFrom(from.value)] else []) + (if to.Some? then [DueTo(to.value)] else [])
  }

  /** The conditions in the order they are pushed. */
  function Conditions(f: Filters): seq<Condition> {
    [Equals(OrganizationId, f.organizationId)] + (if f.includeDeleted then [] else [NotDeleted])
    + IfGiven(StatusId, f.statusId) + StatusTypePart(f.organizationId, f.statusType)
    + IfGiven(AssigneeId, f.assigneeId) + IfGiven(CreatorId, f.creatorId) + IfGiven(Priority, f.priority)
    + LabelsPart(f.labels) + SearchPart(f.search)
    + IfGiven(ExternalProjectId, f.externalProjectId) + ProjectNamePart(f.externalProjectName)
    + IfGiven(ExternalCycleId, f.externalCycleId) + DatesPart(f.dueDateFrom, f.dueDateTo)
  }

  predicate SomePart(f: Filters, c: Condition) {
    || c in [Equals(OrganizationId, f.organizationId)] || c in (if f.includeDeleted then [] else [NotDeleted])
    || c in IfGiven(StatusId, f.statusId) || c in StatusTypePart(f.organizationId, f.statusType)
    || c in IfGiven(AssigneeId, f.assigneeId) || c in IfGiven(CreatorId, f.creatorId) || c in IfGiven(Priority, f.priority)
    || c in LabelsPart(f.labels) || c in SearchPart(f.search)
    || c in IfGiven(ExternalProjectId, f.externalProjectId) || c in ProjectNamePart(f.externalProjectName)
    || c in IfGiven(ExternalCycleId, f.externalCycleId) || c in DatesPart(f.dueDateFrom, f.dueDateTo)
  }

  lemma ConditionsAreParts(f: Filters, c: Condition)
    ensures c in Conditions(f) <==> SomePart(f, c)
  {
  }

  lemma SelectsOne(db: Database, c: Condition, row: Row)
    ensures Selected(db, [c], row) <==> Eval(db, c, row) == True
  {
    assert c in [c];
  }

  lemma IfGivenMeans(db: Database, column: Column, v: Option<string>, row: Row)
    ensures Selected(db, IfGiven(column, v), row) <==> Is(row, column, v)
  {
    if Given(v) { SelectsOne(db, Equals(column, v.value), row); }
  }

  lemma SearchMeans(db: Database, v: Option<string>, row: Row)
    ensures Selected(db, SearchPart(v), row) <==> (Given(v) ==>
      || (Title in row.text && Contains(db.fold, v.value, row.text[Title]))
      || (Description in row.text && Contains(db.fold, v.value, row.text[Description])))
  {
    if Given(v) {
      if Title in row.text { ContainsPattern(db.fold, v.value, row.text[Title]); }
      if Description in row.text { ContainsPattern(db.fold, v.value, row.text[Description]); }
      var c := SearchPart(v)[0];
      assert c.left == Like(Title, c.left.pattern) && c.right == Like(Description, c.left.pattern);
      var l, r := Eval(db, c.left, row), Eval(db, c.right, row);
      assert l == if Title !in row.text then Unknown else Known(Contains(db.fold, v.value, row.text[Title]));
      assert r == if Description !in row.text then Unknown else Known(Contains(db.fold, v.value, row.text[Description]));
      assert Eval(db, c, row) == True <==> l.True? || r.True?;
    }
  }

  lemma ProjectNameMeans(db: Database, v: Option<string>, row: Row)
    ensures Selected(db, ProjectNamePart(v), row) <==> (Given(v) ==>
      ExternalProjectName in row.text && Begins(db.fold, v.value, row.text[ExternalProjectName]))
  {
    if Given(v) {
      if ExternalProjectName in row.text { PrefixPattern(db.fold, v.value, row.text[ExternalProjectName]); }
      SelectsOne(db, Like(ExternalProjectName, Escape(v.value) + "%"), row);
    }
  }

  lemma OtherPartsMean(db: Database, f: Filters, row: Row)
    ensures Selected(db, [Equals(OrganizationId, f.organizationId)], row) <==>
      OrganizationId in row.text && row.text[OrganizationId] == f.organizationId
    ensures Selected(db, if f.includeDeleted then [] else [NotDeleted], row) <==> (!f.includeDeleted ==> row.deletedAt.None?)
    ensures Selected(db, StatusTypePart(f.organizationId, f.statusType), row) <==>
      (Given(f.statusType) ==> StatusId in row.text && exists s | s in db.statuses ::
         s.id == row.text[StatusId] && s.organizationId == f.organizationId && s.typ == f.statusType.value)
    ensures Selected(db, LabelsPart(f.labels), row) <==>
      (f.labels.Some? && f.labels.value != [] ==> row.labels.Some? && forall l | l in f.labels.value :: l in row.labels.value)
  {
    SelectsOne(db, Equals(OrganizationId, f.organizationId), row);
    SelectsOne(db, NotDeleted, row);
    if Given(f.statusType) { SelectsOne(db, OfStatusType(f.organizationId, f.statusType.value), row); }
    if f.labels.Some? && f.labels.value != [] { SelectsOne(db, HasLabels(f.labels.value), row); }
  }

  lemma DatesMean(db: Database, from: Option<int>, to: Option<int>, row: Row)
    ensures Selected(db, DatesPart(from, to), row) <==>
      && (from.Some? ==> row.dueDate.Some? && row.dueDate.value >= from.value)
      && (to.Some? ==> row.dueDate.Some? && row.dueDate.value <= to.value)
  {
    var a := if from.Some? then [DueFrom(from.value)] else [];
    var b := if to.Some? then [DueTo(to.value)] else [];
    assert Selected(db, a + b, row) <==> Selected(db, a, row) && Selected(db, b, row);
    if from.Some? { SelectsOne(db, DueFrom(from.value), row); }
    if to.Some? { SelectsOne(db, DueTo(to.value), row); }
  }

  /** Every pattern among the conditions can be matched against any text. */
  predicate Sound(c: Condition) {
    match c
    case Like(_, pattern) => Tokens(pattern).Some?
    case Either(l, r) => Sound(l) && Sound(r)
    case _ => true
  }

  lemma {:induction false} SoundNeverFails(db: Database, c: Condition, row: Row)
    requires Sound(c)
    ensures !Eval(db, c, row).Failure?
  {
    if c.Either? {
      SoundNeverFails(db, c.left, row);
      SoundNeverFails(db, c.right, row);
    }
  }

  lemma PatternsAreSound(s: string)
    ensures Tokens(Escape(s) + "%").Some? && Tokens("%" + Escape(s) + "%").Some?
  {
    EscapeThenTokens(s, "%");
    PercentIsAny();
    var p := "%" + Escape(s) + "%";
    assert p[1..] == Escape(s) + "%";
  }

  /** No condition fails on any row, whatever the search text. */
  lemma NoConditionFails(db: Database, f: Filters, c: Condition, row: Row)
    requires c in Conditions(f)
    ensures !Eval(db, c, row).Failure?
  {
    ConditionsAreParts(f, c);
    if Given(f.search) { PatternsAreSound(f.search.value); }
    if Given(f.externalProjectName) { PatternsAreSound(f.externalProjectName.value); }
    SoundNeverFails(db, c, row);
  }

  ghost predicate PartsSelected(db: Database, f: Filters, row: Row) {
    && Selected(db, [Equals(OrganizationId, f.organizationId)], row) && Selected(db, if f.includeDeleted then [] else [NotDeleted], row)
    && Selected(db, IfGiven(StatusId, f.statusId), row) && Selected(db, StatusTypePart(f.organizationId, f.statusType), row)
    && Selected(db, IfGiven(AssigneeId, f.assigneeId), row) && Selected(db, IfGiven(CreatorId, f.creatorId), row)
    && Selected(db, IfGiven(Priority, f.priority), row) && Selected(db, LabelsPart(f.labels), row)
    && Selected(db, SearchPart(f.search), row) && Selected(db, IfGiven(ExternalProjectId, f.externalProjectId), row)
    && Selected(db, ProjectNamePart(f.externalProjectName), row) && Selected(db, IfGiven(ExternalCycleId, f.externalCycleId), row)
    && Selected(db, DatesPart(f.dueDateFrom, f.dueDateTo), row)
  }

  lemma SelectedByParts(db: Database, f: Filters, row: Row)
    ensures Selected(db, Conditions(f), row) <==> PartsSelected(db, f, row)
  {
    forall c ensures c in Conditions(f) <==> SomePart(f, c) { ConditionsAreParts(f, c); }
  }

  /** The query returns exactly the rows the filters ask for; no search text can widen it or make it fail. */
  lemma ConditionsMeanWanted(db: Database, f: Filters, row: Row)
    ensures Selected(db, Conditions(f), row) <==> Wanted(db, f, row)
    ensures forall c | c in Conditions(f) :: !Eval(db, c, row).Failure?
  {
    SelectedByParts(db, f, row);
    IfGivenMeans(db, StatusId, f.statusId, row);
    IfGivenMeans(db, AssigneeId, f.assigneeId, row);
    IfGivenMeans(db, CreatorId, f.creatorId, row);
    IfGivenMeans(db, Priority, f.priority, row);
    IfGivenMeans(db, ExternalProjectId, f.externalProjectId, row);
    IfGivenMeans(db, ExternalCycleId, f.externalCycleId, row);
    SearchMeans(db, f.search, row);
    ProjectNameMeans(db, f.externalProjectName, row);
    OtherPartsMean(db, f, row);
    DatesMean(db, f.dueDateFrom, f.dueDateTo, row);
    forall c | c in Conditions(f) ensures !Eval(db, c, row).Failure? { NoConditionFails(db, f, c, row); }
  }

  method PushEquals(before: seq<Condition>, column: Column, v: Option<string>) returns (conditions: seq<Condition>)
    ensures conditions == before + IfGiven(column, v)
  {
    conditions := before;
    if Given(v) { conditions := conditions + [Equals(column, v.value)]; }
  }

  method PushSearch(before: seq<Condition>, v: Option<string>) returns (conditions: seq<Condition>)
    ensures conditions == before + SearchPart(v)
  {
    conditions := before;
    if Given(v) {
      var pattern := "%" + Escape(v.value) + "%";
      conditions := conditions + [Either(Like(Title, pattern), Like(Description, pattern))];
    }
  }

  method PushDates(before: seq<Condition>, from: Option<int>, to: Option<int>) returns (conditions: seq<Condition>)
    ensures conditions == before + DatesPart(from, to)
  {
    conditions := before;
    if from.Some? { conditions := conditions + [DueFrom(from.value)]; }
    if to.Some? { conditions := conditions + [DueTo(to.value)]; }
  }

  method PushOwner(f: Filters) returns (conditions: seq<Condition>)
    ensures conditions == [Equals(OrganizationId, f.organizationId)] + (if f.includeDeleted then [] else [NotDeleted])
  {
    conditions := [Equals(OrganizationId, f.organizationId)];
    if !f.includeDeleted { conditions := conditions + [NotDeleted]; }
  }

  method PushAll(f: Filters) returns (conditions: seq<Condition>)
    ensures conditions == Conditions(f)
  {
    conditions := PushOwner(f);
    conditions := PushEquals(conditions, StatusId, f.statusId);
    conditions := conditions + if Given(f.statusType) then [OfStatusType(f.organizationId, f.statusType.value)] else [];
    conditions := PushEquals(conditions, AssigneeId, f.assigneeId);
    conditions := PushEquals(conditions, CreatorId, f.creatorId);
    conditions := PushEquals(conditions, Priority, f.priority);
    conditions := conditions + if f.labels.Some? && f.labels.value != [] then [HasLabels(f.labels.value)] else [];
    conditions := PushSearch(conditions, f.search);
    conditions := PushEquals(conditions, ExternalProjectId, f.externalProjectId);
    conditions := conditions + ProjectNamePart(f.externalProjectName);
    conditions := PushEquals(conditions, ExternalCycleId, f.externalCycleId);
    conditions := PushDates(conditions, f.dueDateFrom, f.dueDateTo);
  }

  /** `buildTaskListConditions`: on every database the conditions select exactly the wanted rows, and none ever fails. */
  method BuildConditions(f: Filters) returns (conditions: seq<Condition>)
    ensures forall db, row :: Selected(db, conditions, row) <==> Wanted(db, f, row)
    ensures forall db, c, row {:trigger Eval(db, c, row)} | c in conditions :: !Eval(db, c, row).Failure?
  {
    conditions := PushAll(f);
    forall db, row ensures Selected(db, conditions, row) <==> Wanted(db, f, row) { ConditionsMeanWanted(db, f, row); }
    forall db, c, row | c in conditions ensures !Eval(db, c, row).Failure? { NoConditionFails(db, f, c, row); }
  }
}
