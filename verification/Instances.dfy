/** Concrete stores and lines on which the program does not do what its documentation says. */
module Instances {
  import opened Types
  import opened Collections
  import opened Store
  import opened LineParser
  import opened SessionSpec
  import opened ErrorRun
  import opened ScoreboardSpec
  import opened StandingsTheorems
  import opened ScoreboardBuilder
  import opened StoreConditions
  import opened StoreStandings
  import opened FirstSolvers
  import opened TieBreaks

  // ---- Ties are not broken by team id ----

  function NamedTeam(id: string, name: string): ContestObject {
    ContestObject(id, Team(Some(name), None, None, None), map[])
  }

  /** Two teams without submissions whose names run against their ids. */
  const TWO_TEAMS := Objects(None, None, map[TeamsType := map["a" := NamedTeam("a", "Z"), "b" := NamedTeam("b", "A")]])

  lemma TwoTeamsCollections()
    ensures ProperKeys(TWO_TEAMS)
    ensures CollectionOf(TWO_TEAMS, TeamsType) == map["a" := NamedTeam("a", "Z"), "b" := NamedTeam("b", "A")]
    ensures CollectionOf(TWO_TEAMS, ProblemsType) == map[]
  {
  }

  lemma TeamsInView(o: Objects, v: View)
    requires ProperKeys(o) && IsViewOf(o, v)
    ensures
      var c := CollectionOf(o, TeamsType);
      forall id | id in c && c[id].body.Team? :: id in TablesOf(v).teams && TablesOf(v).teams[id] == c[id]
  {
    hide Index, Best, ContestLimit;
    IndexInView(TeamsType, v.teams, CollectionOf(o, TeamsType));
  }

  lemma TwoTeamsNames(v: View)
    requires IsViewOf(TWO_TEAMS, v)
    ensures
      var tb := TablesOf(v);
      "a" in tb.shown && "b" in tb.shown && NameOf(tb, "a") == "Z" && NameOf(tb, "b") == "A"
  {
    hide TablesOf, IsViewOf, ProperKeys;
    TwoTeamsCollections();
    var c := CollectionOf(TWO_TEAMS, TeamsType);
    TeamsInView(TWO_TEAMS, v);
    ShownInView(TWO_TEAMS, v);
    assert c["a"] in c.Values && c["b"] in c.Values;
  }

  /** Without problems there are no columns, and every score is 0. */
  lemma NoColumns(o: Objects, v: View, cols: seq<ProbInfo>)
    requires IsViewOf(o, v) && IsColumns(v, cols) && CollectionOf(o, ProblemsType) == map[]
    ensures cols == []
  {
    if cols != [] {
      ColumnInView(o, v, cols, cols[0]);
    }
  }

  lemma NoScore(tb: Tables, order: seq<Judged>, t: string)
    requires tb.Typed()
    ensures ScoreOf(tb, order, [], t) == Score(0, 0)
  {
  }

  /** All standings of this store have the teams at one score and against the order of their ids. */
  lemma DocumentedTieBreakFails(snap: ScoreboardSnapshot)
    requires IsStandingsOf(TWO_TEAMS, snap)
    ensures !RowsFollowIds(snap)
  {
    hide TablesOf, IsViewOf, IsSnapshot, NameOf, ScoreOf, IsColumns, IsOrder;
    var v: View, cols, order, first :| IsViewOf(TWO_TEAMS, v) && IsSnapshot(v, cols, order, first, snap);
    var tb := TablesOf(v);
    TwoTeamsNames(v);
    TwoTeamsCollections();
    SnapshotColumns(v, cols, order, first, snap);
    NoColumns(TWO_TEAMS, v, cols);
    NoScore(tb, order, "a");
    NoScore(tb, order, "b");
    var i := RowOfTeam(v, cols, order, first, snap, "a");
    var j := RowOfTeam(v, cols, order, first, snap, "b");
    RowFacts(v, cols, order, first, snap, i);
    RowFacts(v, cols, order, first, snap, j);
    if i < j {
      RowsAreSorted(v, cols, order, first, snap, i, j);
    }
  }

  // ---- Solve minutes are not rounded down ----

  const HALF_A_MINUTE_EARLY := -30000

  /** One team that solved one problem half a minute before the start. */
  const EARLY_ACCEPT := Objects(None, None, map[
    TeamsType := map["t" := NamedTeam("t", "T")],
    ProblemsType := map["p" := ContestObject("p", Problem(None, None, None, None), map[])],
    JudgementTypesType := map["AC" := ContestObject("AC", JudgementType(None, Some(true)), map[])],
    SubmissionsType := map[
      "s" := ContestObject("s", Submission(Some("p"), Some("t"), Some(HALF_A_MINUTE_EARLY)), map[])],
    JudgementsType := map["j" := ContestObject("j", Judgement(Some("s"), Some("AC"), None), map[])]])

  lemma OnlyValue(k: string, x: ContestObject)
    ensures map[k := x].Values == {x}
  {
    assert map[k := x][k] == x;
  }

  lemma EarlyCollections()
    ensures ProperKeys(EARLY_ACCEPT)
    ensures ShownTeams(EARLY_ACCEPT) == {"t"} && ColumnProblems(EARLY_ACCEPT) == {"p"}
  {
    assert CollectionOf(EARLY_ACCEPT, TeamsType) == map["t" := NamedTeam("t", "T")];
    assert CollectionOf(EARLY_ACCEPT, ProblemsType)
           == map["p" := ContestObject("p", Problem(None, None, None, None), map[])];
    OnlyValue("t", NamedTeam("t", "T"));
    OnlyValue("p", ContestObject("p", Problem(None, None, None, None), map[]));
  }

  lemma EarlyVerdict()
    ensures UndisputedStore(EARLY_ACCEPT) && AcceptedIn(EARLY_ACCEPT, "s")
  {
    var j := ContestObject("j", Judgement(Some("s"), Some("AC"), None), map[]);
    assert CollectionOf(EARLY_ACCEPT, JudgementsType) == map["j" := j];
    OnlyValue("j", j);
    assert LatestIn(EARLY_ACCEPT, "s", j);
    assert VerdictAccepts(EARLY_ACCEPT, "AC");
  }

  lemma EarlyIsEarliest()
    ensures EarliestIn(EARLY_ACCEPT, "t", "p", "s") && TimeOf(EARLY_ACCEPT, "s") == HALF_A_MINUTE_EARLY
  {
    hide LatestIn, VerdictAccepts;
    EarlyVerdict();
    assert CollectionOf(EARLY_ACCEPT, SubmissionsType)
           == map["s" := ContestObject("s", Submission(Some("p"), Some("t"), Some(HALF_A_MINUTE_EARLY)), map[])];
    assert InTime(EARLY_ACCEPT, "s");
    assert Counts(EARLY_ACCEPT, "s");
  }

  /** In all standings of this store its only cell shows minute 0, although the accept lies in minute -1. */
  lemma DocumentedRoundingFails(snap: ScoreboardSnapshot, row: ScoreboardRow, x: ProblemResultCell)
    requires IsStandingsOf(EARLY_ACCEPT, snap) && row in snap.rows && x in row.cells
    ensures row.teamId == "t" && x.problemId == "p" && x.status == Solved
    ensures x.timeMinutes == 0 && !(x.timeMinutes * 60000 <= HALF_A_MINUTE_EARLY)
  {
    hide TablesOf, IsViewOf, IsSnapshot, IsColumns, IsOrder, EarliestIn, Outcome, ShownTeams, ColumnProblems, TimeOf,
         UndisputedStore, ProperKeys, InTime;
    EarlyCollections();
    EarlyVerdict();
    EarlyIsEarliest();
    var v: View, cols, order, first :| IsViewOf(EARLY_ACCEPT, v) && IsSnapshot(v, cols, order, first, snap);
    SnapshotColumns(v, cols, order, first, snap);
    CellHasColumn(v, cols, order, first, snap, row, x);
    var c: ProbInfo :| c in cols && c.id == x.problemId;
    ColumnInView(EARLY_ACCEPT, v, cols, c);
    ShownInView(EARLY_ACCEPT, v);
    ShownIsNotHidden(EARLY_ACCEPT, v, "t");
    AcceptOfStore(EARLY_ACCEPT, v, order, "t", "p");
    SnapshotCell(v, cols, order, first, snap, row, x);
  }

  // ---- Fail-fast does not always fail ----

  const MALFORMED_LINE := RawLine("{", None)

  /** One malformed line under fail-fast: an error with a limit of at least 2, but with a limit of 0 or 1 the status
      that makes the read loop stop and, by `ErrorRun.ParseStream`, the stream succeed. */
  lemma FailFastAtLimit(o: Options)
    requires o.errorPolicy == FailFast && o.maxLineBytes >= 1
    ensures Fails(o, MALFORMED_LINE)
    ensures ConsumeStatus(o, Fresh(o), MALFORMED_LINE) ==
            if o.maxConsecutiveErrors <= 1 then LimitExceeded else ParseError
  {
    assert Trim("{") == "{";
  }
}
