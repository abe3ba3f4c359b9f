/** What final standings show, in terms of the objects in the store alone: the header, the columns, which teams have
    rows, the texts and awards of a row, its cells, its penalty, its place and the order of rows. */
module StandingsFromRecords {
  import opened Types
  import opened Collections
  import opened Store
  import opened ScoreboardSpec
  import opened AccumTheorems
  import opened StandingsTheorems
  import opened OrderIndependence
  import opened ScoreboardBuilder
  import opened StoreConditions
  import opened StoreStandings
  import opened FirstSolvers

  // ---- The header ----

  /** Names and penalty minutes of the contest, the minutes rounded toward zero; 20 minutes without a contest or penalty
      time. */
  lemma HeaderFromContest(o: Objects, snap: ScoreboardSnapshot)
    requires IsStandingsOf(o, snap)
    ensures
      match o.contest
      case None => snap.contestName == "" && snap.contestFormalName == "" && snap.penaltyTimeMinutes == 20
      case Some(c) =>
        && snap.contestName == (match c.body.name case Some(n) => n case None => "")
        && snap.contestFormalName == (match c.body.formalName case Some(n) => n case None => "")
        && match c.body.penaltyTimeMs
           case None => snap.penaltyTimeMinutes == 20
           case Some(ms) =>
             if 0 <= ms
             then snap.penaltyTimeMinutes * 60000 <= ms < (snap.penaltyTimeMinutes + 1) * 60000
             else (snap.penaltyTimeMinutes - 1) * 60000 < ms <= snap.penaltyTimeMinutes * 60000
  {
    hide Index, Best, ContestLimit, Lists, IsColumns, IsOrder, IsFirstSolve, RowMap, Enumerates, Sorted;
    var v: View, cols: seq<ProbInfo>, order, first :| IsViewOf(o, v) && IsSnapshot(v, cols, order, first, snap);
  }

  // ---- Columns ----

  /** A column shows the problem with its id: the label, or the id without one, and name and color, or nothing. */
  predicate ShowsProblem(col: ProblemColumn, x: ContestObject) {
    && x.body.Problem? && col.problemId == x.id
    && col.title == (match x.body.labelText case Some(l) => l case None => x.id)
    && col.name == (match x.body.problemName case Some(n) => n case None => "")
    && col.rgb == (match x.body.rgb case Some(c) => c case None => "")
  }

  function OrdinalOf(x: ContestObject): int
    requires x.body.Problem?
  {
    match x.body.ordinal case Some(n) => n case None => 0
  }

  lemma {:induction false} ColumnsOfProblems(problems: seq<ContestObject>)
    ensures forall c | c in ProbInfos(problems) :: exists x | x in problems :: x.body.Problem? && c == ProbInfoOf(x)
    ensures DistinctIds(problems) ==> forall i, j | 0 <= i < j < |ProbInfos(problems)| ::
              ProbInfos(problems)[i].id != ProbInfos(problems)[j].id
  {
    if problems != [] {
      var last := |problems| - 1;
      assert problems == problems[..last] + [problems[last]];
      ColumnsOfProblems(problems[..last]);
      forall c | c in ProbInfos(problems)
        ensures exists x | x in problems :: x.body.Problem? && c == ProbInfoOf(x)
      {
        if c !in ProbInfos(problems[..last]) {
          assert c == ProbInfoOf(problems[last]);
        }
      }
      if DistinctIds(problems) {
        forall c | c in ProbInfos(problems[..last])
          ensures c.id != problems[last].id
        {
          var x :| x in problems[..last] && x.body.Problem? && c == ProbInfoOf(x);
          assert c.id == x.id;
        }
      }
    }
  }

  lemma ColumnRecord(o: Objects, v: View, cols: seq<ProbInfo>, c: ProbInfo)
    requires ProperKeys(o) && IsViewOf(o, v) && IsColumns(v, cols) && c in cols
    ensures
      var problems := CollectionOf(o, ProblemsType);
      c.id in problems && problems[c.id].body.Problem? && c == ProbInfoOf(problems[c.id])
  {
    hide ProbInfoOf, Lists;
    assert c in multiset(cols);
    assert c in ProbInfos(v.problems);
    ColumnsOfProblems(v.problems);
    assert exists x | x in v.problems :: x.body.Problem? && c == ProbInfoOf(x);
    var x :| x in v.problems && x.body.Problem? && c == ProbInfoOf(x);
    ListedMembers(v.problems, CollectionOf(o, ProblemsType), x);
    InfoHasId(x);
  }

  lemma InfoHasId(x: ContestObject)
    requires x.body.Problem?
    ensures ProbInfoOf(x).id == x.id
  {
  }

  /** Each column shows a problem of the store. */
  lemma ColumnFromProblem(o: Objects, snap: ScoreboardSnapshot, i: nat)
    requires ProperKeys(o) && IsStandingsOf(o, snap) && i < |snap.problems|
    ensures
      var problems, id := CollectionOf(o, ProblemsType), snap.problems[i].problemId;
      id in problems && ShowsProblem(snap.problems[i], problems[id])
  {
    hide IsViewOf, ProperKeys, TablesOf, IsColumns, IsOrder, IsFirstSolve, RowMap, Enumerates, Sorted;
    var v: View, cols: seq<ProbInfo>, order, first :| IsViewOf(o, v) && IsSnapshot(v, cols, order, first, snap);
    ColumnRecord(o, v, cols, cols[i]);
    ProperId(o, ProblemsType, cols[i].id);
  }

  lemma ProperId(o: Objects, t: ObjectType, id: string)
    requires ProperKeys(o) && !IsSingleton(t) && id in CollectionOf(o, t)
    ensures CollectionOf(o, t)[id].id == id
  {
  }

  /** Each problem of the store has a column, and columns run by ordinal (0 without one), then by label. */
  lemma ColumnsInOrder(o: Objects, snap: ScoreboardSnapshot)
    requires ProperKeys(o) && IsStandingsOf(o, snap)
    ensures forall p | p in ColumnProblems(o) :: exists i | 0 <= i < |snap.problems| :: snap.problems[i].problemId == p
    ensures
      var problems := CollectionOf(o, ProblemsType);
      forall i, j | 0 <= i < j < |snap.problems| ::
        var p, q := snap.problems[i].problemId, snap.problems[j].problemId;
        && p != q && p in problems && q in problems && problems[p].body.Problem? && problems[q].body.Problem?
        && (OrdinalOf(problems[p]) < OrdinalOf(problems[q])
            || (OrdinalOf(problems[p]) == OrdinalOf(problems[q])
                && !StrLess(snap.problems[j].title, snap.problems[i].title)))
  {
    hide IsViewOf, ProperKeys, TablesOf, IsColumns, IsOrder, IsFirstSolve, RowMap, Enumerates, Sorted, ColumnProblems;
    var v: View, cols: seq<ProbInfo>, order, first :| IsViewOf(o, v) && IsSnapshot(v, cols, order, first, snap);
    forall p | p in ColumnProblems(o)
      ensures exists i | 0 <= i < |snap.problems| :: snap.problems[i].problemId == p
    {
      var c := ProblemHasColumn(o, v, cols, p);
      var i :| 0 <= i < |cols| && cols[i] == c;
      assert snap.problems[i].problemId == p;
    }
    ColumnsSorted(o, v, cols);
    forall i | 0 <= i < |cols|
      ensures
        var problems := CollectionOf(o, ProblemsType);
        cols[i].id in problems && problems[cols[i].id].body.Problem? && cols[i] == ProbInfoOf(problems[cols[i].id])
    {
      ColumnRecord(o, v, cols, cols[i]);
    }
  }

  lemma ColumnsSorted(o: Objects, v: View, cols: seq<ProbInfo>)
    requires ProperKeys(o) && IsViewOf(o, v) && IsColumns(v, cols)
    ensures forall i, j | 0 <= i < j < |cols| :: cols[i].id != cols[j].id
    ensures forall i, j | 0 <= i < j < |cols| :: !ColumnLess(cols[j], cols[i])
  {
    hide ProbInfos, Lists, ColumnLess;
    ListingHasDistinctIds(v.problems, CollectionOf(o, ProblemsType));
    ColumnsOfProblems(v.problems);
    DistinctFieldOfPermutation(ProbInfos(v.problems), cols);
  }

  lemma DistinctFieldOfPermutation(a: seq<ProbInfo>, b: seq<ProbInfo>)
    requires multiset(a) == multiset(b) && forall i, j | 0 <= i < j < |a| :: a[i].id != a[j].id
    ensures forall i, j | 0 <= i < j < |b| :: b[i].id != b[j].id
  {
    var elems := set c | c in a;
    ReorderedEnumerates(a, b, elems);
    forall i, j | 0 <= i < j < |b|
      ensures b[i].id != b[j].id
    {
      assert b[i] in a && b[j] in a;
    }
  }

  // ---- Which teams have rows, and their texts ----

  /** Exactly the teams that are not marked hidden have a row. */
  lemma RowsFromTeams(o: Objects, snap: ScoreboardSnapshot, t: string)
    requires ProperKeys(o) && IsStandingsOf(o, snap)
    ensures
      var teams := CollectionOf(o, TeamsType);
      (exists row | row in snap.rows :: row.teamId == t) <==>
      t in teams && teams[t].body.Team? && teams[t].body.hidden != Some(true)
  {
    hide IsViewOf, IsSnapshot, TablesOf, ProperKeys;
    var v: View, cols: seq<ProbInfo>, order, first :| IsViewOf(o, v) && IsSnapshot(v, cols, order, first, snap);
    ShownInView(o, v);
    ShownRecords(o, t);
    if t in TablesOf(v).shown {
      ShownTeamHasRow(v, cols, order, first, snap, t);
      var i :| 0 <= i < |snap.rows| && snap.rows[i] == RowOf(TablesOf(v), v.awards, cols, order, first, t);
      assert snap.rows[i] in snap.rows;
    }
    if row :| row in snap.rows && row.teamId == t {
      SnapshotRow(v, cols, order, first, snap, row);
    }
  }

  lemma ShownRecords(o: Objects, t: string)
    requires ProperKeys(o)
    ensures
      var teams := CollectionOf(o, TeamsType);
      t in ShownTeams(o) <==> t in teams && teams[t].body.Team? && teams[t].body.hidden != Some(true)
  {
    var teams := CollectionOf(o, TeamsType);
    if t in teams {
      assert teams[t] in teams.Values;
    }
  }

  /** The name is the display name, else the name, else the id; the organization is shown by id, and by name if it is in
      the store. */
  predicate ShowsTeam(row: ScoreboardRow, x: ContestObject, organizations: map<string, ContestObject>) {
    && x.body.Team? && row.teamId == x.id
    && row.teamName == (match x.body.displayName
                        case Some(d) => d
                        case None => match x.body.teamName case Some(n) => n case None => x.id)
    && match x.body.organizationId
       case None => row.organizationId == "" && row.organizationName == ""
       case Some(id) =>
         && row.organizationId == id
         && row.organizationName ==
              if id in organizations && organizations[id].body.Organization?
              then (match organizations[id].body.organizationName case Some(n) => n case None => "")
              else ""
  }

  lemma TextsInView(o: Objects, v: View)
    requires ProperKeys(o) && IsViewOf(o, v)
    ensures
      var tb, teams, orgs := TablesOf(v), CollectionOf(o, TeamsType), CollectionOf(o, OrganizationsType);
      && (forall id :: id in tb.teams <==> id in teams && KindOf(teams[id].body) == TeamsType)
      && (forall id | id in tb.teams :: tb.teams[id] == teams[id])
      && (forall id :: id in tb.organizations <==> id in orgs && KindOf(orgs[id].body) == OrganizationsType)
      && (forall id | id in tb.organizations :: tb.organizations[id] == orgs[id])
  {
    hide Index, Best, ContestLimit, Lists;
    IndexInView(TeamsType, v.teams, CollectionOf(o, TeamsType));
    IndexInView(OrganizationsType, v.organizations, CollectionOf(o, OrganizationsType));
  }

  lemma TextsFromTeam(o: Objects, snap: ScoreboardSnapshot, row: ScoreboardRow)
    requires ProperKeys(o) && IsStandingsOf(o, snap) && row in snap.rows
    ensures
      var teams := CollectionOf(o, TeamsType);
      row.teamId in teams && ShowsTeam(row, teams[row.teamId], CollectionOf(o, OrganizationsType))
  {
    hide IsViewOf, IsSnapshot, TablesOf, ProperKeys, ScoreOf, Place, CellsOf, AwardsOf;
    var v: View, cols: seq<ProbInfo>, order, first :| IsViewOf(o, v) && IsSnapshot(v, cols, order, first, snap);
    SnapshotRow(v, cols, order, first, snap, row);
    ShownInView(o, v);
    ShownRecords(o, row.teamId);
    TextsInView(o, v);
    ProperId(o, TeamsType, row.teamId);
  }

  // ---- Awards ----

  /** How often an award is among those shown. */
  function AwardCount(awards: seq<TeamAward>, id: string): nat {
    if awards == [] then 0
    else AwardCount(awards[..|awards| - 1], id) + if awards[|awards| - 1].awardId == id then 1 else 0
  }

  /** How often a team is named. */
  function TimesNamed(teamIds: seq<string>, t: string): nat {
    if teamIds == [] then 0
    else TimesNamed(teamIds[..|teamIds| - 1], t) + if teamIds[|teamIds| - 1] == t then 1 else 0
  }

  lemma {:induction false} CountOfParts(a: seq<TeamAward>, b: seq<TeamAward>, id: string)
    ensures AwardCount(a + b, id) == AwardCount(a, id) + AwardCount(b, id)
  {
    if b == [] {
      assert a + b == a;
    } else {
      assert (a + b)[..|a + b| - 1] == a + b[..|b| - 1];
      CountOfParts(a, b[..|b| - 1], id);
    }
  }

  lemma {:induction false} CountOfCopies(award: TeamAward, teamIds: seq<string>, t: string, id: string)
    ensures AwardCount(Copies(award, teamIds, t), id) == if award.awardId == id then TimesNamed(teamIds, t) else 0
    ensures forall a | a in Copies(award, teamIds, t) :: a == award
  {
    if teamIds != [] {
      var last := |teamIds| - 1;
      CountOfCopies(award, teamIds[..last], t, id);
      CountOfParts(Copies(award, teamIds[..last], t), if teamIds[last] == t then [award] else [], id);
      assert [award][..0] == [];
    }
  }

  /** An award shows its id and citation, or the id without one. */
  predicate ShowsAward(a: TeamAward, x: ContestObject) {
    x.body.Award? && a.awardId == x.id && a.citation == (match x.body.citation case Some(c) => c case None => x.id)
  }

  lemma {:induction false} CountOfAwards(awards: seq<ContestObject>, t: string, x: ContestObject)
    requires DistinctIds(awards) && x.body.Award?
    ensures x in awards ==> AwardCount(AwardsOf(awards, t), x.id) == TimesNamed(x.body.teamIds, t)
    ensures (forall y | y in awards :: y.id != x.id) ==> AwardCount(AwardsOf(awards, t), x.id) == 0
    ensures forall a | a in AwardsOf(awards, t) :: exists y | y in awards :: ShowsAward(a, y)
  {
    hide Copies, TimesNamed;
    if awards != [] {
      var last := |awards| - 1;
      var z, before := awards[last], AwardsOf(awards[..last], t);
      assert awards == awards[..last] + [z];
      CountOfAwards(awards[..last], t, x);
      var more := if z.body.Award? then Copies(AwardOf(z), z.body.teamIds, t) else [];
      assert AwardsOf(awards, t) == before + more;
      CountOfParts(before, more, x.id);
      if z.body.Award? {
        CountOfCopies(AwardOf(z), z.body.teamIds, t, x.id);
        assert ShowsAward(AwardOf(z), z);
      }
      forall a | a in AwardsOf(awards, t)
        ensures exists y | y in awards :: ShowsAward(a, y)
      {
        if a in before {
          var y :| y in awards[..last] && ShowsAward(a, y);
          assert y in awards;
        } else {
          assert a in more;
        }
      }
    }
  }

  /** A row shows each award of the store as often as the award names the team, and nothing else. */
  lemma AwardsFromStore(o: Objects, snap: ScoreboardSnapshot, row: ScoreboardRow)
    requires ProperKeys(o) && IsStandingsOf(o, snap) && row in snap.rows
    ensures
      var awards := CollectionOf(o, AwardsType);
      && (forall id | id in awards && awards[id].body.Award? ::
            AwardCount(row.awards, id) == TimesNamed(awards[id].body.teamIds, row.teamId))
      && (forall a | a in row.awards :: a.awardId in awards && ShowsAward(a, awards[a.awardId]))
  {
    hide IsSnapshot, TablesOf, AwardCount, TimesNamed, AwardsOf, ScoreOf, Place, CellsOf, NameOf, Lists;
    var v: View, cols: seq<ProbInfo>, order, first :| IsViewOf(o, v) && IsSnapshot(v, cols, order, first, snap);
    SnapshotRow(v, cols, order, first, snap, row);
    var awards := CollectionOf(o, AwardsType);
    ListingHasDistinctIds(v.awards, awards);
    forall id | id in awards && awards[id].body.Award?
      ensures AwardCount(row.awards, id) == TimesNamed(awards[id].body.teamIds, row.teamId)
    {
      ListedMembers(v.awards, awards, awards[id]);
      CountOfAwards(v.awards, row.teamId, awards[id]);
    }
    forall a | a in row.awards
      ensures a.awardId in awards && ShowsAward(a, awards[a.awardId])
    {
      CountOfAwards(v.awards, row.teamId, ContestObject("", Award(None, []), map[]));
      var y :| y in v.awards && ShowsAward(a, y);
      ListedMembers(v.awards, awards, y);
    }
  }
}
