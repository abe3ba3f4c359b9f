/** When the first-to-solve mark of a column does not depend on how accepts at one time are told apart. */
module FirstSolvers {
  import opened Types
  import opened Collections
  import opened Store
  import opened ScoreboardSpec
  import opened AccumTheorems
  import opened StandingsTheorems
  import opened ScoreboardBuilder
  import opened StoreConditions
  import opened StoreStandings

  // ---- Accepts by the store ----

  /** A team's accept in any view is the one the collections of the store give. */
  lemma AcceptOfStore(o: Objects, v: View, order: seq<Judged>, t: string, p: string)
    requires ProperKeys(o) && UndisputedStore(o) && IsViewOf(o, v)
    requires IsOrder(TablesOf(v), order) && t !in TablesOf(v).hidden
    ensures Outcome(TablesOf(v), order, t, p).solved <==> exists a :: EarliestIn(o, t, p, a)
    ensures forall a | EarliestIn(o, t, p, a) :: Outcome(TablesOf(v), order, t, p).acceptTimeMs == TimeOf(o, a)
  {
    hide TablesOf, ProperKeys, IsViewOf, UndisputedStore, IsOrder, Outcome, Of, Accepts, IsEarliestAccept, InTime,
         LatestIn, AcceptedIn;
    var tb := TablesOf(v);
    SolvedAtEarliestAccept(tb, order, t, p);
    forall a | EarliestIn(o, t, p, a)
      ensures Outcome(tb, order, t, p).solved && Outcome(tb, order, t, p).acceptTimeMs == TimeOf(o, a)
    {
      EarliestIsAccepted(o, t, p, a);
      TryInStore(o, v, a, t, p);
      var x := JudgedOf(tb, a);
      TryInView(o, v, x, t, p);
      var y := EarliestOfOutcome(tb, order, t, p);
      EarliestIsTry(tb, t, p, y);
      TryInView(o, v, y, t, p);
      EarliestInView(o, v, y, t, p);
      EarliestTimesAgree(o, t, p, a, y.id);
    }
    if Outcome(tb, order, t, p).solved {
      var y := EarliestOfOutcome(tb, order, t, p);
      EarliestInView(o, v, y, t, p);
    }
  }

  lemma EarliestIsAccepted(o: Objects, t: string, p: string, a: string)
    requires EarliestIn(o, t, p, a)
    ensures Counts(o, a) && IsTry(o, a, t, p) && AcceptedIn(o, a)
  {
  }

  lemma EarliestTimesAgree(o: Objects, t: string, p: string, a: string, b: string)
    requires EarliestIn(o, t, p, a) && EarliestIn(o, t, p, b)
    ensures TimeOf(o, a) == TimeOf(o, b)
  {
    hide Counts, IsTry, AcceptedIn, TimeOf;
  }

  lemma EarliestOfOutcome(tb: Tables, order: seq<Judged>, t: string, p: string) returns (x: Judged)
    requires tb.Typed() && IsOrder(tb, order) && t !in tb.hidden && Outcome(tb, order, t, p).solved
    ensures IsEarliestAccept(tb, t, p, x) && x.timeMs == Outcome(tb, order, t, p).acceptTimeMs
  {
    UsedAcceptIsEarliest(tb, order, t, p);
    x := Project(order, t, p)[FirstAccept(tb, Project(order, t, p))];
  }

  // ---- Marks ----

  /** Some row of team `t` carries the first-to-solve mark in the column of problem `p`. */
  ghost predicate Marks(snap: ScoreboardSnapshot, p: string, t: string) {
    exists row, x | row in snap.rows && x in row.cells ::
      row.teamId == t && x.problemId == p && x.isFirstToSolve
  }

  lemma MarkMeaning(v: View, cols: seq<ProbInfo>, order: seq<Judged>, first: map<string, string>,
                    snap: ScoreboardSnapshot, c: nat, t: string)
    requires IsSnapshot(v, cols, order, first, snap) && c < |cols|
    ensures Marks(snap, cols[c].id, t) <==> cols[c].id in first && first[cols[c].id] == t
  {
    hide TablesOf, Outcome, Place, ScoreOf, IsColumns, IsOrder, Enumerates, Sorted, RowMap;
    var tb, p := TablesOf(v), cols[c].id;
    if Marks(snap, p, t) {
      var row, x :| row in snap.rows && x in row.cells && row.teamId == t && x.problemId == p && x.isFirstToSolve;
      SnapshotRow(v, cols, order, first, snap, row);
    }
    if p in first && first[p] == t {
      assert SolvedBy(tb, order, t, p);
      ShownTeamHasRow(v, cols, order, first, snap, t);
      var i :| 0 <= i < |snap.rows| && snap.rows[i] == RowOf(tb, v.awards, cols, order, first, t);
      var x := snap.rows[i].cells[c];
      assert x == CellOf(tb, order, first, t, cols[c]) && x in snap.rows[i].cells;
    }
  }

  // ---- Another choice of first solvers ----

  lemma ChangedRows(tb: Tables, awards: seq<ContestObject>, cols: seq<ProbInfo>, order: seq<Judged>,
                    f: map<string, string>, g: map<string, string>, rows: seq<ScoreboardRow>)
    returns (other: seq<ScoreboardRow>)
    requires tb.Typed() && Sorted(rows, RowLess)
    requires forall i, j | 0 <= i < j < |rows| :: rows[i].teamId != rows[j].teamId
    requires forall i | 0 <= i < |rows| ::
               rows[i].teamId in tb.shown && rows[i] == RowOf(tb, awards, cols, order, f, rows[i].teamId)
    requires forall t | t in tb.shown :: exists i | 0 <= i < |rows| :: rows[i].teamId == t
    ensures Enumerates(other, RowMap(tb, awards, cols, order, g).Values) && Sorted(other, RowLess)
  {
    hide Place, ScoreOf, CellsOf, AwardsOf, NameOf, OrganizationIdOf, OrganizationNameOf;
    var m := RowMap(tb, awards, cols, order, g);
    var ids := seq(|rows|, i requires 0 <= i < |rows| => rows[i].teamId);
    other := seq(|rows|, i requires 0 <= i < |rows| => RowOf(tb, awards, cols, order, g, rows[i].teamId));
    forall t | t in m
      ensures t in ids
    {
      var i :| 0 <= i < |rows| && rows[i].teamId == t;
      assert ids[i] == t;
    }
    EnumeratesByKey(other, ids, m);
    forall i, j | 0 <= i < j < |other|
      ensures !RowLess(other[j], other[i])
    {
      assert !RowLess(rows[j], rows[i]);
    }
  }

  /** Other first solvers of the same accept times give other standings, with the mark moved. */
  lemma ChangeFirst(v: View, cols: seq<ProbInfo>, order: seq<Judged>, f: map<string, string>, g: map<string, string>,
                    snap: ScoreboardSnapshot) returns (other: ScoreboardSnapshot)
    requires IsSnapshot(v, cols, order, f, snap) && IsFirstSolve(TablesOf(v), order, g)
    ensures IsSnapshot(v, cols, order, g, other)
  {
    hide TablesOf, IsColumns, IsOrder, RowMap, IsFirstSolve, Enumerates, RowOf;
    var tb := TablesOf(v);
    forall i | 0 <= i < |snap.rows|
      ensures snap.rows[i].teamId in tb.shown
      ensures snap.rows[i] == RowOf(tb, v.awards, cols, order, f, snap.rows[i].teamId)
    {
      SnapshotRow(v, cols, order, f, snap, snap.rows[i]);
    }
    forall i, j | 0 <= i < j < |snap.rows|
      ensures snap.rows[i].teamId != snap.rows[j].teamId
    {
      if snap.rows[i].teamId == snap.rows[j].teamId { RowsHaveDistinctTeams(v, cols, order, f, snap, i, j); }
    }
    forall t | t in tb.shown
      ensures exists i | 0 <= i < |snap.rows| :: snap.rows[i].teamId == t
    {
      ShownTeamHasRow(v, cols, order, f, snap, t);
      var i :| 0 <= i < |snap.rows| && snap.rows[i] == RowOf(tb, v.awards, cols, order, f, t);
      RowIsOf(tb, v.awards, cols, order, f, t);
    }
    var rows := ChangedRows(tb, v.awards, cols, order, f, g, snap.rows);
    other := snap.(rows := rows);
  }

  lemma RowIsOf(tb: Tables, awards: seq<ContestObject>, cols: seq<ProbInfo>, order: seq<Judged>,
                first: map<string, string>, t: string)
    requires tb.Typed()
    ensures RowOf(tb, awards, cols, order, first, t).teamId == t
  {
  }

  /** Any shown solver at the earliest accept time can be the first. */
  lemma AnyEarliestCanBeFirst(tb: Tables, order: seq<Judged>, first: map<string, string>, p: string, u: string)
    requires tb.Typed() && IsFirstSolve(tb, order, first) && p in first && SolvedBy(tb, order, u, p)
    requires Outcome(tb, order, u, p).acceptTimeMs <= Outcome(tb, order, first[p], p).acceptTimeMs
    ensures IsFirstSolve(tb, order, first[p := u])
  {
    hide Outcome;
    forall t, q | SolvedBy(tb, order, t, q)
      ensures q in first
      ensures Outcome(tb, order, first[p := u][q], q).acceptTimeMs <= Outcome(tb, order, t, q).acceptTimeMs
    {
    }
  }

  // ---- Main result ----

  /** Team `t` alone has the least accept time on problem `p` among shown teams. */
  ghost predicate IsSoleFirst(o: Objects, p: string, t: string) {
    && t in ShownTeams(o)
    && exists a :: EarliestIn(o, t, p, a) && BeforeAllOthers(o, p, t, TimeOf(o, a))
  }

  ghost predicate BeforeAllOthers(o: Objects, p: string, t: string, timeMs: int) {
    forall u, b | u in ShownTeams(o) && u != t && EarliestIn(o, u, p, b) :: timeMs < TimeOf(o, b)
  }

  lemma SoleFirstIsMarked(o: Objects, p: string, t: string, snap: ScoreboardSnapshot)
    requires ProperKeys(o) && UndisputedStore(o) && p in ColumnProblems(o) && IsStandingsOf(o, snap)
    requires IsSoleFirst(o, p, t)
    ensures Marks(snap, p, t)
  {
    hide TablesOf, ProperKeys, IsViewOf, UndisputedStore, IsSnapshot, Outcome, InTime, LatestIn, AcceptedIn, ShownTeams,
         ColumnProblems, IsColumns, IsOrder, Marks, TimeOf;
    var v: View, cols, order, first :| IsViewOf(o, v) && IsSnapshot(v, cols, order, first, snap);
    var tb := TablesOf(v);
    SnapshotColumns(v, cols, order, first, snap);
    SnapshotFirst(v, cols, order, first, snap);
    var col := ProblemHasColumn(o, v, cols, p);
    var c :| 0 <= c < |cols| && cols[c] == col;
    MarkMeaning(v, cols, order, first, snap, c, t);
    ShownInView(o, v);
    ShownIsNotHidden(o, v, t);
    AcceptOfStore(o, v, order, t, p);
    assert SolvedBy(tb, order, t, p);
    assert p in first && SolvedBy(tb, order, first[p], p);
    if first[p] != t {
      ShownIsNotHidden(o, v, first[p]);
      AcceptOfStore(o, v, order, first[p], p);
    }
  }

  lemma SnapshotFirst(v: View, cols: seq<ProbInfo>, order: seq<Judged>, first: map<string, string>,
                      snap: ScoreboardSnapshot)
    requires IsSnapshot(v, cols, order, first, snap)
    ensures IsFirstSolve(TablesOf(v), order, first)
  {
  }

  /** If another shown team's accept is no later than that of the first solver, other standings do not mark the
      latter. */
  lemma MarkCanMove(o: Objects, v: View, cols: seq<ProbInfo>, order: seq<Judged>, first: map<string, string>,
                    snap: ScoreboardSnapshot, c: nat, t: string, u: string) returns (other: ScoreboardSnapshot)
    requires IsViewOf(o, v) && IsSnapshot(v, cols, order, first, snap) && c < |cols| && u != t
    requires cols[c].id in first && first[cols[c].id] == t && SolvedBy(TablesOf(v), order, u, cols[c].id)
    requires Outcome(TablesOf(v), order, u, cols[c].id).acceptTimeMs
             <= Outcome(TablesOf(v), order, t, cols[c].id).acceptTimeMs
    ensures IsStandingsOf(o, other) && !Marks(other, cols[c].id, t)
  {
    hide TablesOf, IsViewOf, IsSnapshot, Outcome, Marks, IsFirstSolve;
    var p := cols[c].id;
    SnapshotFirst(v, cols, order, first, snap);
    AnyEarliestCanBeFirst(TablesOf(v), order, first, p, u);
    other := ChangeFirst(v, cols, order, first, first[p := u], snap);
    MarkMeaning(v, cols, order, first[p := u], other, c, t);
  }

  lemma MarkedIsSoleFirst(o: Objects, p: string, t: string, some: ScoreboardSnapshot)
    requires ProperKeys(o) && UndisputedStore(o) && p in ColumnProblems(o) && IsStandingsOf(o, some)
    requires forall snap | IsStandingsOf(o, snap) :: Marks(snap, p, t)
    ensures IsSoleFirst(o, p, t)
  {
    hide TablesOf, ProperKeys, IsViewOf, UndisputedStore, IsSnapshot, Outcome, InTime, LatestIn, AcceptedIn, ShownTeams,
         ColumnProblems, IsColumns, IsOrder, Marks, TimeOf;
    var v: View, cols, order, first :| IsViewOf(o, v) && IsSnapshot(v, cols, order, first, some);
    var tb := TablesOf(v);
    SnapshotColumns(v, cols, order, first, some);
    SnapshotFirst(v, cols, order, first, some);
    var col := ProblemHasColumn(o, v, cols, p);
    var c :| 0 <= c < |cols| && cols[c] == col;
    MarkMeaning(v, cols, order, first, some, c, t);
    ShownInView(o, v);
    assert SolvedBy(tb, order, t, p);
    ShownIsNotHidden(o, v, t);
    AcceptOfStore(o, v, order, t, p);
    var a :| EarliestIn(o, t, p, a);
    forall u, b | u in ShownTeams(o) && u != t && EarliestIn(o, u, p, b)
      ensures TimeOf(o, a) < TimeOf(o, b)
    {
      ShownIsNotHidden(o, v, u);
      AcceptOfStore(o, v, order, u, p);
      if TimeOf(o, b) <= TimeOf(o, a) {
        var other := MarkCanMove(o, v, cols, order, first, some, c, t, u);
      }
    }
  }

  /** All standings of a store mark one team in the column of a problem, if and only if that shown team alone has the
      least accept time on it. */
  lemma FirstToSolveIsCertain(o: Objects, p: string, t: string, some: ScoreboardSnapshot)
    requires ProperKeys(o) && UndisputedStore(o) && p in ColumnProblems(o) && IsStandingsOf(o, some)
    ensures (forall snap | IsStandingsOf(o, snap) :: Marks(snap, p, t)) <==> IsSoleFirst(o, p, t)
  {
    hide IsStandingsOf, IsSoleFirst, Marks, ProperKeys, UndisputedStore, ColumnProblems;
    if IsSoleFirst(o, p, t) {
      forall snap | IsStandingsOf(o, snap)
        ensures Marks(snap, p, t)
      {
        SoleFirstIsMarked(o, p, t, snap);
      }
    }
    if forall snap | IsStandingsOf(o, snap) :: Marks(snap, p, t) {
      MarkedIsSoleFirst(o, p, t, some);
    }
  }
}
