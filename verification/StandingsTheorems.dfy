/** Properties of whole standings: rows and cells, places and the order of rows, first solvers. */
module StandingsTheorems {
  import opened Types
  import opened Collections
  import opened ScoreboardSpec
  import opened AccumTheorems

  // ---- Rows of a snapshot ----

  lemma SnapshotRow(v: View, cols: seq<ProbInfo>, order: seq<Judged>, first: map<string, string>,
                    snap: ScoreboardSnapshot, row: ScoreboardRow)
    requires IsSnapshot(v, cols, order, first, snap) && row in snap.rows
    ensures row.teamId in TablesOf(v).shown
    ensures row == RowOf(TablesOf(v), v.awards, cols, order, first, row.teamId)
  {
    assert row in RowMap(TablesOf(v), v.awards, cols, order, first).Values;
  }

  /** A cell shows the outcome of its team on its problem. */
  predicate ShowsOutcome(x: ProblemResultCell, a: ProblemAccum) {
    && x.attempts == a.numJudged
    && x.status == (if a.solved then Solved else if a.numJudged > 0 then Failed else Empty)
    && x.timeMinutes == (if a.solved then TruncDiv(a.acceptTimeMs, 60000) else 0)
  }

  lemma CellShowsOutcome(tb: Tables, order: seq<Judged>, first: map<string, string>, t: string, cols: seq<ProbInfo>,
                         x: ProblemResultCell)
    requires tb.Typed() && x in CellsOf(tb, order, first, t, cols)
    ensures ShowsOutcome(x, Outcome(tb, order, t, x.problemId))
    ensures exists c | c in cols :: c.id == x.problemId
  {
    var i :| 0 <= i < |cols| && x == CellOf(tb, order, first, t, cols[i]);
    assert cols[i] in cols;
  }

  lemma SnapshotCell(v: View, cols: seq<ProbInfo>, order: seq<Judged>, first: map<string, string>,
                     snap: ScoreboardSnapshot, row: ScoreboardRow, x: ProblemResultCell)
    requires IsSnapshot(v, cols, order, first, snap) && row in snap.rows && x in row.cells
    ensures ShowsOutcome(x, Outcome(TablesOf(v), order, row.teamId, x.problemId))
  {
    SnapshotRow(v, cols, order, first, snap, row);
    CellShowsOutcome(TablesOf(v), order, first, row.teamId, cols, x);
  }

  function IsSolved(x: ProblemResultCell): int {
    if x.status == Solved then 1 else 0
  }

  /** The solved count of a row is the number of its solved cells, one cell per column in the order of the columns. */
  lemma SolvedIsNumberOfSolvedCells(v: View, cols: seq<ProbInfo>, order: seq<Judged>, first: map<string, string>,
                                    snap: ScoreboardSnapshot, row: ScoreboardRow)
    requires IsSnapshot(v, cols, order, first, snap) && row in snap.rows
    ensures row.solved == Sum(IsSolved, row.cells)
    ensures |row.cells| == |snap.problems|
    ensures forall i | 0 <= i < |row.cells| :: row.cells[i].problemId == snap.problems[i].problemId
  {
    hide TablesOf, Outcome, Place, Sum, AwardsOf, Enumerates, Sorted, IsColumns, IsOrder, IsFirstSolve;
    var tb, t := TablesOf(v), row.teamId;
    SnapshotRow(v, cols, order, first, snap, row);
    SumOfMatchingTerms((c: ProbInfo) => SolvedIn(tb, order, t, c), IsSolved, cols, row.cells);
  }

  lemma ShownTeamHasRow(v: View, cols: seq<ProbInfo>, order: seq<Judged>, first: map<string, string>,
                        snap: ScoreboardSnapshot, t: string)
    requires IsSnapshot(v, cols, order, first, snap) && t in TablesOf(v).shown
    ensures exists i | 0 <= i < |snap.rows| :: snap.rows[i] == RowOf(TablesOf(v), v.awards, cols, order, first, t)
  {
    var rows := RowMap(TablesOf(v), v.awards, cols, order, first);
    assert t in rows;
    assert rows[t] in rows.Values;
  }

  lemma RowsHaveDistinctTeams(v: View, cols: seq<ProbInfo>, order: seq<Judged>, first: map<string, string>,
                              snap: ScoreboardSnapshot, i: nat, j: nat)
    requires IsSnapshot(v, cols, order, first, snap)
    requires i < |snap.rows| && j < |snap.rows| && snap.rows[i].teamId == snap.rows[j].teamId
    ensures i == j
  {
    SnapshotRow(v, cols, order, first, snap, snap.rows[i]);
    SnapshotRow(v, cols, order, first, snap, snap.rows[j]);
    assert snap.rows[i] == snap.rows[j];
  }

  // ---- Places ----

  lemma RowScore(v: View, cols: seq<ProbInfo>, order: seq<Judged>, first: map<string, string>,
                 snap: ScoreboardSnapshot, row: ScoreboardRow)
    requires IsSnapshot(v, cols, order, first, snap) && row in snap.rows
    ensures ScoreIn(row) == ScoreOf(TablesOf(v), order, cols, row.teamId)
    ensures row.place == 1 + |Ahead(TablesOf(v), order, cols, ScoreIn(row))|
  {
    SnapshotRow(v, cols, order, first, snap, row);
  }

  /** If exactly the first k rows are better than `s`, then k shown teams are ahead of `s`. */
  lemma AheadIsPrefix(v: View, cols: seq<ProbInfo>, order: seq<Judged>, first: map<string, string>,
                      snap: ScoreboardSnapshot, s: Score, k: nat)
    requires IsSnapshot(v, cols, order, first, snap) && k <= |snap.rows|
    requires forall n | 0 <= n < |snap.rows| :: Better(ScoreIn(snap.rows[n]), s) <==> n < k
    ensures |Ahead(TablesOf(v), order, cols, s)| == k
  {
    var tb, rows := TablesOf(v), snap.rows;
    var ids := seq(k, n requires 0 <= n < k => rows[n].teamId);
    forall n, m | 0 <= n < m < k
      ensures ids[n] != ids[m]
    {
      if ids[n] == ids[m] { RowsHaveDistinctTeams(v, cols, order, first, snap, n, m); }
    }
    forall n | 0 <= n < k
      ensures ids[n] in Ahead(tb, order, cols, s)
    {
      SnapshotRow(v, cols, order, first, snap, rows[n]);
      RowScore(v, cols, order, first, snap, rows[n]);
    }
    forall u | u in Ahead(tb, order, cols, s)
      ensures u in ids
    {
      ShownTeamHasRow(v, cols, order, first, snap, u);
      var n :| 0 <= n < |rows| && rows[n] == RowOf(tb, v.awards, cols, order, first, u);
      assert n < k && ids[n] == u;
    }
    EnumerationSize(ids, Ahead(tb, order, cols, s));
  }

  /** Places run with the rows: a place is one more than the position of the first row with the same score,
      so equal scores share a place and the place after a group skips the group. */
  lemma PlaceIsFirstPosition(v: View, cols: seq<ProbInfo>, order: seq<Judged>, first: map<string, string>,
                             snap: ScoreboardSnapshot, i: nat)
    requires IsSnapshot(v, cols, order, first, snap) && i < |snap.rows|
    ensures exists k | 0 <= k <= i ::
              && snap.rows[i].place == k + 1
              && ScoreIn(snap.rows[k]) == ScoreIn(snap.rows[i])
              && (forall n | 0 <= n < k :: Better(ScoreIn(snap.rows[n]), ScoreIn(snap.rows[i])))
  {
    var k := FirstWithScore(snap.rows, i);
    RowScore(v, cols, order, first, snap, snap.rows[i]);
    AheadIsPrefix(v, cols, order, first, snap, ScoreIn(snap.rows[i]), k);
  }

  /** The start of the group of rows that tie with row i. */
  lemma {:induction false} FirstWithScore(rows: seq<ScoreboardRow>, i: nat) returns (k: nat)
    requires i < |rows| && Sorted(rows, RowLess)
    ensures k <= i && ScoreIn(rows[k]) == ScoreIn(rows[i])
    ensures forall n | 0 <= n < k :: Better(ScoreIn(rows[n]), ScoreIn(rows[i]))
    ensures forall n | k <= n < |rows| :: !Better(ScoreIn(rows[n]), ScoreIn(rows[i]))
  {
    if i == 0 || ScoreIn(rows[i - 1]) != ScoreIn(rows[i]) {
      k := i;
      forall n | 0 <= n < i
        ensures Better(ScoreIn(rows[n]), ScoreIn(rows[i]))
      {
        assert !RowLess(rows[i], rows[i - 1]);
        assert n == i - 1 || !RowLess(rows[i - 1], rows[n]);
      }
      forall n | i <= n < |rows|
        ensures !Better(ScoreIn(rows[n]), ScoreIn(rows[i]))
      {
        assert n == i || !RowLess(rows[n], rows[i]);
      }
    } else {
      k := FirstWithScore(rows, i - 1);
    }
  }

  /** Rows run by place, and by team name within a place; two rows share a place exactly if they have one score. */
  lemma RowsRunByPlaceThenName(v: View, cols: seq<ProbInfo>, order: seq<Judged>, first: map<string, string>,
                               snap: ScoreboardSnapshot, i: nat, j: nat)
    requires IsSnapshot(v, cols, order, first, snap) && i < j < |snap.rows|
    ensures snap.rows[i].place <= snap.rows[j].place
    ensures snap.rows[i].place == snap.rows[j].place <==> ScoreIn(snap.rows[i]) == ScoreIn(snap.rows[j])
    ensures snap.rows[i].place == snap.rows[j].place ==> !StrLess(snap.rows[j].teamName, snap.rows[i].teamName)
  {
    hide TablesOf, IsOrder, IsFirstSolve, IsColumns, RowMap, ScoreOf, Enumerates;
    var a, b := snap.rows[i], snap.rows[j];
    assert !RowLess(b, a);
    RowScore(v, cols, order, first, snap, a);
    RowScore(v, cols, order, first, snap, b);
    if ScoreIn(a) != ScoreIn(b) {
      SnapshotRow(v, cols, order, first, snap, a);
      BetterHasFewerAhead(TablesOf(v), order, cols, a.teamId, ScoreIn(a), ScoreIn(b));
    }
  }

  lemma BetterHasFewerAhead(tb: Tables, order: seq<Judged>, cols: seq<ProbInfo>, t: string, a: Score, b: Score)
    requires tb.Typed() && t in tb.shown && a == ScoreOf(tb, order, cols, t) && Better(a, b)
    ensures |Ahead(tb, order, cols, a)| < |Ahead(tb, order, cols, b)|
  {
    hide ScoreOf;
    SubsetIsNotLarger(Ahead(tb, order, cols, a) + {t}, Ahead(tb, order, cols, b));
  }

  /** A solved cell shows the whole minutes before the accept, rounded down, exactly if the accept is not before the
      start of the contest or falls on a whole minute; otherwise it is rounded toward zero. */
  lemma SolveMinutesAreRoundedDown(x: ProblemResultCell, a: ProblemAccum)
    requires ShowsOutcome(x, a) && a.solved
    ensures x.timeMinutes * 60000 <= a.acceptTimeMs < (x.timeMinutes + 1) * 60000 <==>
            0 <= a.acceptTimeMs || a.acceptTimeMs % 60000 == 0
  {
  }

  /** An accept half a minute before the start: shown at minute 0, although it lies in minute -1. */
  lemma EarlyAcceptIsRoundedUp(c: ProbInfo, isFirst: bool)
    ensures
      var a := ProblemAccum(1, 1, true, -30000);
      var minutes := CellFrom(a, c, isFirst).timeMinutes;
      minutes == 0 && !(minutes * 60000 <= a.acceptTimeMs)
  {
  }

  // ---- First to solve ----

  /** Row i carries the first-to-solve mark in column c. */
  predicate Flagged(snap: ScoreboardSnapshot, i: nat, c: nat)
    requires i < |snap.rows|
  {
    c < |snap.rows[i].cells| && snap.rows[i].cells[c].isFirstToSolve
  }

  lemma FlagMeaning(v: View, cols: seq<ProbInfo>, order: seq<Judged>, first: map<string, string>,
                    snap: ScoreboardSnapshot, i: nat, c: nat)
    requires IsSnapshot(v, cols, order, first, snap) && c < |cols| && i < |snap.rows|
    ensures Flagged(snap, i, c) <==> cols[c].id in first && first[cols[c].id] == snap.rows[i].teamId
  {
    hide Outcome, AccumOf, TablesOf, Place, ScoreOf, IsColumns, IsOrder, Enumerates, Sorted;
    var tb := TablesOf(v);
    SnapshotRow(v, cols, order, first, snap, snap.rows[i]);
    assert snap.rows[i].cells[c] == CellOf(tb, order, first, snap.rows[i].teamId, cols[c]);
    assert cols[c].id in first ==> SolvedBy(tb, order, first[cols[c].id], cols[c].id);
  }

  /** In each column at most one row is marked; one is marked exactly if a shown team solved the problem. */
  lemma FirstToSolveIsUnique(v: View, cols: seq<ProbInfo>, order: seq<Judged>, first: map<string, string>,
                             snap: ScoreboardSnapshot, c: nat)
    requires IsSnapshot(v, cols, order, first, snap) && c < |cols|
    ensures forall i, j | 0 <= i < |snap.rows| && 0 <= j < |snap.rows| && Flagged(snap, i, c) && Flagged(snap, j, c) ::
              i == j
    ensures (exists i | 0 <= i < |snap.rows| :: Flagged(snap, i, c)) <==>
            (exists t :: SolvedBy(TablesOf(v), order, t, cols[c].id))
  {
    var tb, p := TablesOf(v), cols[c].id;
    forall i, j | 0 <= i < |snap.rows| && 0 <= j < |snap.rows| && Flagged(snap, i, c) && Flagged(snap, j, c)
      ensures i == j
    {
      FlagMeaning(v, cols, order, first, snap, i, c);
      FlagMeaning(v, cols, order, first, snap, j, c);
      RowsHaveDistinctTeams(v, cols, order, first, snap, i, j);
    }
    if p in first {
      assert SolvedBy(tb, order, first[p], p);
      ShownTeamHasRow(v, cols, order, first, snap, first[p]);
      var i :| 0 <= i < |snap.rows| && snap.rows[i] == RowOf(tb, v.awards, cols, order, first, first[p]);
      FlagMeaning(v, cols, order, first, snap, i, c);
      assert Flagged(snap, i, c);
    } else {
      forall i | 0 <= i < |snap.rows|
        ensures !Flagged(snap, i, c)
      {
        FlagMeaning(v, cols, order, first, snap, i, c);
      }
    }
  }

  /** The marked team solved the problem, and no shown team has an earlier accept on it. */
  lemma FirstToSolveIsEarliest(v: View, cols: seq<ProbInfo>, order: seq<Judged>, first: map<string, string>,
                               snap: ScoreboardSnapshot, c: nat, i: nat, t: string)
    requires IsSnapshot(v, cols, order, first, snap) && c < |cols|
    requires i < |snap.rows| && Flagged(snap, i, c)
    ensures SolvedBy(TablesOf(v), order, snap.rows[i].teamId, cols[c].id)
    ensures SolvedBy(TablesOf(v), order, t, cols[c].id) ==>
            Outcome(TablesOf(v), order, snap.rows[i].teamId, cols[c].id).acceptTimeMs
            <= Outcome(TablesOf(v), order, t, cols[c].id).acceptTimeMs
  {
    FlagMeaning(v, cols, order, first, snap, i, c);
  }
}
