/** What the cells, the penalty and the place of a row are, in terms of the submissions and judgements in the store. */
module CellsFromRecords {
  import opened Types
  import opened Collections
  import opened Store
  import opened ScoreboardSpec
  import opened AccumTheorems
  import opened StandingsTheorems
  import opened OrderIndependence
  import opened ScoreboardBuilder
  import opened StoreConditions
  import opened StoreStandings
  import opened FirstSolvers

  // ---- Submissions of a team on a problem ----

  /** The submissions of team `t` on problem `p` that count. */
  ghost function TriesIn(o: Objects, t: string, p: string): set<string> {
    set sid | sid in CollectionOf(o, SubmissionsType).Keys && Counts(o, sid) && IsTry(o, sid, t, p)
  }

  /** Those strictly before the earliest accept. */
  ghost function TriesBefore(o: Objects, t: string, p: string): set<string> {
    set sid | sid in TriesIn(o, t, p) && forall a | EarliestIn(o, t, p, a) :: TimeOf(o, sid) < TimeOf(o, a)
  }

  /** The rejected ones that carry a penalty, strictly before the earliest accept. */
  ghost function PenalizedBefore(o: Objects, t: string, p: string): set<string> {
    set sid | sid in TriesBefore(o, t, p) && !AcceptedIn(o, sid) && PenalizedIn(o, sid)
  }

  /** No rejected submission of the team on the problem has the contest time of the earliest accept. */
  ghost predicate NoRejectTied(o: Objects, t: string, p: string) {
    forall a, b | EarliestIn(o, t, p, a) && b in TriesIn(o, t, p) && !AcceptedIn(o, b) :: TimeOf(o, a) != TimeOf(o, b)
  }

  lemma {:induction false} SameSizeById(xs: set<Judged>, ids: set<string>)
    requires forall x | x in xs :: x.id in ids
    requires forall id | id in ids :: exists x | x in xs :: x.id == id
    requires forall x, y | x in xs && y in xs && x.id == y.id :: x == y
    ensures |xs| == |ids|
    decreases ids
  {
    if ids == {} {
      assert xs == {};
    } else {
      var id :| id in ids;
      var x :| x in xs && x.id == id;
      forall i | i in ids - {id}
        ensures exists y | y in xs - {x} :: y.id == i
      {
        var y :| y in xs && y.id == i;
        assert y in xs - {x};
      }
      SameSizeById(xs - {x}, ids - {id});
    }
  }

  /** A set of judged submissions of a view and the set of their ids. */
  lemma SameSizeInView(o: Objects, v: View, t: string, p: string, xs: set<Judged>, ids: set<string>)
    requires ProperKeys(o) && IsViewOf(o, v)
    requires xs <= Of(TablesOf(v), t, p) && ids <= TriesIn(o, t, p)
    requires forall x | x in Of(TablesOf(v), t, p) :: x in xs <==> x.id in ids
    ensures |xs| == |ids|
  {
    hide TablesOf, ProperKeys, IsViewOf, InTime, LatestIn, Of;
    forall id | id in ids
      ensures exists x | x in xs :: x.id == id
    {
      TryInStore(o, v, id, t, p);
      var y := JudgedOf(TablesOf(v), id);
      TryInView(o, v, y, t, p);
      assert y in xs && y.id == id;
    }
    forall x, y | x in xs && y in xs && x.id == y.id
      ensures x == y
    {
      TryInView(o, v, x, t, p);
      TryInView(o, v, y, t, p);
    }
    SameSizeById(xs, ids);
  }

  lemma TryIsIn(o: Objects, v: View, x: Judged, t: string, p: string)
    requires ProperKeys(o) && IsViewOf(o, v) && x in Of(TablesOf(v), t, p)
    ensures x.id in TriesIn(o, t, p) && TimeOf(o, x.id) == x.timeMs
  {
    hide TablesOf, ProperKeys, IsViewOf, LatestIn, Of;
    TryInView(o, v, x, t, p);
  }

  // ---- Sizes of sets of submissions ----

  lemma TriesSize(o: Objects, v: View, t: string, p: string)
    requires ProperKeys(o) && IsViewOf(o, v)
    ensures |Of(TablesOf(v), t, p)| == |TriesIn(o, t, p)|
  {
    hide TablesOf, ProperKeys, IsViewOf, InTime, LatestIn, Of, TriesIn;
    forall x | x in Of(TablesOf(v), t, p)
      ensures x.id in TriesIn(o, t, p)
    {
      TryIsIn(o, v, x, t, p);
    }
    SameSizeInView(o, v, t, p, Of(TablesOf(v), t, p), TriesIn(o, t, p));
  }

  /** The submissions before the earliest accept `a`. */
  lemma TriesBeforeSize(o: Objects, v: View, t: string, p: string, a: string)
    requires ProperKeys(o) && IsViewOf(o, v) && EarliestIn(o, t, p, a)
    ensures |set x | x in Of(TablesOf(v), t, p) && x.timeMs < TimeOf(o, a)| == |TriesBefore(o, t, p)|
  {
    hide TablesOf, ProperKeys, IsViewOf, InTime, LatestIn, Of, TriesIn, AcceptedIn;
    var xs := set x | x in Of(TablesOf(v), t, p) && x.timeMs < TimeOf(o, a);
    forall x | x in Of(TablesOf(v), t, p)
      ensures x in xs <==> x.id in TriesBefore(o, t, p)
    {
      TryIsIn(o, v, x, t, p);
      forall b | EarliestIn(o, t, p, b) { EarliestTimesAgree(o, t, p, a, b); }
    }
    SameSizeInView(o, v, t, p, xs, TriesBefore(o, t, p));
  }

  lemma PenalizedBeforeSize(o: Objects, v: View, t: string, p: string, a: string)
    requires ProperKeys(o) && IsViewOf(o, v) && UndisputedStore(o) && EarliestIn(o, t, p, a)
    ensures |set x | x in Of(TablesOf(v), t, p) && IsPenaltyReject(TablesOf(v), x) && x.timeMs < TimeOf(o, a)|
            == |PenalizedBefore(o, t, p)|
  {
    hide TablesOf, ProperKeys, IsViewOf, InTime, LatestIn, Of, TriesIn, AcceptedIn, PenalizedIn, UndisputedStore,
         Accepts,
         Penalizes;
    var tb := TablesOf(v);
    var xs := set x | x in Of(tb, t, p) && IsPenaltyReject(tb, x) && x.timeMs < TimeOf(o, a);
    forall x | x in Of(tb, t, p)
      ensures x in xs <==> x.id in PenalizedBefore(o, t, p)
    {
      TryIsIn(o, v, x, t, p);
      TryInView(o, v, x, t, p);
      forall b | EarliestIn(o, t, p, b) { EarliestTimesAgree(o, t, p, a, b); }
    }
    SameSizeInView(o, v, t, p, xs, PenalizedBefore(o, t, p));
  }

  // ---- Cells ----

  lemma NoRejectTiedInView(o: Objects, v: View, t: string, p: string)
    requires ProperKeys(o) && IsViewOf(o, v) && UndisputedStore(o) && NoRejectTied(o, t, p)
    ensures NoRejectAtAccept(TablesOf(v), t, p)
  {
    hide TablesOf, ProperKeys, IsViewOf, InTime, LatestIn, Of, TriesIn, AcceptedIn, UndisputedStore, Accepts;
    forall i, j | IsEarliestAccept(TablesOf(v), t, p, i) && j in Of(TablesOf(v), t, p)
        && !Accepts(TablesOf(v), j.verdict)
      ensures i.timeMs != j.timeMs
    {
      EarliestInView(o, v, i, t, p);
      EarliestIsTry(TablesOf(v), t, p, i);
      TryIsIn(o, v, i, t, p);
      TryIsIn(o, v, j, t, p);
      TryInView(o, v, j, t, p);
    }
  }

  /** A cell is solved exactly if the team has an earliest accept on the problem, and then shows its minutes and,
      unless a reject ties with it, one attempt more than there are submissions before it; any other cell shows no
      time and all submissions that count, and is failed exactly if there are any. */
  lemma CellFromStore(o: Objects, snap: ScoreboardSnapshot, row: ScoreboardRow, x: ProblemResultCell)
    requires ProperKeys(o) && UndisputedStore(o) && IsStandingsOf(o, snap) && row in snap.rows && x in row.cells
    ensures
      var t, p := row.teamId, x.problemId;
      && (x.status == Solved <==> exists a :: EarliestIn(o, t, p, a))
      && (forall a | EarliestIn(o, t, p, a) :: x.timeMinutes == TruncDiv(TimeOf(o, a), 60000))
      && (x.status == Solved && NoRejectTied(o, t, p) ==> x.attempts == 1 + |TriesBefore(o, t, p)|)
      && (x.status != Solved ==> x.timeMinutes == 0 && x.attempts == |TriesIn(o, t, p)|)
      && (x.status == Failed ==> x.attempts > 0) && (x.status == Empty ==> x.attempts == 0)
  {
    hide TablesOf, ProperKeys, IsViewOf, UndisputedStore, IsSnapshot, Outcome, EarliestIn, IsOrder, IsColumns, TimeOf,
         Of,
         TriesIn, TriesBefore, TruncDiv, NoRejectTied, ShownTeams;
    var v: View, cols: seq<ProbInfo>, order, first :| IsViewOf(o, v) && IsSnapshot(v, cols, order, first, snap);
    var t, p := row.teamId, x.problemId;
    SnapshotColumns(v, cols, order, first, snap);
    SnapshotRow(v, cols, order, first, snap, row);
    SnapshotCell(v, cols, order, first, snap, row, x);
    ShownInView(o, v);
    ShownIsNotHidden(o, v, t);
    AcceptOfStore(o, v, order, t, p);
    if x.status == Solved {
      var a :| EarliestIn(o, t, p, a);
      if NoRejectTied(o, t, p) {
        NoRejectTiedInView(o, v, t, p);
        SolvedCounts(TablesOf(v), order, t, p);
        TriesBeforeSize(o, v, t, p, a);
      }
    } else {
      UnsolvedCounts(TablesOf(v), order, t, p);
      TriesSize(o, v, t, p);
    }
  }

  // ---- Penalty ----

  /** A solved cell adds its minutes, and the penalty minutes of the contest for each penalized reject before the
      accept. */
  ghost function CellPenalty(o: Objects, penaltyMinutes: int, t: string, x: ProblemResultCell): int {
    if x.status == Solved then x.timeMinutes + penaltyMinutes * |PenalizedBefore(o, t, x.problemId)| else 0
  }

  lemma PenaltyOfCell(o: Objects, v: View, order: seq<Judged>, first: map<string, string>, t: string, c: ProbInfo)
    requires ProperKeys(o) && UndisputedStore(o) && IsViewOf(o, v) && IsOrder(TablesOf(v), order)
    requires t in ShownTeams(o) && NoPenaltyAtAccept(TablesOf(v), t, c.id)
    ensures PenaltyIn(TablesOf(v), order, t, c) ==
            CellPenalty(o, TablesOf(v).penaltyMinutes, t, CellOf(TablesOf(v), order, first, t, c))
  {
    hide TablesOf, ProperKeys, IsViewOf, UndisputedStore, EarliestIn, IsOrder, Of, PenalizedBefore, TruncDiv,
         ShownTeams,
         NoPenaltyAtAccept, TimeOf, Outcome, IsPenaltyReject;
    var tb := TablesOf(v);
    ShownIsNotHidden(o, v, t);
    AcceptOfStore(o, v, order, t, c.id);
    var a := Outcome(tb, order, t, c.id);
    if a.solved {
      var sid :| EarliestIn(o, t, c.id, sid);
      SolvedPenalties(tb, order, t, c.id);
      PenalizedBeforeSize(o, v, t, c.id, sid);
      Commutes(a.penaltyAttempts - 1, tb.penaltyMinutes);
    }
  }

  lemma Commutes(a: int, b: int)
    ensures a * b == b * a
  {
  }

  /** Without penalized rejects tied with accepts, the penalty of a row is the sum over its solved cells of the
      minutes and the penalty for each penalized reject before the accept. */
  lemma PenaltyFromStore(o: Objects, snap: ScoreboardSnapshot, row: ScoreboardRow)
    requires ProperKeys(o) && UndisputedStore(o) && NoTiedPenaltiesIn(o) && IsStandingsOf(o, snap) && row in snap.rows
    ensures row.penalty ==
            Sum((x: ProblemResultCell) => CellPenalty(o, snap.penaltyTimeMinutes, row.teamId, x), row.cells)
  {
    hide TablesOf, ProperKeys, IsViewOf, UndisputedStore, IsSnapshot, IsOrder, IsColumns, ShownTeams, NoTiedPenaltiesIn,
         NoPenaltyAtAccept, PenaltyIn, CellPenalty, CellOf, Place, Sum, AwardsOf;
    var v: View, cols: seq<ProbInfo>, order, first :| IsViewOf(o, v) && IsSnapshot(v, cols, order, first, snap);
    var tb, t := TablesOf(v), row.teamId;
    SnapshotColumns(v, cols, order, first, snap);
    SnapshotRow(v, cols, order, first, snap, row);
    SnapshotMinutes(v, cols, order, first, snap);
    ShownInView(o, v);
    NoTiedPenaltiesInView(o, v, cols);
    forall i | 0 <= i < |cols|
      ensures PenaltyIn(tb, order, t, cols[i]) == CellPenalty(o, snap.penaltyTimeMinutes, t, row.cells[i])
    {
      assert cols[i] in cols;
      PenaltyOfCell(o, v, order, first, t, cols[i]);
    }
    SumOfMatchingTerms((c: ProbInfo) => PenaltyIn(tb, order, t, c),
                       (x: ProblemResultCell) => CellPenalty(o, snap.penaltyTimeMinutes, t, x), cols, row.cells);
  }

  lemma SnapshotMinutes(v: View, cols: seq<ProbInfo>, order: seq<Judged>, first: map<string, string>,
                        snap: ScoreboardSnapshot)
    requires IsSnapshot(v, cols, order, first, snap)
    ensures snap.penaltyTimeMinutes == TablesOf(v).penaltyMinutes
  {
  }

  // ---- Places and order ----

  /** The rows with more solved problems, or as many and a smaller penalty. */
  function BetterRows(rows: seq<ScoreboardRow>, row: ScoreboardRow): set<nat> {
    set n: nat | n < |rows| && (rows[n].solved > row.solved
                                || (rows[n].solved == row.solved && rows[n].penalty < row.penalty))
  }

  lemma PrefixSize(s: set<nat>, k: nat)
    requires forall n: nat :: n in s <==> n < k
    ensures |s| == k
  {
    var ids := seq(k, n requires 0 <= n < k => n);
    assert forall n | 0 <= n < k :: ids[n] == n;
    forall n: nat | n in s
      ensures n in ids
    {
      assert ids[n] == n;
    }
    EnumerationSize(ids, s);
  }

  /** A place is one more than the number of better rows. */
  lemma PlaceCountsBetterRows(o: Objects, snap: ScoreboardSnapshot, i: nat)
    requires IsStandingsOf(o, snap) && i < |snap.rows|
    ensures snap.rows[i].place == 1 + |BetterRows(snap.rows, snap.rows[i])|
  {
    hide TablesOf, IsViewOf, IsOrder, IsColumns, IsFirstSolve, RowMap, Enumerates, ScoreOf;
    var v: View, cols: seq<ProbInfo>, order, first :| IsViewOf(o, v) && IsSnapshot(v, cols, order, first, snap);
    var k := FirstWithScore(snap.rows, i);
    RowScore(v, cols, order, first, snap, snap.rows[i]);
    AheadIsPrefix(v, cols, order, first, snap, ScoreIn(snap.rows[i]), k);
    forall n: nat
      ensures n in BetterRows(snap.rows, snap.rows[i]) <==> n < k
    {
      if n < |snap.rows| {
        assert Better(ScoreIn(snap.rows[n]), ScoreIn(snap.rows[i])) <==> n < k;
      }
    }
    PrefixSize(BetterRows(snap.rows, snap.rows[i]), k);
  }

  /** Rows run by solved problems, most first, then by penalty, least first, then by name. */
  lemma RowsInOrder(o: Objects, snap: ScoreboardSnapshot, i: nat, j: nat)
    requires IsStandingsOf(o, snap) && i < j < |snap.rows|
    ensures
      var a, b := snap.rows[i], snap.rows[j];
      a.solved > b.solved
      || (a.solved == b.solved
          && (a.penalty < b.penalty || (a.penalty == b.penalty && !StrLess(b.teamName, a.teamName))))
  {
    hide TablesOf, IsViewOf, IsOrder, IsColumns, IsFirstSolve, RowMap, Enumerates;
    var v: View, cols: seq<ProbInfo>, order, first :| IsViewOf(o, v) && IsSnapshot(v, cols, order, first, snap);
    assert !RowLess(snap.rows[j], snap.rows[i]);
  }

  /** A row has one cell per column, in the order of the columns, with its problem and title. */
  lemma CellsMatchColumns(o: Objects, snap: ScoreboardSnapshot, row: ScoreboardRow)
    requires IsStandingsOf(o, snap) && row in snap.rows
    ensures |row.cells| == |snap.problems|
    ensures forall i | 0 <= i < |row.cells| ::
              row.cells[i].problemId == snap.problems[i].problemId && row.cells[i].title == snap.problems[i].title
  {
    hide TablesOf, IsViewOf, IsOrder, IsColumns, IsFirstSolve, RowMap, Enumerates, Sorted, Outcome, Place, ScoreOf,
         AwardsOf;
    var v: View, cols: seq<ProbInfo>, order, first :| IsViewOf(o, v) && IsSnapshot(v, cols, order, first, snap);
    SnapshotRow(v, cols, order, first, snap, row);
  }
}
