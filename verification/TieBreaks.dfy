/** Rows of equal score stand in the order of their team names; when that is the documented order of team ids. */
module TieBreaks {
  import opened Types
  import opened Collections
  import opened ScoreboardSpec
  import opened StandingsTheorems

  /** Among equal scores, no row stands before one with a smaller team id. */
  ghost predicate RowsFollowIds(snap: ScoreboardSnapshot) {
    forall i, j | 0 <= i < j < |snap.rows| && ScoreIn(snap.rows[i]) == ScoreIn(snap.rows[j]) ::
      !StrLess(snap.rows[j].teamId, snap.rows[i].teamId)
  }

  /** Shown teams of equal score have names in the order of their ids, and no two names are equal. */
  ghost predicate NamesFollowIds(tb: Tables, order: seq<Judged>, cols: seq<ProbInfo>)
    requires tb.Typed()
  {
    forall t, u | t in tb.shown && u in tb.shown && StrLess(u, t)
                  && ScoreOf(tb, order, cols, t) == ScoreOf(tb, order, cols, u) ::
      StrLess(NameOf(tb, u), NameOf(tb, t))
  }

  lemma RowFacts(v: View, cols: seq<ProbInfo>, order: seq<Judged>, first: map<string, string>,
                 snap: ScoreboardSnapshot, i: nat)
    requires IsSnapshot(v, cols, order, first, snap) && i < |snap.rows|
    ensures
      var tb, row := TablesOf(v), snap.rows[i];
      && row.teamId in tb.shown && row.teamName == NameOf(tb, row.teamId)
      && ScoreIn(row) == ScoreOf(tb, order, cols, row.teamId)
  {
    SnapshotRow(v, cols, order, first, snap, snap.rows[i]);
    RowScore(v, cols, order, first, snap, snap.rows[i]);
  }

  lemma RowsAreSorted(v: View, cols: seq<ProbInfo>, order: seq<Judged>, first: map<string, string>,
                      snap: ScoreboardSnapshot, i: nat, j: nat)
    requires IsSnapshot(v, cols, order, first, snap) && i < j < |snap.rows|
    ensures !RowLess(snap.rows[j], snap.rows[i])
  {
  }

  lemma NamesDecide(v: View, cols: seq<ProbInfo>, order: seq<Judged>, first: map<string, string>,
                    snap: ScoreboardSnapshot)
    requires IsSnapshot(v, cols, order, first, snap) && NamesFollowIds(TablesOf(v), order, cols)
    ensures RowsFollowIds(snap)
  {
    hide IsSnapshot, TablesOf, ScoreOf, NameOf;
    forall i, j | 0 <= i < j < |snap.rows| && ScoreIn(snap.rows[i]) == ScoreIn(snap.rows[j])
      ensures !StrLess(snap.rows[j].teamId, snap.rows[i].teamId)
    {
      RowFacts(v, cols, order, first, snap, i);
      RowFacts(v, cols, order, first, snap, j);
      RowsAreSorted(v, cols, order, first, snap, i, j);
    }
  }

  /** Rows that the comparator cannot tell apart. */
  predicate SameKey(a: ScoreboardRow, b: ScoreboardRow) {
    a.solved == b.solved && a.penalty == b.penalty && a.teamName == b.teamName
  }

  function Swapped<T>(s: seq<T>, i: nat, j: nat): seq<T>
    requires i < j < |s|
  {
    s[i := s[j]][j := s[i]]
  }

  /** Two such rows may stand in either order. */
  lemma SwapRows(v: View, cols: seq<ProbInfo>, order: seq<Judged>, first: map<string, string>,
                 snap: ScoreboardSnapshot, i: nat, j: nat)
    requires IsSnapshot(v, cols, order, first, snap) && i < j < |snap.rows| && SameKey(snap.rows[i], snap.rows[j])
    ensures IsSnapshot(v, cols, order, first, snap.(rows := Swapped(snap.rows, i, j)))
  {
    hide TablesOf, IsOrder, IsFirstSolve, IsColumns, RowMap, Enumerates;
    var rows, rows' := snap.rows, Swapped(snap.rows, i, j);
    assert multiset(rows') == multiset(rows);
    ReorderedEnumerates(rows, rows', RowMap(TablesOf(v), v.awards, cols, order, first).Values);
    SwappedIsSorted(rows, i, j);
  }

  lemma SwappedIsSorted(rows: seq<ScoreboardRow>, i: nat, j: nat)
    requires i < j < |rows| && SameKey(rows[i], rows[j]) && Sorted(rows, RowLess)
    ensures Sorted(Swapped(rows, i, j), RowLess)
  {
    var rows' := Swapped(rows, i, j);
    forall m, n | 0 <= m < n < |rows|
      ensures !RowLess(rows'[n], rows'[m])
    {
      assert SameKey(rows'[m], rows[m]) && SameKey(rows'[n], rows[n]);
      assert !RowLess(rows[n], rows[m]);
    }
  }

  /** Names against ids give standings against ids: the row of `t` stands, or can stand, before that of `u`. */
  lemma IdsCanBeViolated(v: View, cols: seq<ProbInfo>, order: seq<Judged>, first: map<string, string>,
                         snap: ScoreboardSnapshot, t: string, u: string) returns (other: ScoreboardSnapshot)
    requires IsSnapshot(v, cols, order, first, snap)
    requires
      var tb := TablesOf(v);
      && t in tb.shown && u in tb.shown && ScoreOf(tb, order, cols, t) == ScoreOf(tb, order, cols, u)
      && StrLess(u, t) && !StrLess(NameOf(tb, u), NameOf(tb, t))
    ensures IsSnapshot(v, cols, order, first, other) && !RowsFollowIds(other)
  {
    hide IsSnapshot, TablesOf, ScoreOf, NameOf, Swapped;
    var i := RowOfTeam(v, cols, order, first, snap, t);
    var j := RowOfTeam(v, cols, order, first, snap, u);
    RowFacts(v, cols, order, first, snap, i);
    RowFacts(v, cols, order, first, snap, j);
    StrLessIrreflexive(t);
    if i < j {
      other := snap;
    } else {
      RowsAreSorted(v, cols, order, first, snap, j, i);
      StrLessTotal(snap.rows[i].teamName, snap.rows[j].teamName);
      SwapRows(v, cols, order, first, snap, j, i);
      SwappedAt(snap.rows, j, i);
      other := snap.(rows := Swapped(snap.rows, j, i));
    }
  }

  lemma SwappedAt<T>(s: seq<T>, i: nat, j: nat)
    requires i < j < |s|
    ensures |Swapped(s, i, j)| == |s| && Swapped(s, i, j)[i] == s[j] && Swapped(s, i, j)[j] == s[i]
  {
  }

  lemma RowOfTeam(v: View, cols: seq<ProbInfo>, order: seq<Judged>, first: map<string, string>,
                  snap: ScoreboardSnapshot, t: string) returns (i: nat)
    requires IsSnapshot(v, cols, order, first, snap) && t in TablesOf(v).shown
    ensures i < |snap.rows| && snap.rows[i].teamId == t
  {
    hide IsSnapshot, TablesOf;
    ShownTeamHasRow(v, cols, order, first, snap, t);
    i :| 0 <= i < |snap.rows| && snap.rows[i] == RowOf(TablesOf(v), v.awards, cols, order, first, t);
  }

  /** All standings with given columns, listing and first solvers break ties by team id, if and only if names of
      teams of equal score follow their ids. */
  lemma TeamIdTieBreak(v: View, cols: seq<ProbInfo>, order: seq<Judged>, first: map<string, string>,
                       some: ScoreboardSnapshot)
    requires IsSnapshot(v, cols, order, first, some)
    ensures (forall snap | IsSnapshot(v, cols, order, first, snap) :: RowsFollowIds(snap))
            <==> NamesFollowIds(TablesOf(v), order, cols)
  {
    hide IsSnapshot, TablesOf, ScoreOf, NameOf, RowsFollowIds;
    var tb := TablesOf(v);
    if NamesFollowIds(tb, order, cols) {
      forall snap | IsSnapshot(v, cols, order, first, snap)
        ensures RowsFollowIds(snap)
      {
        NamesDecide(v, cols, order, first, snap);
      }
    } else {
      var t, u :| t in tb.shown && u in tb.shown && StrLess(u, t)
                  && ScoreOf(tb, order, cols, t) == ScoreOf(tb, order, cols, u)
                  && !StrLess(NameOf(tb, u), NameOf(tb, t));
      var other := IdsCanBeViolated(v, cols, order, first, some, t, u);
    }
  }
}
