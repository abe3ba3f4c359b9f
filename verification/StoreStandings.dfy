/** The standings of a store: how far any two of them agree, and what one more judged submission in the store does. */
module StoreStandings {
  import opened Types
  import opened Collections
  import opened Store
  import opened ScoreboardSpec
  import opened AccumTheorems
  import opened StandingsTheorems
  import opened OrderIndependence
  import opened ScoreboardBuilder
  import opened StoreConditions
  import opened AddedSubmission

  // ---- Two builds from one store ----

  /** Cells of one problem that differ at most in what ties in contest time decide. */
  predicate SameCell(x: ProblemResultCell, y: ProblemResultCell) {
    x.status == y.status && x.timeMinutes == y.timeMinutes && (x.status != Solved ==> x.attempts == y.attempts)
  }

  /** Two rows of one team that differ at most in what ties in contest time decide. */
  ghost predicate SameUpToTies(a: ScoreboardRow, b: ScoreboardRow) {
    && a.teamId == b.teamId && a.teamName == b.teamName
    && a.organizationId == b.organizationId && a.organizationName == b.organizationName
    && a.solved == b.solved
    && multiset(a.awards) == multiset(b.awards)
    && (forall x, y | x in a.cells && y in b.cells && x.problemId == y.problemId :: SameCell(x, y))
  }

  predicate SameAttempts(a: ScoreboardRow, b: ScoreboardRow) {
    forall x, y | x in a.cells && y in b.cells && x.problemId == y.problemId :: x.attempts == y.attempts
  }

  lemma SnapshotColumns(v: View, cols: seq<ProbInfo>, order: seq<Judged>, first: map<string, string>,
                        snap: ScoreboardSnapshot)
    requires IsSnapshot(v, cols, order, first, snap)
    ensures IsColumns(v, cols) && IsOrder(TablesOf(v), order)
  {
  }

  /** A cell belongs to a column, and its row to a shown team. */
  lemma CellHasColumn(v: View, cols: seq<ProbInfo>, order: seq<Judged>, first: map<string, string>,
                      snap: ScoreboardSnapshot, row: ScoreboardRow, x: ProblemResultCell)
    requires IsSnapshot(v, cols, order, first, snap) && row in snap.rows && x in row.cells
    ensures row.teamId in TablesOf(v).shown && exists c | c in cols :: c.id == x.problemId
  {
    SnapshotRow(v, cols, order, first, snap, row);
    CellShowsOutcome(TablesOf(v), order, first, row.teamId, cols, x);
  }

  lemma TwoRowsUpToTies(v: View, w: View, c1: seq<ProbInfo>, c2: seq<ProbInfo>, o1: seq<Judged>, o2: seq<Judged>,
                        f1: map<string, string>, f2: map<string, string>, s1: ScoreboardSnapshot,
                        s2: ScoreboardSnapshot, r1: ScoreboardRow, r2: ScoreboardRow)
    requires TwoBuilds(v, w, c1, c2, o1, o2, f1, f2, s1, s2)
    requires r1 in s1.rows && r2 in s2.rows && r1.teamId == r2.teamId
    ensures SameUpToTies(r1, r2)
  {
    hide TwoBuilds;
    RowsAgree(v, w, c1, c2, o1, o2, f1, f2, s1, s2, r1, r2);
    forall x, y | x in r1.cells && y in r2.cells && x.problemId == y.problemId
      ensures SameCell(x, y)
    {
      CellsAgree(v, w, c1, c2, o1, o2, f1, f2, s1, s2, r1, r2, x, y);
    }
  }

  lemma TwoRowsAttempts(v: View, w: View, c1: seq<ProbInfo>, c2: seq<ProbInfo>, o1: seq<Judged>, o2: seq<Judged>,
                        f1: map<string, string>, f2: map<string, string>, s1: ScoreboardSnapshot,
                        s2: ScoreboardSnapshot, r1: ScoreboardRow, r2: ScoreboardRow)
    requires TwoBuilds(v, w, c1, c2, o1, o2, f1, f2, s1, s2) && NoTiedRejects(TablesOf(v), c1)
    requires r1 in s1.rows && r2 in s2.rows && r1.teamId == r2.teamId
    ensures SameAttempts(r1, r2)
  {
    hide IsSnapshot, SameStore, TablesOf, NoRejectAtAccept, Undisputed;
    forall x, y | x in r1.cells && y in r2.cells && x.problemId == y.problemId
      ensures x.attempts == y.attempts
    {
      CellHasColumn(v, c1, o1, f1, s1, r1, x);
      AttemptsAgree(v, w, c1, c2, o1, o2, f1, f2, s1, s2, r1, r2, x, y);
    }
  }

  /** Any two standings built from one store with proper keys and undisputed judgements give a team the same row, up to
      what ties decide; without penalized rejects tied with accepts also the same penalty and place, and without any
      rejects tied with accepts the same attempts. */
  lemma OneStoreOneStandings(o: Objects, s1: ScoreboardSnapshot, s2: ScoreboardSnapshot, r1: ScoreboardRow)
    requires ProperKeys(o) && UndisputedStore(o)
    requires IsStandingsOf(o, s1) && IsStandingsOf(o, s2) && r1 in s1.rows
    ensures exists r2 | r2 in s2.rows ::
              && SameUpToTies(r1, r2)
              && (NoTiedPenaltiesIn(o) ==> r1.penalty == r2.penalty && r1.place == r2.place)
              && (NoTiedRejectsIn(o) ==> SameAttempts(r1, r2))
  {
    hide ProperKeys, IsViewOf, IsSnapshot, SameStore, Undisputed, SameUpToTies, SameAttempts, NoTiedRejects,
         NoTiedRejectsIn, NoTiedPenalties, NoTiedPenaltiesIn;
    var v: View, c1, o1, f1 :| IsViewOf(o, v) && IsSnapshot(v, c1, o1, f1, s1);
    var w: View, c2, o2, f2 :| IsViewOf(o, w) && IsSnapshot(w, c2, o2, f2, s2);
    ViewsOfOneStore(o, v, w);
    UndisputedView(o, v);
    SameTeamsHaveRows(v, w, c1, c2, o1, o2, f1, f2, s1, s2, r1);
    var r2 :| r2 in s2.rows && r2.teamId == r1.teamId;
    TwoRowsUpToTies(v, w, c1, c2, o1, o2, f1, f2, s1, s2, r1, r2);
    SnapshotColumns(v, c1, o1, f1, s1);
    if NoTiedPenaltiesIn(o) {
      NoTiedPenaltiesInView(o, v, c1);
      PlacesAgree(v, w, c1, c2, o1, o2, f1, f2, s1, s2, r1, r2);
    }
    if NoTiedRejectsIn(o) {
      NoTiedRejectsInView(o, v, c1);
      TwoRowsAttempts(v, w, c1, c2, o1, o2, f1, f2, s1, s2, r1, r2);
    }
  }

  // ---- One more judged submission in the store ----

  /** The store after a submission and a judgement on it are put under their ids. */
  function WithSubmission(o: Objects, s: ContestObject, j: ContestObject): Objects {
    Perform(Perform(o, Put(SubmissionsType, s.id, s)), Put(JudgementsType, j.id, j))
  }

  /** `s` is a submission and `j` its only judgement with a verdict, both under ids the store does not use. */
  ghost predicate IsNewIn(o: Objects, s: ContestObject, j: ContestObject) {
    var subs, judgements := CollectionOf(o, SubmissionsType), CollectionOf(o, JudgementsType);
    && s.body.Submission? && s.id !in subs && (forall x | x in subs.Values :: x.id != s.id)
    && HasVerdict(j) && j.body.submissionId.value == s.id && j.id !in judgements
    && (forall x | x in judgements.Values && HasVerdict(x) :: x.body.submissionId.value != s.id)
  }

  lemma InsertedAt<T>(s: seq<T>, i: nat, x: T)
    requires i <= |s|
    ensures |Insert(s, i, x)| == |s| + 1 && Insert(s, i, x)[i] == x
    ensures forall n | 0 <= n < |s| :: Insert(s, i, x)[if n < i then n else n + 1] == s[n]
    ensures forall n | 0 <= n <= |s| :: n != i ==> Insert(s, i, x)[n] == s[if n < i then n else n - 1]
  {
  }

  lemma ListsByInserted(rest: seq<ContestObject>, c: map<string, ContestObject>, keys: seq<string>, i: nat, k: string,
                        x: ContestObject)
    requires k !in c && |rest| == |keys| && i <= |rest| && k !in keys
    ensures ListsBy(Insert(rest, i, x), c[k := x], Insert(keys, i, k)) <==> ListsBy(rest, c, keys)
  {
    hide Insert;
    InsertedAt(rest, i, x);
    InsertedAt(keys, i, k);
    var objs', keys', c' := Insert(rest, i, x), Insert(keys, i, k), c[k := x];
    if ListsBy(objs', c', keys') {
      forall n | 0 <= n < |keys|
        ensures keys[n] in c && rest[n] == c[keys[n]]
      {
        var m := if n < i then n else n + 1;
        assert keys'[m] == keys[n] && objs'[m] == rest[n];
      }
    }
  }

  /** A walk over a map with one more entry is a walk over the map with the entry inserted somewhere. */
  lemma ListsWithout(objs: seq<ContestObject>, c: map<string, ContestObject>, k: string, x: ContestObject)
    returns (rest: seq<ContestObject>, i: nat)
    requires k !in c && Lists(objs, c[k := x])
    ensures Lists(rest, c) && i <= |rest| && objs == Insert(rest, i, x)
  {
    hide Enumerates, Insert;
    var keys: seq<string> :| Enumerates(keys, c[k := x].Keys) && ListsBy(objs, c[k := x], keys);
    assert c[k := x].Keys == c.Keys + {k};
    var others;
    others, i := EnumerationWithout(keys, k, c.Keys);
    rest := TakenOut(objs, i);
    KeysAreMembers(others, c.Keys, k);
    ListsByInserted(rest, c, others, i, k, x);
  }

  lemma TakenOut<T>(s: seq<T>, i: nat) returns (rest: seq<T>)
    requires i < |s|
    ensures |s| == |rest| + 1 && s == Insert(rest, i, s[i])
  {
    rest := s[..i] + s[i + 1..];
  }

  lemma EnumerationWithout(keys: seq<string>, k: string, all: set<string>) returns (others: seq<string>, i: nat)
    requires k !in all && Enumerates(keys, all + {k})
    ensures i <= |others| && keys == Insert(others, i, k) && i < |keys| && keys[i] == k && |keys| == |others| + 1
    ensures Enumerates(others, all)
  {
    assert k in keys;
    i :| 0 <= i < |keys| && keys[i] == k;
    others := TakenOut(keys, i);
    EnumeratesInsertion(others, i, k, all);
  }

  lemma KeysAreMembers(keys: seq<string>, all: set<string>, k: string)
    requires Enumerates(keys, all) && k !in all
    ensures k !in keys
  {
  }

  lemma ListsWith(rest: seq<ContestObject>, c: map<string, ContestObject>, i: nat, k: string, x: ContestObject)
    requires k !in c && Lists(rest, c) && i <= |rest|
    ensures Lists(Insert(rest, i, x), c[k := x])
  {
    hide Enumerates, Insert;
    var keys: seq<string> :| Enumerates(keys, c.Keys) && ListsBy(rest, c, keys);
    EnumeratesInsertion(keys, i, k, c.Keys);
    assert c[k := x].Keys == c.Keys + {k};
    KeysAreMembers(keys, c.Keys, k);
    ListsByInserted(rest, c, keys, i, k, x);
  }

  lemma CollectionsWithSubmission(o: Objects, s: ContestObject, j: ContestObject)
    ensures
      var o' := WithSubmission(o, s, j);
      && o'.contest == o.contest && o'.state == o.state
      && CollectionOf(o', SubmissionsType) == CollectionOf(o, SubmissionsType)[s.id := s]
      && CollectionOf(o', JudgementsType) == CollectionOf(o, JudgementsType)[j.id := j]
      && (forall t | t != SubmissionsType && t != JudgementsType :: CollectionOf(o', t) == CollectionOf(o, t))
  {
  }

  /** The views of the larger store are the views of the smaller one with the two objects inserted. */
  lemma ViewWithout(o: Objects, s: ContestObject, j: ContestObject, w: View) returns (v: View, a: nat, b: nat)
    requires IsNewIn(o, s, j) && IsViewOf(WithSubmission(o, s, j), w)
    ensures IsViewOf(o, v) && IsFresh(v, s, j)
    ensures a <= |v.submissions| && b <= |v.judgements| && w == Added(v, s, j, a, b)
  {
    hide WithSubmission, Lists, Insert;
    CollectionsWithSubmission(o, s, j);
    var submissions, judgements;
    submissions, a := ListsWithout(w.submissions, CollectionOf(o, SubmissionsType), s.id, s);
    judgements, b := ListsWithout(w.judgements, CollectionOf(o, JudgementsType), j.id, j);
    v := w.(submissions := submissions, judgements := judgements);
    NewIsFresh(o, s, j, v);
  }

  lemma ViewWith(o: Objects, s: ContestObject, j: ContestObject, v: View, a: nat, b: nat)
    requires IsNewIn(o, s, j) && IsViewOf(o, v) && a <= |v.submissions| && b <= |v.judgements|
    ensures IsViewOf(WithSubmission(o, s, j), Added(v, s, j, a, b)) && IsFresh(v, s, j)
  {
    hide WithSubmission, Lists, Insert;
    CollectionsWithSubmission(o, s, j);
    ListsWith(v.submissions, CollectionOf(o, SubmissionsType), a, s.id, s);
    ListsWith(v.judgements, CollectionOf(o, JudgementsType), b, j.id, j);
    NewIsFresh(o, s, j, v);
  }

  lemma NewIsFresh(o: Objects, s: ContestObject, j: ContestObject, v: View)
    requires IsNewIn(o, s, j) && IsViewOf(o, v)
    ensures IsFresh(v, s, j)
  {
    forall x | x in v.submissions
      ensures x.id != s.id
    {
      ListedMembers(v.submissions, CollectionOf(o, SubmissionsType), x);
    }
    forall x | x in v.judgements && HasVerdict(x)
      ensures x.body.submissionId.value != s.id
    {
      ListedMembers(v.judgements, CollectionOf(o, JudgementsType), x);
    }
  }

  // ---- Submissions that change nothing ----

  /** The submission cannot count: it is at or beyond the cut-off, or has no team or no problem. */
  predicate CannotCount(o: Objects, s: ContestObject)
    requires s.body.Submission?
  {
    s.body.contestTimeMs.GetOr(0) >= ContestLimit(o.contest, o.state) || s.body.teamId.None? || s.body.problemId.None?
  }

  /** A store has exactly the same standings with and without a submission that cannot count. */
  lemma LateSubmissionInStore(o: Objects, s: ContestObject, j: ContestObject, snap: ScoreboardSnapshot)
    requires IsNewIn(o, s, j) && CannotCount(o, s)
    ensures IsStandingsOf(WithSubmission(o, s, j), snap) <==> IsStandingsOf(o, snap)
  {
    hide IsSnapshot, IsNewIn, IsFresh, ContestLimit, WithSubmission, Added;
    if IsStandingsOf(WithSubmission(o, s, j), snap) {
      var w: View, cols, order, first :|
        IsViewOf(WithSubmission(o, s, j), w) && IsSnapshot(w, cols, order, first, snap);
      var v, a, b := ViewWithout(o, s, j, w);
      LateSubmissionChangesNothing(v, s, j, a, b, cols, order, first, snap);
    }
    if IsStandingsOf(o, snap) {
      var v: View, cols, order, first :| IsViewOf(o, v) && IsSnapshot(v, cols, order, first, snap);
      ViewWith(o, s, j, v, 0, 0);
      LateSubmissionChangesNothing(v, s, j, 0, 0, cols, order, first, snap);
    }
  }

  /** The submission is of a team without a row, or after a submission of the team on the problem that counts and is
      accepted whichever of the latest judgements is used. */
  ghost predicate CannotMatter(o: Objects, s: ContestObject)
    requires s.body.Submission?
  {
    && s.body.teamId.Some? && s.body.problemId.Some?
    && (s.body.teamId.value !in ShownTeams(o) ||
        exists sid :: Counts(o, sid) && IsTry(o, sid, s.body.teamId.value, s.body.problemId.value)
                      && AcceptedIn(o, sid) && TimeOf(o, sid) < s.body.contestTimeMs.GetOr(0))
  }

  /** In every listing of every view, such a submission can only stand where it is irrelevant. */
  lemma CannotMatterIsIrrelevant(o: Objects, v: View, s: ContestObject, x: Judged, order: seq<Judged>, k: nat)
    requires ProperKeys(o) && IsViewOf(o, v) && s.body.Submission? && CannotMatter(o, s)
    requires Some(x.team) == s.body.teamId && Some(x.problem) == s.body.problemId
    requires x.timeMs == s.body.contestTimeMs.GetOr(0)
    requires IsOrder(TablesOf(v), order) && k <= |order| && Sorted(Insert(order, k, x), Earlier)
    ensures Irrelevant(TablesOf(v), order[..k], x)
  {
    hide TablesOf, ProperKeys, IsViewOf, InTime, LatestIn, AcceptedIn, IsOrder, Outcome, Insert, Sorted, ShownTeams,
         Of, Accepts;
    var tb := TablesOf(v);
    ShownInView(o, v);
    if x.team in tb.shown && x.team !in tb.hidden {
      var sid :| Counts(o, sid) && IsTry(o, sid, x.team, x.problem) && AcceptedIn(o, sid)
                 && TimeOf(o, sid) < x.timeMs;
      TryInStore(o, v, sid, x.team, x.problem);
      var y := JudgedOf(tb, sid);
      TryInView(o, v, y, x.team, x.problem);
      SolvedAtEarliestAccept(tb, order, x.team, x.problem);
      LaterThanAcceptIsIrrelevant(tb, order, k, x);
    }
  }

  /** A new submission before the cut-off is listed, with the verdict of its judgement. */
  lemma NewIsListed(o: Objects, v: View, s: ContestObject, j: ContestObject, a: nat, b: nat)
    requires IsViewOf(o, v) && IsFresh(v, s, j) && a <= |v.submissions| && b <= |v.judgements| && !CannotCount(o, s)
    ensures
      var tb' := TablesOf(Added(v, s, j, a, b));
      && tb' == Grown(TablesOf(v), s, SummaryOf(j)) && Fits(TablesOf(v), s, SummaryOf(j))
      && Eligible(tb', s.id)
      && JudgedOf(tb', s.id) == Judged(s.id, s.body.teamId.value, s.body.problemId.value,
                                       s.body.contestTimeMs.GetOr(0), j.body.judgementTypeId.value)
  {
    hide Lists, Added, ContestLimit, Index, Best;
    AddedTables(v, s, j, a, b);
    assert TablesOf(v).limitMs == ContestLimit(o.contest, o.state);
  }

  lemma IrrelevantInView(o: Objects, v: View, s: ContestObject, j: ContestObject, a: nat, b: nat, k: nat,
                         cols: seq<ProbInfo>, order: seq<Judged>, first: map<string, string>, snap: ScoreboardSnapshot)
    requires ProperKeys(o) && IsViewOf(o, v) && IsFresh(v, s, j) && a <= |v.submissions| && b <= |v.judgements|
    requires !CannotCount(o, s) && CannotMatter(o, s) && IsOrder(TablesOf(v), order) && k <= |order|
    requires Eligible(TablesOf(Added(v, s, j, a, b)), s.id)
    requires Sorted(Insert(order, k, JudgedOf(TablesOf(Added(v, s, j, a, b)), s.id)), Earlier)
    ensures
      var x := JudgedOf(TablesOf(Added(v, s, j, a, b)), s.id);
      IsSnapshot(Added(v, s, j, a, b), cols, Insert(order, k, x), first, snap) <==>
      IsSnapshot(v, cols, order, first, snap)
  {
    hide IsSnapshot, ProperKeys, IsViewOf, TablesOf, Added, IsOrder, Eligible, JudgedOf, Insert, Sorted, CannotMatter;
    NewIsListed(o, v, s, j, a, b);
    var x := JudgedOf(TablesOf(Added(v, s, j, a, b)), s.id);
    CannotMatterIsIrrelevant(o, v, s, x, order, k);
    IrrelevantSubmissionChangesNothing(v, s, j, a, b, k, cols, order, first, snap);
  }

  /** Standings of the larger store are standings of the smaller one. */
  lemma IrrelevantLeavesNothing(o: Objects, s: ContestObject, j: ContestObject, snap: ScoreboardSnapshot)
    requires ProperKeys(o) && IsNewIn(o, s, j) && !CannotCount(o, s) && CannotMatter(o, s)
    requires IsStandingsOf(WithSubmission(o, s, j), snap)
    ensures IsStandingsOf(o, snap)
  {
    hide IsSnapshot, ProperKeys, IsViewOf, IsNewIn, TablesOf, WithSubmission, Added, IsOrder, Eligible, JudgedOf,
         Insert, CannotCount, CannotMatter;
    var w: View, cols, order', first :|
      IsViewOf(WithSubmission(o, s, j), w) && IsSnapshot(w, cols, order', first, snap);
    var v, a, b := ViewWithout(o, s, j, w);
    NewIsListed(o, v, s, j, a, b);
    SnapshotColumns(w, cols, order', first, snap);
    var order, k := OrderWithout(TablesOf(v), s, SummaryOf(j), order');
    OrderIsSorted(TablesOf(w), order');
    IrrelevantInView(o, v, s, j, a, b, k, cols, order, first, snap);
  }

  lemma OrderIsSorted(tb: Tables, order: seq<Judged>)
    requires tb.Typed() && IsOrder(tb, order)
    ensures Sorted(order, Earlier)
  {
  }

  /** And the other way round. */
  lemma IrrelevantTakesNothing(o: Objects, s: ContestObject, j: ContestObject, snap: ScoreboardSnapshot)
    requires ProperKeys(o) && IsNewIn(o, s, j) && !CannotCount(o, s) && CannotMatter(o, s)
    requires IsStandingsOf(o, snap)
    ensures IsStandingsOf(WithSubmission(o, s, j), snap)
  {
    hide IsSnapshot, ProperKeys, IsViewOf, IsNewIn, IsFresh, TablesOf, WithSubmission, Added, IsOrder, Eligible,
         JudgedOf, Insert, CannotCount, CannotMatter, Sorted;
    var v: View, cols, order, first :| IsViewOf(o, v) && IsSnapshot(v, cols, order, first, snap);
    ViewWith(o, s, j, v, 0, 0);
    NewIsListed(o, v, s, j, 0, 0);
    var x := JudgedOf(TablesOf(Added(v, s, j, 0, 0)), s.id);
    SnapshotColumns(v, cols, order, first, snap);
    OrderIsSorted(TablesOf(v), order);
    var k := FittingPlace(order, x);
    FitsThere(order, k, x);
    IrrelevantInView(o, v, s, j, 0, 0, k, cols, order, first, snap);
  }

  /** A store has exactly the same standings with and without a submission that cannot matter. */
  lemma IrrelevantSubmissionInStore(o: Objects, s: ContestObject, j: ContestObject, snap: ScoreboardSnapshot)
    requires ProperKeys(o) && IsNewIn(o, s, j) && CannotMatter(o, s)
    ensures IsStandingsOf(WithSubmission(o, s, j), snap) <==> IsStandingsOf(o, snap)
  {
    hide IsStandingsOf, WithSubmission, CannotMatter;
    if CannotCount(o, s) {
      LateSubmissionInStore(o, s, j, snap);
    } else {
      if IsStandingsOf(WithSubmission(o, s, j), snap) {
        IrrelevantLeavesNothing(o, s, j, snap);
      }
      if IsStandingsOf(o, snap) {
        IrrelevantTakesNothing(o, s, j, snap);
      }
    }
  }

  // ---- A new accept ----

  /** An accepted submission before the cut-off, of a shown team on a column problem on which the team has no accepted
      submission that counts. */
  ghost predicate IsNewAcceptIn(o: Objects, s: ContestObject, j: ContestObject) {
    && IsNewIn(o, s, j) && !CannotCount(o, s) && VerdictAccepts(o, j.body.judgementTypeId.value)
    && s.body.teamId.value in ShownTeams(o) && s.body.problemId.value in ColumnProblems(o)
    && (forall sid | Counts(o, sid) && IsTry(o, sid, s.body.teamId.value, s.body.problemId.value) ::
          !AcceptedIn(o, sid))
  }

  lemma ShownIsNotHidden(o: Objects, v: View, t: string)
    requires ProperKeys(o) && IsViewOf(o, v) && t in ShownTeams(o)
    ensures t in TablesOf(v).shown && t !in TablesOf(v).hidden
  {
    hide Index, Best, ContestLimit;
    ShownInView(o, v);
    var c := CollectionOf(o, TeamsType);
    assert t in c && IsShown(c[t]);
    forall x | x in v.teams && x.id == t
      ensures x == c[t]
    {
      ListedMembers(v.teams, c, x);
    }
  }

  lemma {:induction false} ColumnOf(problems: seq<ContestObject>, x: ContestObject)
    requires x in problems && x.body.Problem?
    ensures ProbInfoOf(x) in ProbInfos(problems)
  {
    var last := |problems| - 1;
    assert problems == problems[..last] + [problems[last]];
    if x in problems[..last] {
      ColumnOf(problems[..last], x);
    }
  }

  lemma ProblemHasColumn(o: Objects, v: View, cols: seq<ProbInfo>, p: string) returns (c: ProbInfo)
    requires IsViewOf(o, v) && IsColumns(v, cols) && p in ColumnProblems(o)
    ensures c in cols && c.id == p
  {
    var x :| x in CollectionOf(o, ProblemsType).Values && x.body.Problem? && x.id == p;
    ListedMembers(v.problems, CollectionOf(o, ProblemsType), x);
    ColumnOf(v.problems, x);
    c := ProbInfoOf(x);
    assert c in multiset(ProbInfos(v.problems));
  }

  lemma NotSolvedYet(o: Objects, v: View, order: seq<Judged>, t: string, p: string)
    requires ProperKeys(o) && IsViewOf(o, v) && UndisputedStore(o) && IsOrder(TablesOf(v), order)
    requires t !in TablesOf(v).hidden
    requires forall sid | Counts(o, sid) && IsTry(o, sid, t, p) :: !AcceptedIn(o, sid)
    ensures !Outcome(TablesOf(v), order, t, p).solved
  {
    hide TablesOf, ProperKeys, IsViewOf, InTime, LatestIn, AcceptedIn, IsOrder, Outcome, Of, Accepts;
    SolvedAtEarliestAccept(TablesOf(v), order, t, p);
    forall x | x in Of(TablesOf(v), t, p)
      ensures !Accepts(TablesOf(v), x.verdict)
    {
      TryInView(o, v, x, t, p);
    }
  }

  lemma NewAcceptInView(o: Objects, v: View, s: ContestObject, j: ContestObject, a: nat, b: nat, k: nat,
                        cols: seq<ProbInfo>, order: seq<Judged>) returns (c: ProbInfo)
    requires ProperKeys(o) && UndisputedStore(o) && IsNewAcceptIn(o, s, j) && IsViewOf(o, v) && IsFresh(v, s, j)
    requires a <= |v.submissions| && b <= |v.judgements| && k <= |order|
    requires IsColumns(v, cols) && IsOrder(TablesOf(v), order)
    ensures IsNewAccept(v, s, j, a, b, k, cols, order, c)
  {
    hide TablesOf, ProperKeys, IsViewOf, UndisputedStore, IsOrder, IsColumns, Added, Eligible, JudgedOf, Accepts,
         Outcome, IsNewIn, ContestLimit, InTime, LatestIn, AcceptedIn, ShownTeams, ColumnProblems, VerdictAccepts;
    var t, p := s.body.teamId.value, s.body.problemId.value;
    NewIsListed(o, v, s, j, a, b);
    VerdictInView(o, v, j.body.judgementTypeId.value);
    ShownIsNotHidden(o, v, t);
    NotSolvedYet(o, v, order, t, p);
    c := ProblemHasColumn(o, v, cols, p);
  }

  /** The standings a view of the smaller store would have had, and those of the larger store. */
  lemma AcceptInView(o: Objects, v: View, s: ContestObject, j: ContestObject, a: nat, b: nat, cols: seq<ProbInfo>,
                     order': seq<Judged>, first: map<string, string>, snap: ScoreboardSnapshot, row: ScoreboardRow)
    returns (order: seq<Judged>)
    requires ProperKeys(o) && UndisputedStore(o) && IsNewAcceptIn(o, s, j) && IsViewOf(o, v) && IsFresh(v, s, j)
    requires a <= |v.submissions| && b <= |v.judgements|
    requires IsSnapshot(Added(v, s, j, a, b), cols, order', first, snap) && row in snap.rows
    ensures IsColumns(v, cols) && IsOrder(TablesOf(v), order) && row.teamId in TablesOf(v).shown
    ensures
      var score := ScoreOf(TablesOf(v), order, cols, row.teamId);
      if s.body.teamId == Some(row.teamId)
      then row.solved > score.solved && row.place <= Place(TablesOf(v), order, cols, row.teamId)
      else ScoreIn(row) == score && row.place >= Place(TablesOf(v), order, cols, row.teamId)
  {
    hide IsSnapshot, ProperKeys, IsViewOf, UndisputedStore, IsNewIn, TablesOf, IsOrder, Eligible, JudgedOf, Insert,
         ContestLimit, IsNewAccept, ScoreOf, Place, Counts, ShownTeams, ColumnProblems, VerdictAccepts, IsColumns;
    var w := Added(v, s, j, a, b);
    NewIsListed(o, v, s, j, a, b);
    SnapshotColumns(w, cols, order', first, snap);
    SameProblems(v, w, cols);
    SnapshotRow(w, cols, order', first, snap, row);
    RowScore(w, cols, order', first, snap, row);
    var k;
    order, k := OrderWithout(TablesOf(v), s, SummaryOf(j), order');
    var c := NewAcceptInView(o, v, s, j, a, b, k, cols, order);
    ScoresWithAccept(v, s, j, a, b, k, cols, order, c, row.teamId);
  }

  lemma SameProblems(v: View, w: View, cols: seq<ProbInfo>)
    requires v.problems == w.problems && IsColumns(w, cols)
    ensures IsColumns(v, cols)
  {
  }

  /** Putting an accepted submission into a store, for any standings before and after: the team has more solved
      problems, no other team's solved count changes; without penalized rejects tied with accepts the team's place
      does not get worse, and no other team's penalty changes or place gets better. */
  lemma AcceptInStore(o: Objects, s: ContestObject, j: ContestObject, s1: ScoreboardSnapshot, s2: ScoreboardSnapshot,
                      r1: ScoreboardRow, r2: ScoreboardRow)
    requires ProperKeys(o) && UndisputedStore(o) && IsNewAcceptIn(o, s, j)
    requires IsStandingsOf(o, s1) && IsStandingsOf(WithSubmission(o, s, j), s2)
    requires r1 in s1.rows && r2 in s2.rows && r1.teamId == r2.teamId
    ensures s.body.teamId == Some(r1.teamId) ==>
            r2.solved > r1.solved && (NoTiedPenaltiesIn(o) ==> r2.place <= r1.place)
    ensures s.body.teamId != Some(r1.teamId) ==>
            r2.solved == r1.solved && (NoTiedPenaltiesIn(o) ==> r2.penalty == r1.penalty && r2.place >= r1.place)
  {
    hide IsSnapshot, ProperKeys, IsViewOf, UndisputedStore, IsNewIn, TablesOf, IsOrder, SameStore, Added,
         WithSubmission, ContestLimit, ScoreOf, Place, NoTiedPenaltiesIn, NoTiedPenalties, IsColumns, IsFresh,
         Undisputed, Counts, ShownTeams,
         ColumnProblems, VerdictAccepts, CannotCount;
    var v: View, c1, o1, f1 :| IsViewOf(o, v) && IsSnapshot(v, c1, o1, f1, s1);
    var w: View, c2, o', f2 :| IsViewOf(WithSubmission(o, s, j), w) && IsSnapshot(w, c2, o', f2, s2);
    var u, a, b := ViewWithout(o, s, j, w);
    var o2 := AcceptInView(o, u, s, j, a, b, c2, o', f2, s2, r2);
    ViewsOfOneStore(o, v, u);
    UndisputedView(o, v);
    SameTables(v, u);
    SnapshotColumns(v, c1, o1, f1, s1);
    SnapshotRow(v, c1, o1, f1, s1, r1);
    RowScore(v, c1, o1, f1, s1, r1);
    SameColumns(v, u, c1, c2);
    SameSolved(TablesOf(v), o1, o2, c1, c2, r1.teamId);
    if NoTiedPenaltiesIn(o) {
      NoTiedPenaltiesInView(o, v, c1);
      SamePlace(TablesOf(v), o1, o2, c1, c2, r1.teamId);
    }
  }
}
