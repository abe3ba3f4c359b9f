/** Building final standings from a store: the whole pipeline, and what it gives on a store with proper keys. */
module ScoreboardBuilder {
  import opened Types
  import opened Collections
  import opened Store
  import opened ScoreboardSpec
  import opened Scoreboard
  import OrderIndependence

  /** The part of a store the builder looks at, as the walks over its hash maps happened to deliver it. */
  ghost predicate IsViewOf(o: Objects, v: View) {
    && v.contest == o.contest
    && v.state == o.state
    && Lists(v.problems, CollectionOf(o, ProblemsType))
    && Lists(v.judgementTypes, CollectionOf(o, JudgementTypesType))
    && Lists(v.submissions, CollectionOf(o, SubmissionsType))
    && Lists(v.judgements, CollectionOf(o, JudgementsType))
    && Lists(v.teams, CollectionOf(o, TeamsType))
    && Lists(v.organizations, CollectionOf(o, OrganizationsType))
    && Lists(v.awards, CollectionOf(o, AwardsType))
  }

  method ListAll(store: ContestStore) returns (v: View)
    ensures IsViewOf(store.Value().objects, v)
  {
    hide Lists, CollectionOf;
    var problems := store.ListObjects(ProblemsType);
    var judgementTypes := store.ListObjects(JudgementTypesType);
    var submissions := store.ListObjects(SubmissionsType);
    var judgements := store.ListObjects(JudgementsType);
    var teams := store.ListObjects(TeamsType);
    var organizations := store.ListObjects(OrganizationsType);
    var awards := store.ListObjects(AwardsType);
    v := View(store.contest, store.state, problems, judgementTypes, submissions, judgements, teams, organizations,
              awards);
  }

  method BuildTables(v: View) returns (tb: Tables)
    ensures tb == TablesOf(v)
  {
    var limitMs := ContestWindow(v.contest, v.state);
    var penaltyMinutes := 20;
    if v.contest.Some? && v.contest.value.body.penaltyTimeMs.Some? {
      penaltyMinutes := TruncDiv(v.contest.value.body.penaltyTimeMs.value, 60000);
    }
    var verdicts := IndexObjects(JudgementTypesType, v.judgementTypes);
    var submissions := IndexObjects(SubmissionsType, v.submissions);
    var best := BestJudgements(v.judgements);
    var teams, shown, hidden := CollectTeams(v.teams);
    var organizations := IndexObjects(OrganizationsType, v.organizations);
    tb := Tables(limitMs, penaltyMinutes, verdicts, submissions, best, teams, shown, hidden, organizations);
  }

  /** The first-to-solve entries found over the accumulators name a first solver of each solved problem. */
  lemma FirstTeamsAreFirst(tb: Tables, order: seq<Judged>, accums: map<string, map<string, ProblemAccum>>,
                           first: map<string, (int, string)>)
    requires tb.Typed() && AccumsMatch(tb, order, accums)
    requires FirstSoFar(accums, set t, p | t in accums && p in accums[t] :: (t, p), first)
    ensures IsFirstSolve(tb, order, FirstTeams(first))
  {
    forall p | p in first
      ensures SolvedBy(tb, order, first[p].1, p)
      ensures first[p].0 == Outcome(tb, order, first[p].1, p).acceptTimeMs
    {
      assert Lookup(accums[first[p].1], p) == Outcome(tb, order, first[p].1, p);
    }
    forall t, p | SolvedBy(tb, order, t, p)
      ensures p in first && first[p].0 <= Outcome(tb, order, t, p).acceptTimeMs
    {
      assert Lookup(accums[t], p) == Outcome(tb, order, t, p);
      assert (t, p) in set u, q | u in accums && q in accums[u] :: (u, q);
    }
  }

  /** `snap` is what some walk over the store's hash maps and some choices among equals determine. */
  ghost predicate IsStandingsOf(o: Objects, snap: ScoreboardSnapshot) {
    exists v: View, cols, order, first :: IsViewOf(o, v) && IsSnapshot(v, cols, order, first, snap)
  }

  method BuildScoreboard(store: ContestStore) returns (snap: ScoreboardSnapshot)
    ensures IsStandingsOf(store.Value().objects, snap)
  {
    hide IsViewOf;
    var view := ListAll(store);
    var columns := CollectColumns(view.problems);
    var tb := BuildTables(view);
    var subs := OrderSubmissions(tb);
    var accums := Accumulate(tb, subs);
    var firstSolve := FindFirstSolvers(accums);
    FirstTeamsAreFirst(tb, subs, accums, firstSolve);
    var awards := IndexAwards(view.awards);
    var rows := BuildRows(tb, columns, accums, firstSolve, awards, subs, view.awards);
    var placed := RankRows(tb, columns, rows, subs, FirstTeams(firstSolve), view.awards);
    var name, formalName := "", "";
    if view.contest.Some? {
      name, formalName := view.contest.value.body.name.GetOr(""), view.contest.value.body.formalName.GetOr("");
    }
    snap := ScoreboardSnapshot(name, formalName, tb.penaltyMinutes, ColumnsOf(columns), placed);
    assert IsSnapshot(view, columns, subs, FirstTeams(firstSolve), snap);
  }

  /** Sorts the rows and assigns places. */
  method RankRows(tb: Tables, cols: seq<ProbInfo>, rows: seq<ScoreboardRow>, ghost order: seq<Judged>,
                  ghost first: map<string, string>, ghost awards: seq<ContestObject>)
    returns (placed: seq<ScoreboardRow>)
    requires tb.Typed()
    requires Enumerates(rows, UnplacedRows(tb, awards, cols, order, first))
    ensures Enumerates(placed, RowMap(tb, awards, cols, order, first).Values)
    ensures Sorted(placed, RowLess)
  {
    RowLessIsStrictWeakOrder();
    var sorted := Sort(rows, RowLess);
    ReorderedEnumerates(rows, sorted, UnplacedRows(tb, awards, cols, order, first));
    RowsByTeam(tb, awards, cols, order, first, sorted);
    placed := AssignPlaces(sorted);
    PlacedRows(tb, awards, cols, order, first, sorted, placed);
    PlacesKeepOrder(sorted, placed);
  }

  lemma PlacesKeepOrder(rows: seq<ScoreboardRow>, placed: seq<ScoreboardRow>)
    requires Sorted(rows, RowLess) && |placed| == |rows|
    requires forall i | 0 <= i < |rows| :: placed[i] == rows[i].(place := placed[i].place)
    ensures Sorted(placed, RowLess)
  {
    forall i, j | 0 <= i < j < |placed|
      ensures !RowLess(placed[j], placed[i])
    {
      assert !RowLess(rows[j], rows[i]);
    }
  }

  // ---- Two builds from one store ----

  lemma ListingHasDistinctIds(objs: seq<ContestObject>, c: map<string, ContestObject>)
    requires Lists(objs, c) && forall id | id in c :: c[id].id == id
    ensures OrderIndependence.DistinctIds(objs) && Enumerates(objs, c.Values)
  {
    var keys: seq<string> :| Enumerates(keys, c.Keys) && ListsBy(objs, c, keys);
    EnumeratesByKey(objs, keys, c);
    forall i, j | 0 <= i < j < |objs|
      ensures objs[i].id != objs[j].id
    {
      assert objs[i].id == keys[i] && objs[j].id == keys[j];
    }
  }

  lemma ListingsArePermutations(a: seq<ContestObject>, b: seq<ContestObject>, c: map<string, ContestObject>)
    requires Lists(a, c) && Lists(b, c) && forall id | id in c :: c[id].id == id
    ensures multiset(a) == multiset(b) && OrderIndependence.DistinctIds(a) && OrderIndependence.DistinctIds(b)
  {
    ListingHasDistinctIds(a, c);
    ListingHasDistinctIds(b, c);
    EnumerationsArePermutations(a, b, c.Values);
  }

  /** Any two walks over a store with proper keys deliver the same objects up to order, so what OrderIndependence shows
      of two builds holds of any two standings built from it. */
  lemma ViewsOfOneStore(o: Objects, v: View, w: View)
    requires ProperKeys(o) && IsViewOf(o, v) && IsViewOf(o, w)
    ensures OrderIndependence.SameStore(v, w)
  {
    ListingsArePermutations(v.problems, w.problems, CollectionOf(o, ProblemsType));
    ListingsArePermutations(v.judgementTypes, w.judgementTypes, CollectionOf(o, JudgementTypesType));
    ListingsArePermutations(v.submissions, w.submissions, CollectionOf(o, SubmissionsType));
    ListingsArePermutations(v.judgements, w.judgements, CollectionOf(o, JudgementsType));
    ListingsArePermutations(v.teams, w.teams, CollectionOf(o, TeamsType));
    ListingsArePermutations(v.organizations, w.organizations, CollectionOf(o, OrganizationsType));
    ListingsArePermutations(v.awards, w.awards, CollectionOf(o, AwardsType));
  }
}
