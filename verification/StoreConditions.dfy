/** What decides standings, read off the collections of a store, and that the views of the store say the same. */
module StoreConditions {
  import opened Types
  import opened Collections
  import opened Store
  import opened ScoreboardSpec
  import opened AccumTheorems
  import opened ScoreboardBuilder
  import OrderIndependence

  // ---- Conditions on a store ----

  /** `j` is a judgement with a verdict on submission `sid`, and none of them ended later. */
  ghost predicate LatestIn(o: Objects, sid: string, j: ContestObject) {
    var all := CollectionOf(o, JudgementsType).Values;
    && j in all && HasVerdict(j) && j.body.submissionId.value == sid
    && (forall i | i in all && HasVerdict(i) && i.body.submissionId.value == sid :: EndsNoLater(i, j))
  }

  /** The latest judgements on each submission give one verdict. */
  ghost predicate UndisputedStore(o: Objects) {
    forall sid, i, j | LatestIn(o, sid, i) && LatestIn(o, sid, j) ::
      i.body.judgementTypeId == j.body.judgementTypeId
  }

  predicate VerdictAccepts(o: Objects, verdict: string) {
    var c := CollectionOf(o, JudgementTypesType);
    verdict in c && c[verdict].body.JudgementType? && c[verdict].body.solved.GetOr(false)
  }

  /** Every latest judgement on the submission accepts it, and there is one. */
  ghost predicate AcceptedIn(o: Objects, sid: string) {
    && (exists j :: LatestIn(o, sid, j))
    && (forall j | LatestIn(o, sid, j) :: VerdictAccepts(o, j.body.judgementTypeId.value))
  }

  /** A stored submission of a team on a problem, before the cut-off. */
  predicate InTime(o: Objects, sid: string) {
    var c := CollectionOf(o, SubmissionsType);
    && sid in c && c[sid].body.Submission? && c[sid].body.teamId.Some? && c[sid].body.problemId.Some?
    && c[sid].body.contestTimeMs.GetOr(0) < ContestLimit(o.contest, o.state)
  }

  ghost predicate Counts(o: Objects, sid: string) {
    InTime(o, sid) && exists j :: LatestIn(o, sid, j)
  }

  function TimeOf(o: Objects, sid: string): int
    requires InTime(o, sid)
  {
    CollectionOf(o, SubmissionsType)[sid].body.contestTimeMs.GetOr(0)
  }

  /** The submission is one of team `t` on problem `p`. */
  predicate IsTry(o: Objects, sid: string, t: string, p: string)
    requires InTime(o, sid)
  {
    var s := CollectionOf(o, SubmissionsType)[sid].body;
    s.teamId == Some(t) && s.problemId == Some(p)
  }

  /** A submission of the team on the problem that counts, is accepted, and comes before all others like it. */
  ghost predicate EarliestIn(o: Objects, t: string, p: string, sid: string) {
    && Counts(o, sid) && IsTry(o, sid, t, p) && AcceptedIn(o, sid)
    && (forall other | Counts(o, other) && IsTry(o, other, t, p) && AcceptedIn(o, other) ::
          TimeOf(o, sid) <= TimeOf(o, other))
  }

  ghost function ShownTeams(o: Objects): set<string> {
    set x | x in CollectionOf(o, TeamsType).Values && IsShown(x) :: x.id
  }

  ghost function ColumnProblems(o: Objects): set<string> {
    set x | x in CollectionOf(o, ProblemsType).Values && x.body.Problem? :: x.id
  }

  /** No shown team has a rejected submission at the contest time of its earliest accept on a column problem. */
  ghost predicate NoTiedRejectsIn(o: Objects) {
    forall t, p, a, b | t in ShownTeams(o) && p in ColumnProblems(o) && EarliestIn(o, t, p, a)
                        && Counts(o, b) && IsTry(o, b, t, p) && !AcceptedIn(o, b) ::
      TimeOf(o, a) != TimeOf(o, b)
  }

  predicate VerdictPenalizes(o: Objects, verdict: string) {
    var c := CollectionOf(o, JudgementTypesType);
    verdict in c && c[verdict].body.JudgementType? && c[verdict].body.penalty.GetOr(true)
  }

  /** Some latest judgement on the submission carries a penalty. */
  ghost predicate PenalizedIn(o: Objects, sid: string) {
    exists j :: LatestIn(o, sid, j) && VerdictPenalizes(o, j.body.judgementTypeId.value)
  }

  /** No shown team has a rejected submission with a penalty at the contest time of its earliest accept on a column
      problem. */
  ghost predicate NoTiedPenaltiesIn(o: Objects) {
    forall t, p, a, b | t in ShownTeams(o) && p in ColumnProblems(o) && EarliestIn(o, t, p, a)
                        && Counts(o, b) && IsTry(o, b, t, p) && !AcceptedIn(o, b) && PenalizedIn(o, b) ::
      TimeOf(o, a) != TimeOf(o, b)
  }

  // ---- Views say the same ----

  lemma ListedMembers(objs: seq<ContestObject>, c: map<string, ContestObject>, x: ContestObject)
    requires Lists(objs, c)
    ensures x in objs <==> x in c.Values
  {
    var keys: seq<string> :| Enumerates(keys, c.Keys) && ListsBy(objs, c, keys);
    if x in c.Values {
      var id :| id in c && c[id] == x;
      var i :| 0 <= i < |keys| && keys[i] == id;
      assert objs[i] == x;
    }
  }

  lemma LatestInView(o: Objects, v: View, sid: string, j: ContestObject)
    requires IsViewOf(o, v)
    ensures LatestIn(o, sid, j) <==> IsLatest(v.judgements, sid, j)
  {
    var c := CollectionOf(o, JudgementsType);
    forall x
      ensures x in v.judgements <==> x in c.Values
    {
      ListedMembers(v.judgements, c, x);
    }
  }

  lemma UndisputedView(o: Objects, v: View)
    requires IsViewOf(o, v)
    ensures UndisputedStore(o) <==> OrderIndependence.Undisputed(v.judgements)
  {
    hide IsViewOf;
    if UndisputedStore(o) {
      forall sid, i, j | IsLatest(v.judgements, sid, i) && IsLatest(v.judgements, sid, j)
        ensures i.body.judgementTypeId == j.body.judgementTypeId
      {
        LatestInView(o, v, sid, i);
        LatestInView(o, v, sid, j);
      }
    } else {
      var sid, i, j :| LatestIn(o, sid, i) && LatestIn(o, sid, j) && i.body.judgementTypeId != j.body.judgementTypeId;
      LatestInView(o, v, sid, i);
      LatestInView(o, v, sid, j);
    }
  }

  lemma ShownInView(o: Objects, v: View)
    requires IsViewOf(o, v)
    ensures TablesOf(v).shown == ShownTeams(o)
  {
    forall x
      ensures x in v.teams <==> x in CollectionOf(o, TeamsType).Values
    {
      ListedMembers(v.teams, CollectionOf(o, TeamsType), x);
    }
  }

  /** Indexing a walk over a collection with proper keys gives the collection's objects of that kind. */
  lemma IndexInView(kind: ObjectType, objs: seq<ContestObject>, c: map<string, ContestObject>)
    requires Lists(objs, c) && forall id | id in c :: c[id].id == id
    ensures forall id :: id in Index(kind, objs) <==> id in c && KindOf(c[id].body) == kind
    ensures forall id | id in Index(kind, objs) :: Index(kind, objs)[id] == c[id]
  {
    ListingHasDistinctIds(objs, c);
    OrderIndependence.IndexHolds(kind, objs);
    forall id
      ensures id in Index(kind, objs) <==> id in c && KindOf(c[id].body) == kind
      ensures id in Index(kind, objs) ==> Index(kind, objs)[id] == c[id]
    {
      if id in c && KindOf(c[id].body) == kind {
        ListedMembers(objs, c, c[id]);
      }
      if id in Index(kind, objs) {
        ListedMembers(objs, c, Index(kind, objs)[id]);
      }
    }
  }

  lemma {:induction false} ColumnIds(problems: seq<ContestObject>, c: ProbInfo)
    requires c in ProbInfos(problems)
    ensures exists x | x in problems :: x.body.Problem? && x.id == c.id
  {
    var last := |problems| - 1;
    assert problems == problems[..last] + [problems[last]];
    if c in ProbInfos(problems[..last]) {
      ColumnIds(problems[..last], c);
    }
  }

  lemma ColumnInView(o: Objects, v: View, cols: seq<ProbInfo>, c: ProbInfo)
    requires IsViewOf(o, v) && IsColumns(v, cols) && c in cols
    ensures c.id in ColumnProblems(o)
  {
    assert c in multiset(cols);
    ColumnIds(v.problems, c);
    var x :| x in v.problems && x.body.Problem? && x.id == c.id;
    ListedMembers(v.problems, CollectionOf(o, ProblemsType), x);
  }

  lemma JudgedInView(o: Objects, v: View, sid: string)
    requires IsViewOf(o, v)
    ensures sid in Best(v.judgements) <==> exists j :: LatestIn(o, sid, j)
  {
    hide IsViewOf;
    VerdictIsLatest(v.judgements, sid);
    if sid in Best(v.judgements) {
      var j :| j in v.judgements && IsLatest(v.judgements, sid, j) && SummaryOf(j) == Best(v.judgements)[sid];
      LatestInView(o, v, sid, j);
    }
    if j :| LatestIn(o, sid, j) {
      LatestInView(o, v, sid, j);
    }
  }

  lemma TablesInView(o: Objects, v: View)
    requires ProperKeys(o) && IsViewOf(o, v)
    ensures
      var tb, c := TablesOf(v), CollectionOf(o, SubmissionsType);
      && tb.limitMs == ContestLimit(o.contest, o.state)
      && tb.best == Best(v.judgements)
      && (forall sid :: sid in tb.submissions <==> sid in c && KindOf(c[sid].body) == SubmissionsType)
      && (forall sid | sid in tb.submissions :: tb.submissions[sid] == c[sid])
  {
    hide ContestLimit, Index, Best;
    IndexInView(SubmissionsType, v.submissions, CollectionOf(o, SubmissionsType));
  }

  lemma EligibleInView(o: Objects, v: View, sid: string)
    requires ProperKeys(o) && IsViewOf(o, v)
    ensures Eligible(TablesOf(v), sid) <==> Counts(o, sid)
    ensures Eligible(TablesOf(v), sid) ==>
            var x := JudgedOf(TablesOf(v), sid);
            IsTry(o, sid, x.team, x.problem) && x.timeMs == TimeOf(o, sid)
  {
    hide TablesOf, ContestLimit, ProperKeys, IsViewOf, LatestIn, Best;
    TablesInView(o, v);
    JudgedInView(o, v, sid);
  }

  lemma VerdictInView(o: Objects, v: View, verdict: string)
    requires ProperKeys(o) && IsViewOf(o, v)
    ensures Accepts(TablesOf(v), verdict) <==> VerdictAccepts(o, verdict)
    ensures Penalizes(TablesOf(v), verdict) <==> VerdictPenalizes(o, verdict)
  {
    IndexInView(JudgementTypesType, v.judgementTypes, CollectionOf(o, JudgementTypesType));
  }

  /** A submission that every latest judgement accepts is accepted in every view; if judgements are undisputed, no
      other is. */
  lemma AcceptedInView(o: Objects, v: View, sid: string)
    requires ProperKeys(o) && IsViewOf(o, v) && Counts(o, sid) && Eligible(TablesOf(v), sid)
    ensures AcceptedIn(o, sid) ==> Accepts(TablesOf(v), JudgedOf(TablesOf(v), sid).verdict)
    ensures UndisputedStore(o) && Accepts(TablesOf(v), JudgedOf(TablesOf(v), sid).verdict) ==> AcceptedIn(o, sid)
    ensures Penalizes(TablesOf(v), JudgedOf(TablesOf(v), sid).verdict) ==> PenalizedIn(o, sid)
    ensures UndisputedStore(o) && PenalizedIn(o, sid) ==> Penalizes(TablesOf(v), JudgedOf(TablesOf(v), sid).verdict)
  {
    hide Penalizes, VerdictPenalizes, ContestLimit, Index, ProperKeys, IsViewOf, Accepts, VerdictAccepts, InTime, Best;
    assert TablesOf(v).best == Best(v.judgements);
    VerdictIsLatest(v.judgements, sid);
    var i :| i in v.judgements && IsLatest(v.judgements, sid, i) && SummaryOf(i) == Best(v.judgements)[sid];
    LatestInView(o, v, sid, i);
    VerdictInView(o, v, SummaryOf(i).verdict);
    if UndisputedStore(o) {
      forall j | LatestIn(o, sid, j)
        ensures j.body.judgementTypeId == i.body.judgementTypeId
      {
      }
    }
  }

  /** The judged submissions of a team on a problem in a view are those the store says count. */
  lemma TryInView(o: Objects, v: View, x: Judged, t: string, p: string)
    requires ProperKeys(o) && IsViewOf(o, v) && x in Of(TablesOf(v), t, p)
    ensures Eligible(TablesOf(v), x.id) && x == JudgedOf(TablesOf(v), x.id)
    ensures Counts(o, x.id) && IsTry(o, x.id, t, p) && TimeOf(o, x.id) == x.timeMs
    ensures AcceptedIn(o, x.id) ==> Accepts(TablesOf(v), x.verdict)
    ensures UndisputedStore(o) && Accepts(TablesOf(v), x.verdict) ==> AcceptedIn(o, x.id)
    ensures Penalizes(TablesOf(v), x.verdict) ==> PenalizedIn(o, x.id)
    ensures UndisputedStore(o) && PenalizedIn(o, x.id) ==> Penalizes(TablesOf(v), x.verdict)
  {
    hide Penalizes, PenalizedIn, TablesOf, ProperKeys, IsViewOf, Counts, IsTry, AcceptedIn, UndisputedStore, Accepts;
    EligibleInView(o, v, x.id);
    AcceptedInView(o, v, x.id);
  }

  lemma TryInStore(o: Objects, v: View, sid: string, t: string, p: string)
    requires ProperKeys(o) && IsViewOf(o, v) && Counts(o, sid) && IsTry(o, sid, t, p)
    ensures Eligible(TablesOf(v), sid) && JudgedOf(TablesOf(v), sid) in Of(TablesOf(v), t, p)
  {
    hide TablesOf, ProperKeys, IsViewOf;
    EligibleInView(o, v, sid);
  }

  lemma EarliestInView(o: Objects, v: View, x: Judged, t: string, p: string)
    requires ProperKeys(o) && IsViewOf(o, v) && UndisputedStore(o) && IsEarliestAccept(TablesOf(v), t, p, x)
    ensures EarliestIn(o, t, p, x.id)
  {
    hide TablesOf, ProperKeys, IsViewOf, AcceptedIn, UndisputedStore, Accepts, Of, InTime, LatestIn;
    TryInView(o, v, x, t, p);
    forall other | Counts(o, other) && IsTry(o, other, t, p) && AcceptedIn(o, other)
      ensures TimeOf(o, x.id) <= TimeOf(o, other)
    {
      TryInStore(o, v, other, t, p);
      TryInView(o, v, JudgedOf(TablesOf(v), other), t, p);
    }
  }

  lemma NoTiedRejectsInView(o: Objects, v: View, cols: seq<ProbInfo>)
    requires ProperKeys(o) && IsViewOf(o, v) && UndisputedStore(o) && IsColumns(v, cols) && NoTiedRejectsIn(o)
    ensures OrderIndependence.NoTiedRejects(TablesOf(v), cols)
  {
    hide TablesOf, ProperKeys, IsViewOf, AcceptedIn, UndisputedStore, Accepts, Of, Counts, IsTry, IsColumns, EarliestIn,
         IsEarliestAccept, ShownTeams, ColumnProblems;
    ShownInView(o, v);
    var tb := TablesOf(v);
    forall t, c | t in tb.shown && c in cols
      ensures NoRejectAtAccept(tb, t, c.id)
    {
      ColumnInView(o, v, cols, c);
      forall i, j | IsEarliestAccept(tb, t, c.id, i) && j in Of(tb, t, c.id) && !Accepts(tb, j.verdict)
        ensures i.timeMs != j.timeMs
      {
        EarliestInView(o, v, i, t, c.id);
        EarliestIsTry(tb, t, c.id, i);
        TryInView(o, v, i, t, c.id);
        TryInView(o, v, j, t, c.id);
      }
    }
  }

  lemma NoTiedPenaltiesInView(o: Objects, v: View, cols: seq<ProbInfo>)
    requires ProperKeys(o) && IsViewOf(o, v) && UndisputedStore(o) && IsColumns(v, cols) && NoTiedPenaltiesIn(o)
    ensures OrderIndependence.NoTiedPenalties(TablesOf(v), cols)
  {
    hide TablesOf, ProperKeys, IsViewOf, AcceptedIn, PenalizedIn, UndisputedStore, Accepts, Penalizes, Of, Counts,
         IsTry, IsColumns, EarliestIn, IsEarliestAccept, ShownTeams, ColumnProblems;
    ShownInView(o, v);
    var tb := TablesOf(v);
    forall t, c | t in tb.shown && c in cols
      ensures NoPenaltyAtAccept(tb, t, c.id)
    {
      ColumnInView(o, v, cols, c);
      forall i, j | IsEarliestAccept(tb, t, c.id, i) && j in Of(tb, t, c.id) && IsPenaltyReject(tb, j)
        ensures i.timeMs != j.timeMs
      {
        EarliestInView(o, v, i, t, c.id);
        EarliestIsTry(tb, t, c.id, i);
        TryInView(o, v, i, t, c.id);
        TryInView(o, v, j, t, c.id);
      }
    }
  }

  lemma EarliestIsTry(tb: Tables, t: string, p: string, x: Judged)
    requires tb.Typed() && IsEarliestAccept(tb, t, p, x)
    ensures x in Of(tb, t, p)
  {
  }
}
