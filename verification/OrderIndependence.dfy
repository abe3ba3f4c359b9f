/** Standings do not depend on the order in which a store's hash maps are walked. */
module OrderIndependence {
  import opened Types
  import opened Collections
  import opened ScoreboardSpec
  import opened AccumTheorems
  import opened StandingsTheorems

  ghost predicate DistinctIds(objs: seq<ContestObject>) {
    forall i, j | 0 <= i < j < |objs| :: objs[i].id != objs[j].id
  }

  /** Two enumerations of one store in which every object is stored under its own id. */
  ghost predicate SameStore(v: View, w: View) {
    && v.contest == w.contest
    && v.state == w.state
    && multiset(v.problems) == multiset(w.problems)
    && multiset(v.judgementTypes) == multiset(w.judgementTypes)
    && multiset(v.submissions) == multiset(w.submissions)
    && multiset(v.judgements) == multiset(w.judgements)
    && multiset(v.teams) == multiset(w.teams)
    && multiset(v.organizations) == multiset(w.organizations)
    && multiset(v.awards) == multiset(w.awards)
    && DistinctIds(v.judgementTypes) && DistinctIds(w.judgementTypes)
    && DistinctIds(v.submissions) && DistinctIds(w.submissions)
    && DistinctIds(v.teams) && DistinctIds(w.teams)
    && DistinctIds(v.organizations) && DistinctIds(w.organizations)
  }

  /** Of the latest judgements on one submission all give the same verdict. */
  ghost predicate Undisputed(judgements: seq<ContestObject>) {
    forall sid, i, j | IsLatest(judgements, sid, i) && IsLatest(judgements, sid, j) ::
      i.body.judgementTypeId == j.body.judgementTypeId
  }

  // ---- The tables agree ----

  lemma SameMembers<T>(a: seq<T>, b: seq<T>)
    requires multiset(a) == multiset(b)
    ensures forall x | x in a :: x in b
    ensures forall x | x in b :: x in a
  {
    forall x | x in a
      ensures x in b
    {
      assert x in multiset(a);
    }
    forall x | x in b
      ensures x in a
    {
      assert x in multiset(b);
    }
  }

  lemma {:induction false} IndexHolds(kind: ObjectType, objs: seq<ContestObject>)
    requires DistinctIds(objs)
    ensures forall o | o in objs && KindOf(o.body) == kind :: o.id in Index(kind, objs) && Index(kind, objs)[o.id] == o
  {
    if objs != [] {
      var last := |objs| - 1;
      assert objs == objs[..last] + [objs[last]];
      IndexHolds(kind, objs[..last]);
    }
  }

  lemma IndexOfPermutation(kind: ObjectType, a: seq<ContestObject>, b: seq<ContestObject>)
    requires DistinctIds(a) && DistinctIds(b) && multiset(a) == multiset(b)
    ensures Index(kind, a) == Index(kind, b)
  {
    SameMembers(a, b);
    IndexHolds(kind, a);
    IndexHolds(kind, b);
  }

  lemma BestOfPermutation(a: seq<ContestObject>, b: seq<ContestObject>)
    requires multiset(a) == multiset(b) && Undisputed(a)
    ensures Best(a) == Best(b)
  {
    SameMembers(a, b);
    forall sid
      ensures sid in Best(a) <==> sid in Best(b)
      ensures sid in Best(a) ==> Best(a)[sid] == Best(b)[sid]
    {
      VerdictIsLatest(a, sid);
      VerdictIsLatest(b, sid);
      if sid in Best(a) {
        var i :| i in a && IsLatest(a, sid, i) && SummaryOf(i) == Best(a)[sid];
        var j :| j in b && IsLatest(b, sid, j) && SummaryOf(j) == Best(b)[sid];
        assert IsLatest(a, sid, j);
      }
    }
  }

  /** `a` with one member moved to the front. */
  lemma MoveToFront(a: seq<ContestObject>, x: ContestObject) returns (b: seq<ContestObject>)
    requires x in a
    ensures multiset(b) == multiset(a) && b != [] && b[0] == x
  {
    var k :| 0 <= k < |a| && a[k] == x;
    b := [x] + (a[..k] + a[k + 1..]);
    assert a == a[..k] + [x] + a[k + 1..];
  }

  lemma {:induction false} FirstLatestWins(a: seq<ContestObject>, sid: string, n: nat)
    requires 0 < n <= |a| && IsLatest(a, sid, a[0])
    ensures sid in Best(a[..n]) && Best(a[..n])[sid] == SummaryOf(a[0])
  {
    assert a[..n][..n - 1] == a[..n - 1];
    if n > 1 {
      assert a[n - 1] in a;
      FirstLatestWins(a, sid, n - 1);
    }
  }

  lemma LatestCanWin(a: seq<ContestObject>, sid: string, x: ContestObject) returns (b: seq<ContestObject>)
    requires IsLatest(a, sid, x)
    ensures multiset(b) == multiset(a) && sid in Best(b) && Best(b)[sid] == SummaryOf(x)
  {
    b := MoveToFront(a, x);
    SameMembers(a, b);
    FirstLatestWins(b, sid, |b|);
    assert b[..|b|] == b;
  }

  /** The verdicts used do not depend on the order in which judgements are walked, exactly if the latest judgements on
      each submission give the same verdict. */
  lemma VerdictsIndependentOfOrder(a: seq<ContestObject>)
    ensures (forall b | multiset(b) == multiset(a) :: Best(b) == Best(a)) <==> Undisputed(a)
  {
    if Undisputed(a) {
      forall b | multiset(b) == multiset(a)
        ensures Best(b) == Best(a)
      {
        BestOfPermutation(a, b);
      }
    } else {
      var sid, i, j :| IsLatest(a, sid, i) && IsLatest(a, sid, j) && i.body.judgementTypeId != j.body.judgementTypeId;
      var b := LatestCanWin(a, sid, i);
      var c := LatestCanWin(a, sid, j);
      assert Best(b) != Best(c);
    }
  }

  lemma SameTables(v: View, w: View)
    requires SameStore(v, w) && Undisputed(v.judgements)
    ensures TablesOf(v) == TablesOf(w)
  {
    hide Index, Best, ContestLimit, PenaltyMinutes;
    IndexOfPermutation(JudgementTypesType, v.judgementTypes, w.judgementTypes);
    IndexOfPermutation(SubmissionsType, v.submissions, w.submissions);
    IndexOfPermutation(TeamsType, v.teams, w.teams);
    IndexOfPermutation(OrganizationsType, v.organizations, w.organizations);
    BestOfPermutation(v.judgements, w.judgements);
    SameMembers(v.teams, w.teams);
  }

  // ---- Columns and awards agree up to order ----

  lemma {:induction false} ProbInfosOfParts(a: seq<ContestObject>, b: seq<ContestObject>)
    ensures ProbInfos(a + b) == ProbInfos(a) + ProbInfos(b)
  {
    if b == [] {
      assert a + b == a;
    } else {
      var last := |b| - 1;
      assert (a + b)[..|a + b| - 1] == a + b[..last];
      ProbInfosOfParts(a, b[..last]);
    }
  }

  lemma {:induction false} ProbInfosOfPermutation(a: seq<ContestObject>, b: seq<ContestObject>)
    requires multiset(a) == multiset(b)
    ensures multiset(ProbInfos(a)) == multiset(ProbInfos(b))
    decreases |a|
  {
    if a == [] {
      assert multiset(b) == multiset{};
      assert b == [];
    } else {
      var x, last := a[|a| - 1], |a| - 1;
      assert a == a[..last] + [x];
      var k := PositionOf(b, x, a[..last]);
      ProbInfosOfPermutation(a[..last], b[..k] + b[k + 1..]);
      ProbInfosOfParts(a[..last], [x]);
      ProbInfosOfParts(b[..k], b[k + 1..]);
      ProbInfosOfParts(b[..k] + [x], b[k + 1..]);
      ProbInfosOfParts(b[..k], [x]);
    }
  }

  /** Removing the last element of one permutation removes a matching element of the other. */
  lemma PositionOf<T>(b: seq<T>, x: T, rest: seq<T>) returns (k: nat)
    requires multiset(b) == multiset(rest + [x])
    ensures k < |b| && b[k] == x && b == b[..k] + [x] + b[k + 1..]
    ensures multiset(rest) == multiset(b[..k] + b[k + 1..])
  {
    assert x in multiset(b);
    k :| 0 <= k < |b| && b[k] == x;
    assert b == b[..k] + [x] + b[k + 1..];
    assert multiset(b[..k] + b[k + 1..]) == multiset(b) - multiset{x};
    assert multiset(rest) == multiset(rest + [x]) - multiset{x};
  }

  lemma {:induction false} AwardsOfParts(a: seq<ContestObject>, b: seq<ContestObject>, t: string)
    ensures AwardsOf(a + b, t) == AwardsOf(a, t) + AwardsOf(b, t)
  {
    hide Copies;
    if b == [] {
      assert a + b == a;
    } else {
      var last := |b| - 1;
      assert (a + b)[..|a + b| - 1] == a + b[..last];
      AwardsOfParts(a, b[..last], t);
    }
  }

  lemma {:induction false} AwardsOfPermutation(a: seq<ContestObject>, b: seq<ContestObject>, t: string)
    requires multiset(a) == multiset(b)
    ensures multiset(AwardsOf(a, t)) == multiset(AwardsOf(b, t))
    decreases |a|
  {
    if a == [] {
      assert multiset(b) == multiset{};
      assert b == [];
    } else {
      var x, last := a[|a| - 1], |a| - 1;
      assert a == a[..last] + [x];
      var k := PositionOf(b, x, a[..last]);
      AwardsOfPermutation(a[..last], b[..k] + b[k + 1..], t);
      AwardsOfParts(a[..last], [x], t);
      AwardsOfParts(b[..k], b[k + 1..], t);
      AwardsOfParts(b[..k] + [x], b[k + 1..], t);
      AwardsOfParts(b[..k], [x], t);
    }
  }

  // ---- Cells agree ----

  /** What every listing agrees on, ties or not: status, solve time, and the attempts of unsolved cells. */
  lemma SameOutcome(tb: Tables, o1: seq<Judged>, o2: seq<Judged>, t: string, p: string)
    requires tb.Typed() && IsOrder(tb, o1) && IsOrder(tb, o2)
    ensures
      var a, b := Outcome(tb, o1, t, p), Outcome(tb, o2, t, p);
      a.solved == b.solved && a.acceptTimeMs == b.acceptTimeMs && (!a.solved ==> a == b)
  {
    if t !in tb.hidden {
      SolvedAtEarliestAccept(tb, o1, t, p);
      SolvedAtEarliestAccept(tb, o2, t, p);
      if !Outcome(tb, o1, t, p).solved {
        UnsolvedCounts(tb, o1, t, p);
        UnsolvedCounts(tb, o2, t, p);
      }
    }
  }

  /** Without rejects tied with the accept, everything agrees. */
  lemma SameOutcomeWithoutTiedRejects(tb: Tables, o1: seq<Judged>, o2: seq<Judged>, t: string, p: string)
    requires tb.Typed() && IsOrder(tb, o1) && IsOrder(tb, o2) && NoRejectAtAccept(tb, t, p)
    ensures Outcome(tb, o1, t, p) == Outcome(tb, o2, t, p)
  {
    SameOutcome(tb, o1, o2, t, p);
    if t !in tb.hidden && Outcome(tb, o1, t, p).solved {
      SolvedCounts(tb, o1, t, p);
      SolvedCounts(tb, o2, t, p);
    }
  }

  /** The outcome of a team on a problem does not depend on how ties in contest time are broken, exactly if no reject
      has the time of the earliest accept. */
  lemma OutcomeIndependentOfTies(tb: Tables, order: seq<Judged>, t: string, p: string)
    requires tb.Typed() && IsOrder(tb, order) && t !in tb.hidden
    ensures (forall o | IsOrder(tb, o) :: Outcome(tb, o, t, p) == Outcome(tb, order, t, p))
            <==> NoRejectAtAccept(tb, t, p)
  {
    if NoRejectAtAccept(tb, t, p) {
      forall o | IsOrder(tb, o)
        ensures Outcome(tb, o, t, p) == Outcome(tb, order, t, p)
      {
        SameOutcomeWithoutTiedRejects(tb, o, order, t, p);
      }
    } else {
      var x, y :| IsEarliestAccept(tb, t, p, x) && y in Of(tb, t, p) && !Accepts(tb, y.verdict) && x.timeMs == y.timeMs;
      var o := RejectAtAcceptMatters(tb, order, t, p, x, y);
      assert Outcome(tb, o, t, p) != Outcome(tb, order, t, p);
    }
  }

  /** Without penalized rejects tied with the accept, the penalty agrees. */
  lemma SamePenaltyAttempts(tb: Tables, o1: seq<Judged>, o2: seq<Judged>, t: string, p: string)
    requires tb.Typed() && IsOrder(tb, o1) && IsOrder(tb, o2) && NoPenaltyAtAccept(tb, t, p)
    ensures Outcome(tb, o1, t, p).penaltyAttempts == Outcome(tb, o2, t, p).penaltyAttempts
  {
    SameOutcome(tb, o1, o2, t, p);
    if t !in tb.hidden && Outcome(tb, o1, t, p).solved {
      SolvedPenalties(tb, o1, t, p);
      SolvedPenalties(tb, o2, t, p);
    }
  }

  /** The penalty attempts of a team on a problem do not depend on how ties in contest time are broken, exactly if no
      penalized reject has the time of the earliest accept. */
  lemma PenaltyIndependentOfTies(tb: Tables, order: seq<Judged>, t: string, p: string)
    requires tb.Typed() && IsOrder(tb, order) && t !in tb.hidden
    ensures (forall o | IsOrder(tb, o) ::
               Outcome(tb, o, t, p).penaltyAttempts == Outcome(tb, order, t, p).penaltyAttempts)
            <==> NoPenaltyAtAccept(tb, t, p)
  {
    if NoPenaltyAtAccept(tb, t, p) {
      forall o | IsOrder(tb, o)
        ensures Outcome(tb, o, t, p).penaltyAttempts == Outcome(tb, order, t, p).penaltyAttempts
      {
        SamePenaltyAttempts(tb, o, order, t, p);
      }
    } else {
      var x, y :| IsEarliestAccept(tb, t, p, x) && y in Of(tb, t, p) && IsPenaltyReject(tb, y) && x.timeMs == y.timeMs;
      var o := RejectAtAcceptMatters(tb, order, t, p, x, y);
      assert Outcome(tb, o, t, p).penaltyAttempts != Outcome(tb, order, t, p).penaltyAttempts;
    }
  }

  /** Equal terms over permuted columns add up to equal sums. */
  lemma SameSum(f: ProbInfo -> int, g: ProbInfo -> int, c1: seq<ProbInfo>, c2: seq<ProbInfo>)
    requires multiset(c1) == multiset(c2)
    requires forall c | c in c1 :: f(c) == g(c)
    ensures Sum(f, c1) == Sum(g, c2)
  {
    SumOfEqualTerms(f, g, c1);
    SumOfPermutation(g, c1, c2);
  }

  lemma SameSolved(tb: Tables, o1: seq<Judged>, o2: seq<Judged>, c1: seq<ProbInfo>, c2: seq<ProbInfo>, t: string)
    requires tb.Typed() && IsOrder(tb, o1) && IsOrder(tb, o2) && multiset(c1) == multiset(c2)
    ensures ScoreOf(tb, o1, c1, t).solved == ScoreOf(tb, o2, c2, t).solved
  {
    forall c: ProbInfo
      ensures SolvedIn(tb, o1, t, c) == SolvedIn(tb, o2, t, c)
    {
      SameOutcome(tb, o1, o2, t, c.id);
    }
    SameSum((c: ProbInfo) => SolvedIn(tb, o1, t, c), (c: ProbInfo) => SolvedIn(tb, o2, t, c), c1, c2);
  }

  lemma PenaltyParts(a: ProblemAccum, b: ProblemAccum, penaltyMinutes: int)
    requires a.solved == b.solved && a.acceptTimeMs == b.acceptTimeMs && a.penaltyAttempts == b.penaltyAttempts
    ensures PenaltyOf(a, penaltyMinutes) == PenaltyOf(b, penaltyMinutes)
  {
  }

  lemma SamePenaltyIn(tb: Tables, o1: seq<Judged>, o2: seq<Judged>, t: string, c: ProbInfo)
    requires tb.Typed() && IsOrder(tb, o1) && IsOrder(tb, o2) && NoPenaltyAtAccept(tb, t, c.id)
    ensures PenaltyIn(tb, o1, t, c) == PenaltyIn(tb, o2, t, c)
  {
    hide Outcome, PenaltyOf, IsOrder, NoPenaltyAtAccept;
    SameOutcome(tb, o1, o2, t, c.id);
    SamePenaltyAttempts(tb, o1, o2, t, c.id);
    PenaltyParts(Outcome(tb, o1, t, c.id), Outcome(tb, o2, t, c.id), tb.penaltyMinutes);
  }

  lemma SamePenalty(tb: Tables, o1: seq<Judged>, o2: seq<Judged>, c1: seq<ProbInfo>, c2: seq<ProbInfo>, t: string)
    requires tb.Typed() && IsOrder(tb, o1) && IsOrder(tb, o2) && multiset(c1) == multiset(c2)
    requires forall c | c in c1 :: NoPenaltyAtAccept(tb, t, c.id)
    ensures ScoreOf(tb, o1, c1, t).penalty == ScoreOf(tb, o2, c2, t).penalty
  {
    forall c | c in c1
      ensures PenaltyIn(tb, o1, t, c) == PenaltyIn(tb, o2, t, c)
    {
      SamePenaltyIn(tb, o1, o2, t, c);
    }
    SameSum((c: ProbInfo) => PenaltyIn(tb, o1, t, c), (c: ProbInfo) => PenaltyIn(tb, o2, t, c), c1, c2);
  }

  ghost predicate NoTiedRejects(tb: Tables, cols: seq<ProbInfo>)
    requires tb.Typed()
  {
    forall t, c | t in tb.shown && c in cols :: NoRejectAtAccept(tb, t, c.id)
  }

  ghost predicate NoTiedPenalties(tb: Tables, cols: seq<ProbInfo>)
    requires tb.Typed()
  {
    forall t, c | t in tb.shown && c in cols :: NoPenaltyAtAccept(tb, t, c.id)
  }

  lemma SamePlace(tb: Tables, o1: seq<Judged>, o2: seq<Judged>, c1: seq<ProbInfo>, c2: seq<ProbInfo>, t: string)
    requires tb.Typed() && IsOrder(tb, o1) && IsOrder(tb, o2) && multiset(c1) == multiset(c2)
    requires NoTiedPenalties(tb, c1) && t in tb.shown
    ensures ScoreOf(tb, o1, c1, t) == ScoreOf(tb, o2, c2, t)
    ensures Place(tb, o1, c1, t) == Place(tb, o2, c2, t)
  {
    forall u | u in tb.shown
      ensures ScoreOf(tb, o1, c1, u) == ScoreOf(tb, o2, c2, u)
    {
      SameSolved(tb, o1, o2, c1, c2, u);
      SamePenalty(tb, o1, o2, c1, c2, u);
    }
    var s := ScoreOf(tb, o1, c1, t);
    assert Ahead(tb, o1, c1, s) == Ahead(tb, o2, c2, s);
  }

  // ---- Main results ----

  /** Two builds from one store under any enumerations and any choices among equals. */
  ghost predicate TwoBuilds(v: View, w: View, c1: seq<ProbInfo>, c2: seq<ProbInfo>, o1: seq<Judged>, o2: seq<Judged>,
                            f1: map<string, string>, f2: map<string, string>,
                            s1: ScoreboardSnapshot, s2: ScoreboardSnapshot)
  {
    && SameStore(v, w) && Undisputed(v.judgements)
    && IsSnapshot(v, c1, o1, f1, s1) && IsSnapshot(w, c2, o2, f2, s2)
  }

  lemma SameColumns(v: View, w: View, c1: seq<ProbInfo>, c2: seq<ProbInfo>)
    requires SameStore(v, w) && IsColumns(v, c1) && IsColumns(w, c2)
    ensures multiset(c1) == multiset(c2)
  {
    ProbInfosOfPermutation(v.problems, w.problems);
  }

  /** Even when contest times tie: the same teams have rows, and a team's row has the same texts, solved count and
      awards (as a multiset) in both builds. */
  lemma RowsAgree(v: View, w: View, c1: seq<ProbInfo>, c2: seq<ProbInfo>, o1: seq<Judged>, o2: seq<Judged>,
                  f1: map<string, string>, f2: map<string, string>, s1: ScoreboardSnapshot, s2: ScoreboardSnapshot,
                  r1: ScoreboardRow, r2: ScoreboardRow)
    requires TwoBuilds(v, w, c1, c2, o1, o2, f1, f2, s1, s2)
    requires r1 in s1.rows && r2 in s2.rows && r1.teamId == r2.teamId
    ensures r1.teamName == r2.teamName
    ensures r1.organizationId == r2.organizationId && r1.organizationName == r2.organizationName
    ensures r1.solved == r2.solved
    ensures multiset(r1.awards) == multiset(r2.awards)
  {
    SameTables(v, w);
    SnapshotRow(v, c1, o1, f1, s1, r1);
    SnapshotRow(w, c2, o2, f2, s2, r2);
    SameColumns(v, w, c1, c2);
    SameSolved(TablesOf(v), o1, o2, c1, c2, r1.teamId);
    AwardsOfPermutation(v.awards, w.awards, r1.teamId);
  }

  lemma SameTeamsHaveRows(v: View, w: View, c1: seq<ProbInfo>, c2: seq<ProbInfo>, o1: seq<Judged>, o2: seq<Judged>,
                          f1: map<string, string>, f2: map<string, string>,
                          s1: ScoreboardSnapshot, s2: ScoreboardSnapshot, r1: ScoreboardRow)
    requires TwoBuilds(v, w, c1, c2, o1, o2, f1, f2, s1, s2) && r1 in s1.rows
    ensures exists r2 | r2 in s2.rows :: r2.teamId == r1.teamId
  {
    SameTables(v, w);
    SnapshotRow(v, c1, o1, f1, s1, r1);
    ShownTeamHasRow(w, c2, o2, f2, s2, r1.teamId);
  }

  /** Even when contest times tie: cells of one team on one problem agree on status and solve time, and on attempts
      unless the problem is solved. */
  lemma CellsAgree(v: View, w: View, c1: seq<ProbInfo>, c2: seq<ProbInfo>, o1: seq<Judged>, o2: seq<Judged>,
                   f1: map<string, string>, f2: map<string, string>, s1: ScoreboardSnapshot, s2: ScoreboardSnapshot,
                   r1: ScoreboardRow, r2: ScoreboardRow, x1: ProblemResultCell, x2: ProblemResultCell)
    requires TwoBuilds(v, w, c1, c2, o1, o2, f1, f2, s1, s2)
    requires r1 in s1.rows && r2 in s2.rows && r1.teamId == r2.teamId
    requires x1 in r1.cells && x2 in r2.cells && x1.problemId == x2.problemId
    ensures x1.status == x2.status
    ensures x1.timeMinutes == x2.timeMinutes
    ensures x1.status != Solved ==> x1.attempts == x2.attempts
  {
    SameTables(v, w);
    SnapshotCell(v, c1, o1, f1, s1, r1, x1);
    SnapshotCell(w, c2, o2, f2, s2, r2, x2);
    SameOutcome(TablesOf(v), o1, o2, r1.teamId, x1.problemId);
  }

  /** If no shown team has a penalized reject tied with its accept on a column problem, scores and places agree too. */
  lemma PlacesAgree(v: View, w: View, c1: seq<ProbInfo>, c2: seq<ProbInfo>, o1: seq<Judged>, o2: seq<Judged>,
                    f1: map<string, string>, f2: map<string, string>, s1: ScoreboardSnapshot, s2: ScoreboardSnapshot,
                    r1: ScoreboardRow, r2: ScoreboardRow)
    requires TwoBuilds(v, w, c1, c2, o1, o2, f1, f2, s1, s2)
    requires NoTiedPenalties(TablesOf(v), c1)
    requires r1 in s1.rows && r2 in s2.rows && r1.teamId == r2.teamId
    ensures r1.penalty == r2.penalty
    ensures r1.place == r2.place
  {
    SameTables(v, w);
    SnapshotRow(v, c1, o1, f1, s1, r1);
    SnapshotRow(w, c2, o2, f2, s2, r2);
    SameColumns(v, w, c1, c2);
    SamePlace(TablesOf(v), o1, o2, c1, c2, r1.teamId);
  }

  /** Under the same condition the attempts of solved cells agree as well. */
  lemma AttemptsAgree(v: View, w: View, c1: seq<ProbInfo>, c2: seq<ProbInfo>, o1: seq<Judged>, o2: seq<Judged>,
                      f1: map<string, string>, f2: map<string, string>, s1: ScoreboardSnapshot, s2: ScoreboardSnapshot,
                      r1: ScoreboardRow, r2: ScoreboardRow, x1: ProblemResultCell, x2: ProblemResultCell)
    requires TwoBuilds(v, w, c1, c2, o1, o2, f1, f2, s1, s2)
    requires r1 in s1.rows && r2 in s2.rows && r1.teamId == r2.teamId
    requires x1 in r1.cells && x2 in r2.cells && x1.problemId == x2.problemId
    requires NoRejectAtAccept(TablesOf(v), r1.teamId, x1.problemId)
    ensures x1.attempts == x2.attempts
  {
    SameTables(v, w);
    SnapshotCell(v, c1, o1, f1, s1, r1, x1);
    SnapshotCell(w, c2, o2, f2, s2, r2, x2);
    SameOutcomeWithoutTiedRejects(TablesOf(v), o1, o2, r1.teamId, x1.problemId);
  }
}
