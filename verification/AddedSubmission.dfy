/** What one more judged submission does to the standings, the enumeration of everything else being fixed. */
module AddedSubmission {
  import opened Types
  import opened Collections
  import opened ScoreboardSpec
  import opened AccumTheorems
  import opened StandingsTheorems

  function Insert<T>(s: seq<T>, k: nat, x: T): seq<T>
    requires k <= |s|
  {
    s[..k] + [x] + s[k..]
  }

  // ---- Adding a submission and its judgement to a store ----

  /** `s` is a submission under an id that nothing in `v` mentions, and `j` is its one judgement with a verdict. */
  ghost predicate IsFresh(v: View, s: ContestObject, j: ContestObject) {
    && s.body.Submission?
    && HasVerdict(j) && j.body.submissionId.value == s.id
    && (forall o | o in v.submissions :: o.id != s.id)
    && (forall o | o in v.judgements && HasVerdict(o) :: o.body.submissionId.value != s.id)
  }

  /** `v` with `s` and `j` met at places `a` and `b` of the walks over their hash maps. */
  function Added(v: View, s: ContestObject, j: ContestObject, a: nat, b: nat): View
    requires a <= |v.submissions| && b <= |v.judgements|
  {
    v.(submissions := Insert(v.submissions, a, s), judgements := Insert(v.judgements, b, j))
  }

  lemma {:induction false} IndexOfInsertion(kind: ObjectType, objs: seq<ContestObject>, k: nat, o: ContestObject)
    requires k <= |objs| && KindOf(o.body) == kind && forall x | x in objs :: x.id != o.id
    ensures Index(kind, Insert(objs, k, o)) == Index(kind, objs)[o.id := o]
  {
    hide Insert, KindOf, Index;
    InsertedPrefix(objs, k, o);
    IndexOfLast(kind, Insert(objs, k, o));
    if k < |objs| {
      var last := |objs| - 1;
      assert objs[last] in objs;
      IndexOfLast(kind, objs);
      IndexOfInsertion(kind, objs[..last], k, o);
    }
  }

  lemma IndexOfLast(kind: ObjectType, objs: seq<ContestObject>)
    requires objs != []
    ensures
      var x, before := objs[|objs| - 1], Index(kind, objs[..|objs| - 1]);
      Index(kind, objs) == if KindOf(x.body) == kind then before[x.id := x] else before
  {
  }

  lemma InsertedPrefix<T>(s: seq<T>, k: nat, x: T)
    requires k <= |s|
    ensures |Insert(s, k, x)| == |s| + 1
    ensures k == |s| ==> Insert(s, k, x)[..|s|] == s && Insert(s, k, x)[|s|] == x
    ensures k < |s| ==> Insert(s, k, x)[..|s|] == Insert(s[..|s| - 1], k, x) && Insert(s, k, x)[|s|] == s[|s| - 1]
  {
  }

  lemma {:induction false} BestOfInsertion(js: seq<ContestObject>, k: nat, j: ContestObject)
    requires k <= |js| && HasVerdict(j)
    requires forall o | o in js && HasVerdict(o) :: o.body.submissionId.value != j.body.submissionId.value
    ensures Best(Insert(js, k, j)) == Best(js)[j.body.submissionId.value := SummaryOf(j)]
    ensures j.body.submissionId.value !in Best(js)
  {
    hide Insert, Best, EndMs;
    InsertedPrefix(js, k, j);
    VerdictIsLatest(js, j.body.submissionId.value);
    BestOfLast(Insert(js, k, j));
    if k < |js| {
      var last := |js| - 1;
      assert js[last] in js;
      BestOfLast(js);
      BestOfInsertion(js[..last], k, j);
    }
  }

  lemma BestOfLast(js: seq<ContestObject>)
    requires js != []
    ensures
      var j, before := js[|js| - 1], Best(js[..|js| - 1]);
      Best(js) ==
        if HasVerdict(j) && (j.body.submissionId.value in before ==> before[j.body.submissionId.value].endMs < EndMs(j))
        then before[j.body.submissionId.value := SummaryOf(j)]
        else before
  {
  }

  /** The tables of a store with one more judged submission. */
  ghost function Grown(tb: Tables, s: ContestObject, summary: JudgeSummary): Tables {
    tb.(submissions := tb.submissions[s.id := s], best := tb.best[s.id := summary])
  }

  lemma AddedTables(v: View, s: ContestObject, j: ContestObject, a: nat, b: nat)
    requires IsFresh(v, s, j) && a <= |v.submissions| && b <= |v.judgements|
    ensures TablesOf(Added(v, s, j, a, b)) == Grown(TablesOf(v), s, SummaryOf(j))
    ensures s.id !in TablesOf(v).best
  {
    IndexOfInsertion(SubmissionsType, v.submissions, a, s);
    BestOfInsertion(v.judgements, b, j);
  }

  // ---- The chronological listing with and without the new submission ----

  ghost predicate Fits(tb: Tables, s: ContestObject, summary: JudgeSummary) {
    tb.Typed() && s.body.Submission? && s.id !in tb.best
  }

  lemma GrownJudged(tb: Tables, s: ContestObject, summary: JudgeSummary)
    requires Fits(tb, s, summary)
    ensures
      var tb' := Grown(tb, s, summary);
      && tb'.Typed()
      && (!Eligible(tb', s.id) ==> JudgedSet(tb') == JudgedSet(tb))
      && (Eligible(tb', s.id) ==> JudgedOf(tb', s.id) !in JudgedSet(tb))
      && (Eligible(tb', s.id) ==> JudgedSet(tb') == JudgedSet(tb) + {JudgedOf(tb', s.id)})
  {
    var tb' := Grown(tb, s, summary);
    forall sid | sid in tb.best
      ensures Eligible(tb', sid) <==> Eligible(tb, sid)
      ensures Eligible(tb, sid) ==> JudgedOf(tb', sid) == JudgedOf(tb, sid)
    {
    }
    if Eligible(tb', s.id) {
      forall j | j in JudgedSet(tb')
        ensures j in JudgedSet(tb) + {JudgedOf(tb', s.id)}
      {
      }
    } else {
      assert JudgedSet(tb') == JudgedSet(tb);
    }
  }

  lemma EnumeratesInsertion<T>(s: seq<T>, k: nat, x: T, elems: set<T>)
    requires k <= |s| && x !in elems
    ensures Enumerates(Insert(s, k, x), elems + {x}) <==> Enumerates(s, elems)
  {
    var all := Insert(s, k, x);
    assert forall i | 0 <= i < k :: all[i] == s[i];
    assert forall i | k <= i < |s| :: all[i + 1] == s[i];
    if Enumerates(all, elems + {x}) {
      forall i | 0 <= i < |s|
        ensures s[i] in elems
      {
        var n := if i < k then i else i + 1;
        assert all[n] == s[i] && all[k] == x && all[n] in all;
      }
      forall y | y in elems
        ensures y in s
      {
        assert y in all;
      }
    }
  }

  lemma SortedWithout(order: seq<Judged>, k: nat, x: Judged)
    requires k <= |order| && Sorted(Insert(order, k, x), Earlier)
    ensures Sorted(order, Earlier)
  {
    var all := Insert(order, k, x);
    forall i, j | 0 <= i < j < |order|
      ensures !Earlier(order[j], order[i])
    {
      var n, m := if i < k then i else i + 1, if j < k then j else j + 1;
      assert all[n] == order[i] && all[m] == order[j];
    }
  }

  /** With the new entry in a fitting place, one listing is chronological for the larger store exactly if the other is
      for the smaller store. */
  lemma OrderWithAndWithout(tb: Tables, s: ContestObject, summary: JudgeSummary, order: seq<Judged>, k: nat)
    requires Fits(tb, s, summary) && Grown(tb, s, summary).Typed() && Eligible(Grown(tb, s, summary), s.id)
    requires k <= |order| && Sorted(Insert(order, k, JudgedOf(Grown(tb, s, summary), s.id)), Earlier)
    ensures IsOrder(Grown(tb, s, summary), Insert(order, k, JudgedOf(Grown(tb, s, summary), s.id)))
            <==> IsOrder(tb, order)
  {
    var x := JudgedOf(Grown(tb, s, summary), s.id);
    GrownJudged(tb, s, summary);
    EnumeratesInsertion(order, k, x, JudgedSet(tb));
    SortedWithout(order, k, x);
  }

  // ---- Accumulators with and without it ----

  lemma ProjectOfInsertion(order: seq<Judged>, k: nat, x: Judged, t: string, p: string)
    requires k <= |order|
    ensures Project(order, t, p) == Project(order[..k], t, p) + Project(order[k..], t, p)
    ensures Project(Insert(order, k, x), t, p) ==
            Project(order[..k], t, p) + (Project([x], t, p) + Project(order[k..], t, p))
    ensures Project([x], t, p) == if x.team == t && x.problem == p then [x] else []
  {
    assert order == order[..k] + order[k..];
    ProjectOfParts(order[..k], order[k..], t, p);
    assert Insert(order, k, x) == order[..k] + ([x] + order[k..]);
    ProjectOfParts(order[..k], [x] + order[k..], t, p);
    ProjectOfParts([x], order[k..], t, p);
    assert [x][..0] == [];
  }

  /** After an accept, further submissions do not change an accumulator. */
  lemma {:induction false} SolvedIsFinal(tb: Tables, js: seq<Judged>, more: seq<Judged>)
    requires tb.Typed() && AccumOf(tb, js).solved
    ensures AccumOf(tb, js + more) == AccumOf(tb, js)
    decreases |more|
  {
    if more == [] {
      assert js + more == js;
    } else {
      var last := |more| - 1;
      var all := js + more;
      assert all[..|all| - 1] == js + more[..last];
      SolvedIsFinal(tb, js, more[..last]);
      var k := FirstAccept(tb, js + more[..last]);
      assert all[..k] == (js + more[..last])[..k];
    }
  }

  /** A submission that cannot matter where it stands: of a hidden or unknown team, or after the team's accept. */
  ghost predicate Irrelevant(tb: Tables, before: seq<Judged>, x: Judged)
    requires tb.Typed()
  {
    x.team in tb.hidden || x.team !in tb.shown || Outcome(tb, before, x.team, x.problem).solved
  }

  lemma TriesOfInsertion(tb: Tables, order: seq<Judged>, k: nat, x: Judged, t: string, p: string)
    requires k <= |order|
    ensures Tries(tb, order, t, p) == Tries(tb, order[..k], t, p) + Tries(tb, order[k..], t, p)
    ensures t in tb.hidden || x.team != t || x.problem != p ==>
            Tries(tb, Insert(order, k, x), t, p) == Tries(tb, order, t, p)
    ensures t !in tb.hidden && x.team == t && x.problem == p ==>
            Tries(tb, Insert(order, k, x), t, p) == Tries(tb, order[..k], t, p) + ([x] + Tries(tb, order[k..], t, p))
  {
    hide Project, Insert;
    ProjectOfInsertion(order, k, x, t, p);
    if x.team != t || x.problem != p {
      assert [] + Project(order[k..], t, p) == Project(order[k..], t, p);
    }
  }

  lemma IrrelevantOutcome(tb: Tables, order: seq<Judged>, k: nat, x: Judged, t: string, p: string)
    requires tb.Typed() && k <= |order| && Irrelevant(tb, order[..k], x) && t in tb.shown
    ensures Outcome(tb, Insert(order, k, x), t, p) == Outcome(tb, order, t, p)
  {
    TriesOfInsertion(tb, order, k, x, t, p);
    if t !in tb.hidden && x.team == t && x.problem == p {
      SolvedIsFinal(tb, Tries(tb, order[..k], t, p), [x] + Tries(tb, order[k..], t, p));
      SolvedIsFinal(tb, Tries(tb, order[..k], t, p), Tries(tb, order[k..], t, p));
    }
  }

  // ---- Standings that agree because all outcomes agree ----

  /** The tables differ at most in what listings are built from. */
  predicate SameDisplay(tb: Tables, tb': Tables) {
    && tb'.limitMs == tb.limitMs && tb'.penaltyMinutes == tb.penaltyMinutes && tb'.verdicts == tb.verdicts
    && tb'.teams == tb.teams && tb'.shown == tb.shown && tb'.hidden == tb.hidden
    && tb'.organizations == tb.organizations
  }

  ghost predicate SameOutcomes(tb: Tables, o: seq<Judged>, tb': Tables, o': seq<Judged>)
    requires tb.Typed() && tb'.Typed()
  {
    SameDisplay(tb, tb') && forall t, p | t in tb.shown :: Outcome(tb', o', t, p) == Outcome(tb, o, t, p)
  }

  lemma {:induction false} OutcomeUsesVerdictsOnly(tb: Tables, tb': Tables, js: seq<Judged>)
    requires tb.Typed() && tb'.Typed() && tb'.verdicts == tb.verdicts
    ensures FirstAccept(tb', js) == FirstAccept(tb, js)
    ensures PenaltyRejects(tb', js) == PenaltyRejects(tb, js)
    ensures AccumOf(tb', js) == AccumOf(tb, js)
    decreases |js|
  {
    if js != [] {
      OutcomeUsesVerdictsOnly(tb, tb', js[..|js| - 1]);
      var k := FirstAccept(tb, js);
      if k < |js| {
        OutcomeUsesVerdictsOnly(tb, tb', js[..k]);
      }
    }
  }

  lemma SameFirstSolve(tb: Tables, o: seq<Judged>, tb': Tables, o': seq<Judged>, first: map<string, string>)
    requires tb.Typed() && tb'.Typed() && SameOutcomes(tb, o, tb', o')
    ensures IsFirstSolve(tb', o', first) <==> IsFirstSolve(tb, o, first)
  {
    forall t, p
      ensures SolvedBy(tb', o', t, p) <==> SolvedBy(tb, o, t, p)
    {
    }
  }

  lemma SameScoreOf(tb: Tables, o: seq<Judged>, tb': Tables, o': seq<Judged>, cols: seq<ProbInfo>, t: string)
    requires tb.Typed() && tb'.Typed() && SameOutcomes(tb, o, tb', o') && t in tb.shown
    ensures ScoreOf(tb', o', cols, t) == ScoreOf(tb, o, cols, t)
  {
    SumOfEqualTerms((c: ProbInfo) => SolvedIn(tb, o, t, c), (c: ProbInfo) => SolvedIn(tb', o', t, c), cols);
    SumOfEqualTerms((c: ProbInfo) => PenaltyIn(tb, o, t, c), (c: ProbInfo) => PenaltyIn(tb', o', t, c), cols);
  }

  lemma SameAhead(tb: Tables, o: seq<Judged>, tb': Tables, o': seq<Judged>, cols: seq<ProbInfo>, s: Score)
    requires tb.Typed() && tb'.Typed() && SameOutcomes(tb, o, tb', o')
    ensures Ahead(tb', o', cols, s) == Ahead(tb, o, cols, s)
  {
    forall t | t in tb.shown
      ensures ScoreOf(tb', o', cols, t) == ScoreOf(tb, o, cols, t)
    {
      SameScoreOf(tb, o, tb', o', cols, t);
    }
  }

  lemma SameRow(tb: Tables, o: seq<Judged>, tb': Tables, o': seq<Judged>, awards: seq<ContestObject>,
                cols: seq<ProbInfo>, first: map<string, string>, t: string)
    requires tb.Typed() && tb'.Typed() && SameOutcomes(tb, o, tb', o') && t in tb.shown
    ensures RowOf(tb', awards, cols, o', first, t) == RowOf(tb, awards, cols, o, first, t)
  {
    SameScoreOf(tb, o, tb', o', cols, t);
    SameAhead(tb, o, tb', o', cols, ScoreOf(tb, o, cols, t));
    assert CellsOf(tb', o', first, t, cols) == CellsOf(tb, o, first, t, cols);
  }

  lemma SameRows(tb: Tables, o: seq<Judged>, tb': Tables, o': seq<Judged>, awards: seq<ContestObject>,
                 cols: seq<ProbInfo>, first: map<string, string>)
    requires tb.Typed() && tb'.Typed() && SameOutcomes(tb, o, tb', o')
    ensures RowMap(tb', awards, cols, o', first) == RowMap(tb, awards, cols, o, first)
  {
    forall t | t in tb.shown
      ensures RowOf(tb', awards, cols, o', first, t) == RowOf(tb, awards, cols, o, first, t)
    {
      SameRow(tb, o, tb', o', awards, cols, first, t);
    }
  }

  // ---- Main result: irrelevant submissions ----

  /** A submission at or beyond the contest limit is not even listed: the standings are the same, as a relation. */
  lemma LateSubmissionChangesNothing(v: View, s: ContestObject, j: ContestObject, a: nat, b: nat,
                                     cols: seq<ProbInfo>, order: seq<Judged>, first: map<string, string>,
                                     snap: ScoreboardSnapshot)
    requires IsFresh(v, s, j) && a <= |v.submissions| && b <= |v.judgements|
    requires s.body.contestTimeMs.GetOr(0) >= ContestLimit(v.contest, v.state)
             || s.body.teamId.None? || s.body.problemId.None?
    ensures IsSnapshot(Added(v, s, j, a, b), cols, order, first, snap) <==> IsSnapshot(v, cols, order, first, snap)
  {
    AddedTables(v, s, j, a, b);
    var tb := TablesOf(v);
    GrownJudged(tb, s, SummaryOf(j));
    UnlistedSnapshot(v, Added(v, s, j, a, b), tb, Grown(tb, s, SummaryOf(j)), cols, order, order, first, snap);
  }

  /** Two stores that differ only in submissions and judgements, with outcomes that agree, have the same standings. */
  lemma UnlistedSnapshot(v: View, w: View, tb: Tables, tb': Tables, cols: seq<ProbInfo>, o: seq<Judged>,
                         o': seq<Judged>,
                         first: map<string, string>, snap: ScoreboardSnapshot)
    requires tb == TablesOf(v) && tb' == TablesOf(w)
    requires w == v.(submissions := w.submissions, judgements := w.judgements)
    requires SameDisplay(tb, tb') && (IsOrder(tb', o') <==> IsOrder(tb, o))
    requires forall t, p | t in tb.shown :: Outcome(tb, o', t, p) == Outcome(tb, o, t, p)
    ensures IsSnapshot(w, cols, o', first, snap) <==> IsSnapshot(v, cols, o, first, snap)
  {
    forall t, p | t in tb.shown
      ensures Outcome(tb', o', t, p) == Outcome(tb, o, t, p)
    {
      OutcomeUsesVerdictsOnly(tb, tb', Tries(tb, o', t, p));
      assert Outcome(tb, o', t, p) == Outcome(tb, o, t, p);
    }
    SameFirstSolve(tb, o, tb', o', first);
    SameRows(tb, o, tb', o', v.awards, cols, first);
  }

  /** A listed submission of a hidden or unknown team, or one that stands after the team's accept on the problem,
      leaves the whole standings as they were, wherever it stands among the others. */
  lemma IrrelevantSubmissionChangesNothing(v: View, s: ContestObject, j: ContestObject, a: nat, b: nat, k: nat,
                                           cols: seq<ProbInfo>, order: seq<Judged>, first: map<string, string>,
                                           snap: ScoreboardSnapshot)
    requires IsFresh(v, s, j) && a <= |v.submissions| && b <= |v.judgements| && k <= |order|
    requires Eligible(TablesOf(Added(v, s, j, a, b)), s.id)
    requires
      var x := JudgedOf(TablesOf(Added(v, s, j, a, b)), s.id);
      Sorted(Insert(order, k, x), Earlier) && Irrelevant(TablesOf(v), order[..k], x)
    ensures
      var x := JudgedOf(TablesOf(Added(v, s, j, a, b)), s.id);
      IsSnapshot(Added(v, s, j, a, b), cols, Insert(order, k, x), first, snap) <==>
      IsSnapshot(v, cols, order, first, snap)
  {
    AddedTables(v, s, j, a, b);
    var tb, w := TablesOf(v), Added(v, s, j, a, b);
    var tb' := Grown(tb, s, SummaryOf(j));
    var x := JudgedOf(tb', s.id);
    OrderWithAndWithout(tb, s, SummaryOf(j), order, k);
    forall t, p | t in tb.shown
      ensures Outcome(tb, Insert(order, k, x), t, p) == Outcome(tb, order, t, p)
    {
      IrrelevantOutcome(tb, order, k, x, t, p);
    }
    UnlistedSnapshot(v, w, tb, tb', cols, order, Insert(order, k, x), first, snap);
  }

  lemma NotEarlierThanInserted(order: seq<Judged>, k: nat, x: Judged)
    requires k <= |order| && Sorted(Insert(order, k, x), Earlier)
    ensures forall j | j in order[k..] :: x.timeMs <= j.timeMs
  {
    forall j | j in order[k..]
      ensures x.timeMs <= j.timeMs
    {
      var i :| k <= i < |order| && order[i] == j;
      assert Insert(order, k, x)[i + 1] == j && Insert(order, k, x)[k] == x;
    }
  }

  /** A submission with a later contest time than the team's accept can only stand after it. */
  lemma LaterThanAcceptIsIrrelevant(tb: Tables, order: seq<Judged>, k: nat, x: Judged)
    requires tb.Typed() && k <= |order| && Sorted(Insert(order, k, x), Earlier)
    requires Outcome(tb, order, x.team, x.problem).solved
    requires Outcome(tb, order, x.team, x.problem).acceptTimeMs < x.timeMs
    ensures Irrelevant(tb, order[..k], x)
  {
    TriesOfInsertion(tb, order, k, x, x.team, x.problem);
    var js, rest := Tries(tb, order[..k], x.team, x.problem), Tries(tb, order[k..], x.team, x.problem);
    var n := FirstAccept(tb, js + rest);
    NotEarlierThanInserted(order, k, x);
    forall j | j in rest
      ensures x.timeMs <= j.timeMs
    {
      assert j in order[k..];
    }
    SomeAcceptIsFirst(tb, js, n);
  }

  // ---- Main result: a new accept ----

  lemma {:induction false} SomeAcceptIsFirst(tb: Tables, js: seq<Judged>, i: nat)
    requires tb.Typed() && i < |js| && Accepts(tb, js[i].verdict)
    ensures AccumOf(tb, js).solved
  {
    assert FirstAccept(tb, js) <= i;
  }

  /** An accepted submission of a shown team on a problem it had not solved makes it solved; nothing else changes. */
  lemma AcceptOutcomes(tb: Tables, order: seq<Judged>, k: nat, x: Judged, t: string, p: string)
    requires tb.Typed() && k <= |order| && Accepts(tb, x.verdict)
    requires x.team in tb.shown && x.team !in tb.hidden
    ensures x.team == t && x.problem == p ==> Outcome(tb, Insert(order, k, x), t, p).solved
    ensures x.team != t || x.problem != p ==> Outcome(tb, Insert(order, k, x), t, p) == Outcome(tb, order, t, p)
  {
    TriesOfInsertion(tb, order, k, x, t, p);
    if x.team == t && x.problem == p {
      var js, rest := Tries(tb, order[..k], t, p), Tries(tb, order[k..], t, p);
      SomeAcceptIsFirst(tb, js + ([x] + rest), |js|);
    }
  }

  lemma {:induction false} SumGrows<T>(f: T -> int, g: T -> int, s: seq<T>, x: T)
    requires x in s && f(x) < g(x)
    requires forall y | y in s :: f(y) <= g(y)
    ensures Sum(f, s) < Sum(g, s)
  {
    var last := |s| - 1;
    assert s == s[..last] + [s[last]];
    if x in s[..last] {
      SumGrows(f, g, s[..last], x);
    } else {
      SumAtMost(f, g, s[..last]);
    }
  }

  lemma {:induction false} SumAtMost<T>(f: T -> int, g: T -> int, s: seq<T>)
    requires forall y | y in s :: f(y) <= g(y)
    ensures Sum(f, s) <= Sum(g, s)
  {
    if s != [] {
      SumAtMost(f, g, s[..|s| - 1]);
    }
  }

  lemma AcceptImprovesScore(tb: Tables, order: seq<Judged>, k: nat, x: Judged, cols: seq<ProbInfo>, c: ProbInfo)
    requires tb.Typed() && k <= |order| && Accepts(tb, x.verdict)
    requires x.team in tb.shown && x.team !in tb.hidden
    requires c in cols && c.id == x.problem && !Outcome(tb, order, x.team, x.problem).solved
    ensures ScoreOf(tb, order, cols, x.team).solved < ScoreOf(tb, Insert(order, k, x), cols, x.team).solved
  {
    var order' := Insert(order, k, x);
    forall d: ProbInfo
      ensures SolvedIn(tb, order, x.team, d) <= SolvedIn(tb, order', x.team, d)
      ensures d == c ==> SolvedIn(tb, order, x.team, d) < SolvedIn(tb, order', x.team, d)
    {
      AcceptOutcomes(tb, order, k, x, x.team, d.id);
    }
    SumGrows((d: ProbInfo) => SolvedIn(tb, order, x.team, d), (d: ProbInfo) => SolvedIn(tb, order', x.team, d),
             cols, c);
  }

  lemma AcceptKeepsOtherScores(tb: Tables, order: seq<Judged>, k: nat, x: Judged, cols: seq<ProbInfo>, t: string)
    requires tb.Typed() && k <= |order| && Accepts(tb, x.verdict)
    requires x.team in tb.shown && x.team !in tb.hidden && t != x.team
    ensures ScoreOf(tb, Insert(order, k, x), cols, t) == ScoreOf(tb, order, cols, t)
  {
    var order' := Insert(order, k, x);
    forall d: ProbInfo
      ensures Outcome(tb, order', t, d.id) == Outcome(tb, order, t, d.id)
    {
      AcceptOutcomes(tb, order, k, x, t, d.id);
    }
    SumOfEqualTerms((c: ProbInfo) => SolvedIn(tb, order, t, c), (c: ProbInfo) => SolvedIn(tb, order', t, c), cols);
    SumOfEqualTerms((c: ProbInfo) => PenaltyIn(tb, order, t, c), (c: ProbInfo) => PenaltyIn(tb, order', t, c), cols);
  }

  lemma AcceptPlaces(tb: Tables, order: seq<Judged>, k: nat, x: Judged, cols: seq<ProbInfo>, c: ProbInfo, t: string)
    requires tb.Typed() && k <= |order| && Accepts(tb, x.verdict)
    requires x.team in tb.shown && x.team !in tb.hidden
    requires c in cols && c.id == x.problem && !Outcome(tb, order, x.team, x.problem).solved
    ensures t == x.team ==> Place(tb, Insert(order, k, x), cols, t) <= Place(tb, order, cols, t)
    ensures t != x.team ==> Place(tb, Insert(order, k, x), cols, t) >= Place(tb, order, cols, t)
  {
    var order' := Insert(order, k, x);
    AcceptImprovesScore(tb, order, k, x, cols, c);
    var old', new' := ScoreOf(tb, order, cols, t), ScoreOf(tb, order', cols, t);
    forall u | u in tb.shown && u != x.team
      ensures ScoreOf(tb, order', cols, u) == ScoreOf(tb, order, cols, u)
    {
      AcceptKeepsOtherScores(tb, order, k, x, cols, u);
    }
    if t == x.team {
      SubsetIsNotLarger(Ahead(tb, order', cols, new'), Ahead(tb, order, cols, old'));
    } else {
      AcceptKeepsOtherScores(tb, order, k, x, cols, t);
      SubsetIsNotLarger(Ahead(tb, order, cols, old'), Ahead(tb, order', cols, new'));
    }
  }

  lemma {:induction false} SameScoresUnderGrownTables(tb: Tables, tb': Tables, order: seq<Judged>, cols: seq<ProbInfo>,
                                                      t: string)
    requires tb.Typed() && tb'.Typed() && SameDisplay(tb, tb') && t in tb.shown
    ensures Place(tb', order, cols, t) == Place(tb, order, cols, t)
    ensures ScoreOf(tb', order, cols, t) == ScoreOf(tb, order, cols, t)
  {
    forall u, p | u in tb.shown
      ensures Outcome(tb', order, u, p) == Outcome(tb, order, u, p)
    {
      OutcomeUsesVerdictsOnly(tb, tb', Tries(tb, order, u, p));
    }
    assert SameOutcomes(tb, order, tb', order);
    SameScoreOf(tb, order, tb', order, cols, t);
    SameAhead(tb, order, tb', order, cols, ScoreOf(tb, order, cols, t));
  }

  /** `s`, accepted by `j`, counts, stands at place k of the listing, and is of a shown team on a column problem that
      the team had not solved. */
  ghost predicate IsNewAccept(v: View, s: ContestObject, j: ContestObject, a: nat, b: nat, k: nat,
                              cols: seq<ProbInfo>, order: seq<Judged>, c: ProbInfo)
  {
    && IsFresh(v, s, j) && a <= |v.submissions| && b <= |v.judgements| && k <= |order|
    && Eligible(TablesOf(Added(v, s, j, a, b)), s.id)
    && var tb, x := TablesOf(v), JudgedOf(TablesOf(Added(v, s, j, a, b)), s.id);
       && Accepts(tb, x.verdict) && x.team in tb.shown && x.team !in tb.hidden
       && c in cols && c.id == x.problem && !Outcome(tb, order, x.team, x.problem).solved
  }

  /** The effect on scores and places. */
  lemma ScoresWithAccept(v: View, s: ContestObject, j: ContestObject, a: nat, b: nat, k: nat,
                         cols: seq<ProbInfo>, order: seq<Judged>, c: ProbInfo, t: string)
    requires IsNewAccept(v, s, j, a, b, k, cols, order, c) && t in TablesOf(v).shown
    ensures
      var tb, tb' := TablesOf(v), TablesOf(Added(v, s, j, a, b));
      var order' := Insert(order, k, JudgedOf(tb', s.id));
      var before, after := ScoreOf(tb, order, cols, t), ScoreOf(tb', order', cols, t);
      if s.body.teamId == Some(t)
      then after.solved > before.solved && Place(tb', order', cols, t) <= Place(tb, order, cols, t)
      else after == before && Place(tb', order', cols, t) >= Place(tb, order, cols, t)
  {
    AddedTables(v, s, j, a, b);
    var tb, tb' := TablesOf(v), TablesOf(Added(v, s, j, a, b));
    var x := JudgedOf(tb', s.id);
    SameScoresUnderGrownTables(tb, tb', Insert(order, k, x), cols, t);
    AcceptPlaces(tb, order, k, x, cols, c, t);
    if x.team == t {
      AcceptImprovesScore(tb, order, k, x, cols, c);
    } else {
      AcceptKeepsOtherScores(tb, order, k, x, cols, t);
    }
  }

  /** Adding an accepted in-time submission of a shown team on a column problem it had not solved: the team gains a
      solved problem and its place does not get worse; no other team's score changes and no other place gets better. */
  lemma AcceptNeverHurts(v: View, s: ContestObject, j: ContestObject, a: nat, b: nat, k: nat,
                         cols: seq<ProbInfo>, order: seq<Judged>, f1: map<string, string>, f2: map<string, string>,
                         s1: ScoreboardSnapshot, s2: ScoreboardSnapshot, c: ProbInfo,
                         r1: ScoreboardRow, r2: ScoreboardRow)
    requires IsNewAccept(v, s, j, a, b, k, cols, order, c)
    requires IsSnapshot(v, cols, order, f1, s1)
    requires
      var x := JudgedOf(TablesOf(Added(v, s, j, a, b)), s.id);
      IsSnapshot(Added(v, s, j, a, b), cols, Insert(order, k, x), f2, s2)
    requires r1 in s1.rows && r2 in s2.rows && r1.teamId == r2.teamId
    ensures s.body.teamId == Some(r1.teamId) ==> r2.solved > r1.solved && r2.place <= r1.place
    ensures s.body.teamId != Some(r1.teamId) ==>
            r2.solved == r1.solved && r2.penalty == r1.penalty && r2.place >= r1.place
  {
    hide IsSnapshot, IsNewAccept, Eligible, JudgedOf, Insert;
    NewAcceptIsEligible(v, s, j, a, b, k, cols, order, c);
    var w := Added(v, s, j, a, b);
    SnapshotRow(v, cols, order, f1, s1, r1);
    SnapshotRow(w, cols, Insert(order, k, JudgedOf(TablesOf(w), s.id)), f2, s2, r2);
    ScoresWithAccept(v, s, j, a, b, k, cols, order, c, r1.teamId);
  }

  lemma NewAcceptIsEligible(v: View, s: ContestObject, j: ContestObject, a: nat, b: nat, k: nat,
                            cols: seq<ProbInfo>, order: seq<Judged>, c: ProbInfo)
    requires IsNewAccept(v, s, j, a, b, k, cols, order, c)
    ensures a <= |v.submissions| && b <= |v.judgements| && k <= |order|
            && Eligible(TablesOf(Added(v, s, j, a, b)), s.id)
  {
  }

  // ---- Taking the new submission out of a listing ----

  /** A chronological listing of the larger store is one of the smaller store with the new entry inserted. */
  lemma OrderWithout(tb: Tables, s: ContestObject, summary: JudgeSummary, order': seq<Judged>)
    returns (order: seq<Judged>, k: nat)
    requires Fits(tb, s, summary) && Grown(tb, s, summary).Typed() && Eligible(Grown(tb, s, summary), s.id)
    requires IsOrder(Grown(tb, s, summary), order')
    ensures k <= |order| && order' == Insert(order, k, JudgedOf(Grown(tb, s, summary), s.id))
    ensures IsOrder(tb, order)
  {
    var tb' := Grown(tb, s, summary);
    var x := JudgedOf(tb', s.id);
    GrownJudged(tb, s, summary);
    assert x in order';
    k :| 0 <= k < |order'| && order'[k] == x;
    order := order'[..k] + order'[k + 1..];
    assert order' == Insert(order, k, x);
    OrderWithAndWithout(tb, s, summary, order, k);
  }

  /** Where a new entry fits in a listing: after all that are not later. */
  lemma {:induction false} FittingPlace(order: seq<Judged>, x: Judged) returns (k: nat)
    requires Sorted(order, Earlier)
    ensures k <= |order|
    ensures forall i | 0 <= i < k :: !Earlier(x, order[i])
    ensures forall i | k <= i < |order| :: Earlier(x, order[i])
  {
    if order == [] || !Earlier(x, order[|order| - 1]) {
      k := |order|;
      forall i | 0 <= i < k
        ensures !Earlier(x, order[i])
      {
        assert i == |order| - 1 || !Earlier(order[|order| - 1], order[i]);
      }
    } else {
      k := FittingPlace(order[..|order| - 1], x);
    }
  }

  lemma FitsThere(order: seq<Judged>, k: nat, x: Judged)
    requires k <= |order| && Sorted(order, Earlier)
    requires forall i | 0 <= i < k :: !Earlier(x, order[i])
    requires forall i | k <= i < |order| :: Earlier(x, order[i])
    ensures Sorted(Insert(order, k, x), Earlier)
  {
  }
}
