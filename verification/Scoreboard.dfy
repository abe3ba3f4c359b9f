/** The scoreboard builder: its loops over locals that change in place, each proved against ScoreboardSpec. */
module Scoreboard {
  import opened Types
  import opened Collections
  import opened ScoreboardSpec

  // ---- Comparators ----

  lemma ColumnLessIsStrictWeakOrder()
    ensures StrictWeakOrder(ColumnLess)
  {
    forall x: ProbInfo
      ensures !ColumnLess(x, x)
    {
      StrLessIrreflexive(x.title);
    }
    forall x, y, z | ColumnLess(x, y) && ColumnLess(y, z)
      ensures ColumnLess(x, z)
    {
      if x.ordinal == y.ordinal == z.ordinal {
        StrLessTransitive(x.title, y.title, z.title);
      }
    }
    forall x, y, z | !ColumnLess(x, y) && !ColumnLess(y, z)
      ensures !ColumnLess(x, z)
    {
      if x.ordinal == y.ordinal == z.ordinal {
        NotLessTransitive(x.title, y.title, z.title);
      }
    }
  }

  lemma RowLessIsStrictWeakOrder()
    ensures StrictWeakOrder(RowLess)
  {
    forall x: ScoreboardRow
      ensures !RowLess(x, x)
    {
      StrLessIrreflexive(x.teamName);
    }
    forall x, y, z | RowLess(x, y) && RowLess(y, z)
      ensures RowLess(x, z)
    {
      if x.solved == y.solved == z.solved && x.penalty == y.penalty == z.penalty {
        StrLessTransitive(x.teamName, y.teamName, z.teamName);
      }
    }
    forall x, y, z | !RowLess(x, y) && !RowLess(y, z)
      ensures !RowLess(x, z)
    {
      if x.solved == y.solved == z.solved && x.penalty == y.penalty == z.penalty {
        NotLessTransitive(x.teamName, y.teamName, z.teamName);
      }
    }
  }

  lemma NotLessTransitive(a: string, b: string, c: string)
    requires !StrLess(a, b) && !StrLess(b, c)
    ensures !StrLess(a, c)
  {
    StrLessTotal(a, b);
    StrLessTotal(b, c);
    if StrLess(a, c) {
      if a != b { StrLessTransitive(b, a, c); }
      StrLessIrreflexive(b);
    }
  }

  // ---- Metadata, columns, tables ----

  method ContestWindow(contest: Option<ContestRecord>, state: Option<StateRecord>) returns (limitMs: int)
    ensures limitMs in Ends(contest, state)
    ensures forall e | e in Ends(contest, state) :: limitMs <= e
    ensures limitMs == ContestLimit(contest, state)
  {
    limitMs := INT64_MAX;
    if contest.Some? && contest.value.body.durationMs.Some? {
      limitMs := contest.value.body.durationMs.value;
    }
    if state.Some? && state.value.body.ended.Some? && contest.Some? && contest.value.body.startTime.Some? {
      var effective := state.value.body.ended.value.epochMs - contest.value.body.startTime.value.epochMs;
      if effective > 0 && effective < limitMs {
        limitMs := effective;
      }
    }
  }

  method CollectColumns(problems: seq<ContestObject>) returns (cols: seq<ProbInfo>)
    ensures multiset(cols) == multiset(ProbInfos(problems))
    ensures Sorted(cols, ColumnLess)
  {
    cols := [];
    for i := 0 to |problems|
      invariant cols == ProbInfos(problems[..i])
    {
      assert problems[..i + 1][..i] == problems[..i];
      if problems[i].body.Problem? {
        cols := cols + [ProbInfoOf(problems[i])];
      }
    }
    assert problems[..|problems|] == problems;
    ColumnLessIsStrictWeakOrder();
    cols := Sort(cols, ColumnLess);
  }

  method IndexObjects(kind: ObjectType, objs: seq<ContestObject>) returns (m: map<string, ContestObject>)
    ensures m == Index(kind, objs)
  {
    m := map[];
    for i := 0 to |objs|
      invariant m == Index(kind, objs[..i])
    {
      assert objs[..i + 1][..i] == objs[..i];
      if KindOf(objs[i].body) == kind {
        m := m[objs[i].id := objs[i]];
      }
    }
    assert objs[..|objs|] == objs;
  }

  method BestJudgements(judgements: seq<ContestObject>) returns (best: map<string, JudgeSummary>)
    ensures best == Best(judgements)
  {
    best := map[];
    for i := 0 to |judgements|
      invariant best == Best(judgements[..i])
    {
      assert judgements[..i + 1][..i] == judgements[..i];
      var j := judgements[i];
      if !j.body.Judgement? || j.body.submissionId.None? || j.body.judgementTypeId.None? {
        continue;
      }
      var sid, end := j.body.submissionId.value, EndMs(j);
      if sid !in best {
        best := best[sid := JudgeSummary(j.body.judgementTypeId.value, end)];
      } else if end > best[sid].endMs {
        best := best[sid := JudgeSummary(j.body.judgementTypeId.value, end)];
      }
    }
    assert judgements[..|judgements|] == judgements;
  }

  lemma IndexStep(kind: ObjectType, objs: seq<ContestObject>, o: ContestObject)
    ensures Index(kind, objs + [o]) ==
            if KindOf(o.body) == kind then Index(kind, objs)[o.id := o] else Index(kind, objs)
  {
    assert (objs + [o])[..|objs|] == objs;
  }

  ghost predicate TeamsMatch(teams: seq<ContestObject>, index: map<string, ContestObject>, shown: set<string>,
                             hidden: set<string>)
  {
    index == Index(TeamsType, teams) && shown == ShownIds(teams) && hidden == HiddenIds(teams)
  }

  lemma IdsStep(teams: seq<ContestObject>, t: ContestObject)
    ensures ShownIds(teams + [t]) == ShownIds(teams) + if IsShown(t) then {t.id} else {}
    ensures HiddenIds(teams + [t]) == HiddenIds(teams) + if IsHidden(t) then {t.id} else {}
  {
  }

  lemma TeamsStep(teams: seq<ContestObject>, t: ContestObject, index: map<string, ContestObject>, shown: set<string>,
                  hidden: set<string>)
    requires TeamsMatch(teams, index, shown, hidden)
    ensures TeamsMatch(teams + [t], if t.body.Team? then index[t.id := t] else index,
                       shown + if IsShown(t) then {t.id} else {}, hidden + if IsHidden(t) then {t.id} else {})
  {
    IndexStep(TeamsType, teams, t);
    IdsStep(teams, t);
  }

  method CollectTeams(teams: seq<ContestObject>)
    returns (index: map<string, ContestObject>, shown: set<string>, hidden: set<string>)
    ensures TeamsMatch(teams, index, shown, hidden)
  {
    index, shown, hidden := map[], {}, {};
    for i := 0 to |teams|
      invariant TeamsMatch(teams[..i], index, shown, hidden)
    {
      var t := teams[i];
      assert teams[..i + 1] == teams[..i] + [t];
      TeamsStep(teams[..i], t, index, shown, hidden);
      if !t.body.Team? {
        assert shown + {} == shown && hidden + {} == hidden;
        continue;
      }
      index := index[t.id := t];
      if t.body.hidden.Some? && t.body.hidden.value {
        assert shown + {} == shown;
        hidden := hidden + {t.id};
        continue;
      }
      assert hidden + {} == hidden;
      shown := shown + {t.id};
    }
    assert teams[..|teams|] == teams;
  }

  // ---- Chronological order ----

  lemma JudgedAmongOneMore(tb: Tables, order: seq<Judged>, sids: set<string>, sid: string)
    requires tb.Typed() && sid !in sids
    requires Enumerates(order, JudgedAmong(tb, sids))
    ensures !Eligible(tb, sid) ==> JudgedAmong(tb, sids + {sid}) == JudgedAmong(tb, sids)
    ensures Eligible(tb, sid) ==> Enumerates(order + [JudgedOf(tb, sid)], JudgedAmong(tb, sids + {sid}))
  {
    if Eligible(tb, sid) {
      var j := JudgedOf(tb, sid);
      assert JudgedAmong(tb, sids + {sid}) == JudgedAmong(tb, sids) + {j};
      assert j !in JudgedAmong(tb, sids);
    }
  }

  /** Walks the hash map of verdicts in some order, drops what does not count, and sorts by contest time. */
  method OrderSubmissions(tb: Tables) returns (order: seq<Judged>)
    requires tb.Typed()
    ensures IsOrder(tb, order)
  {
    order := [];
    var todo := tb.best.Keys;
    while todo != {}
      invariant todo <= tb.best.Keys
      invariant Enumerates(order, JudgedAmong(tb, tb.best.Keys - todo))
    {
      var sid :| sid in todo;
      JudgedAmongOneMore(tb, order, tb.best.Keys - todo, sid);
      assert tb.best.Keys - (todo - {sid}) == tb.best.Keys - todo + {sid};
      todo := todo - {sid};
      if sid !in tb.submissions {
        continue;
      }
      var s := tb.submissions[sid].body;
      if s.teamId.None? || s.problemId.None? {
        continue;
      }
      var time := if s.contestTimeMs.Some? then s.contestTimeMs.value else 0;
      if time >= tb.limitMs {
        continue;
      }
      order := order + [Judged(sid, s.teamId.value, s.problemId.value, time, tb.best[sid].verdict)];
    }
    ghost var listed := order;
    order := Sort(order, Earlier);
    ReorderedEnumerates(listed, order, JudgedSet(tb));
  }

  // ---- Accumulation ----

  function Lookup(problems: map<string, ProblemAccum>, p: string): ProblemAccum {
    if p in problems then problems[p] else NO_ATTEMPTS
  }

  /** One more submission of a team on a problem changes its accumulator exactly as the loop body does. */
  lemma AccumStep(tb: Tables, js: seq<Judged>, j: Judged)
    requires tb.Typed()
    ensures
      var a, b := AccumOf(tb, js), AccumOf(tb, js + [j]);
      var accepted, penalized := Accepts(tb, j.verdict), Penalizes(tb, j.verdict);
      b == if a.solved then a
           else ProblemAccum(a.numJudged + 1,
                             if accepted || penalized then a.penaltyAttempts + 1 else a.penaltyAttempts,
                             accepted, if accepted then j.timeMs else a.acceptTimeMs)
  {
    var all, k := js + [j], FirstAccept(tb, js);
    assert all[..|js|] == js;
    if k < |js| {
      assert all[..k] == js[..k];
    }
  }

  ghost predicate AccumsMatch(tb: Tables, order: seq<Judged>, accums: map<string, map<string, ProblemAccum>>)
    requires tb.Typed()
  {
    && accums.Keys == tb.shown
    && forall t, p | t in tb.shown :: Lookup(accums[t], p) == Outcome(tb, order, t, p)
  }

  /** A submission is looked at only by its own team and problem, and by no hidden team. */
  lemma TriesStep(tb: Tables, order: seq<Judged>, j: Judged, t: string, p: string)
    ensures Tries(tb, order + [j], t, p) ==
            Tries(tb, order, t, p) + if t !in tb.hidden && j.team == t && j.problem == p then [j] else []
  {
    assert (order + [j])[..|order|] == order;
  }

  lemma SkippedSubmission(tb: Tables, order: seq<Judged>, j: Judged, accums: map<string, map<string, ProblemAccum>>)
    requires tb.Typed() && AccumsMatch(tb, order, accums)
    requires j.team in tb.hidden || j.team !in tb.shown
    ensures AccumsMatch(tb, order + [j], accums)
  {
    forall t, p | t in tb.shown
      ensures Lookup(accums[t], p) == Outcome(tb, order + [j], t, p)
    {
      TriesStep(tb, order, j, t, p);
    }
  }

  lemma TriesOfShown(tb: Tables, order: seq<Judged>, t: string, p: string)
    requires t !in tb.hidden
    ensures Tries(tb, order, t, p) == Project(order, t, p)
  {
  }

  lemma CountedSubmission(tb: Tables, order: seq<Judged>, j: Judged, accums: map<string, map<string, ProblemAccum>>,
                          pa: ProblemAccum)
    requires tb.Typed() && AccumsMatch(tb, order, accums)
    requires j.team in tb.shown && j.team !in tb.hidden
    requires pa == AccumOf(tb, Project(order, j.team, j.problem) + [j])
    ensures AccumsMatch(tb, order + [j], accums[j.team := accums[j.team][j.problem := pa]])
  {
    hide Tries, AccumOf, Project;
    TriesOfShown(tb, order, j.team, j.problem);
    var accums' := accums[j.team := accums[j.team][j.problem := pa]];
    forall t, p | t in tb.shown
      ensures Lookup(accums'[t], p) == Outcome(tb, order + [j], t, p)
    {
      TriesStep(tb, order, j, t, p);
      assert Tries(tb, order, t, p) + [] == Tries(tb, order, t, p);
      assert Lookup(accums[t], p) == Outcome(tb, order, t, p);
    }
  }

  /** The loop body for a submission of a team that is not yet done with the problem, or is. */
  method CountTry(tb: Tables, before: ProblemAccum, j: Judged, ghost js: seq<Judged>) returns (pa: ProblemAccum)
    requires tb.Typed() && before == AccumOf(tb, js)
    ensures pa == AccumOf(tb, js + [j])
  {
    AccumStep(tb, js, j);
    pa := before;
    if pa.solved {
      return;
    }
    var isSolved := j.verdict in tb.verdicts && tb.verdicts[j.verdict].body.solved.GetOr(false);
    var countsAsPenalty := j.verdict in tb.verdicts && tb.verdicts[j.verdict].body.penalty.GetOr(true);
    pa := pa.(numJudged := pa.numJudged + 1);
    if isSolved || countsAsPenalty {
      pa := pa.(penaltyAttempts := pa.penaltyAttempts + 1);
    }
    if isSolved {
      pa := pa.(solved := true, acceptTimeMs := j.timeMs);
    }
  }

  /** The chronological loop over all teams and problems at once leaves every accumulator at its closed form. */
  method Accumulate(tb: Tables, order: seq<Judged>) returns (accums: map<string, map<string, ProblemAccum>>)
    requires tb.Typed()
    ensures AccumsMatch(tb, order, accums)
  {
    accums := map t | t in tb.shown :: map[];
    for i := 0 to |order|
      invariant AccumsMatch(tb, order[..i], accums)
    {
      var j := order[i];
      assert order[..i + 1] == order[..i] + [j];
      if j.team in tb.hidden {
        SkippedSubmission(tb, order[..i], j, accums);
        continue;
      }
      if j.team !in accums {
        SkippedSubmission(tb, order[..i], j, accums);
        continue;
      }
      ghost var js := Project(order[..i], j.team, j.problem);
      assert Lookup(accums[j.team], j.problem) == Outcome(tb, order[..i], j.team, j.problem);
      var pa := CountTry(tb, Lookup(accums[j.team], j.problem), j, js);
      CountedSubmission(tb, order[..i], j, accums, pa);
      accums := accums[j.team := accums[j.team][j.problem := pa]];
    }
    assert order[..|order|] == order;
  }

  // ---- First to solve ----

  /** What the two nested hash-map loops know once the (team, problem) pairs in `done` are visited. */
  ghost predicate FirstSoFar(accums: map<string, map<string, ProblemAccum>>, done: set<(string, string)>,
                             first: map<string, (int, string)>)
  {
    && (forall p | p in first ::
          var t := first[p].1;
          (t, p) in done && t in accums && p in accums[t] && accums[t][p].solved
          && first[p].0 == accums[t][p].acceptTimeMs)
    && (forall t, p | (t, p) in done && t in accums && p in accums[t] && accums[t][p].solved ::
          p in first && first[p].0 <= accums[t][p].acceptTimeMs)
  }

  method FindFirstSolvers(accums: map<string, map<string, ProblemAccum>>) returns (first: map<string, (int, string)>)
    ensures FirstSoFar(accums, set t, p | t in accums && p in accums[t] :: (t, p), first)
  {
    first := map[];
    ghost var done: set<(string, string)> := {};
    var teams := accums.Keys;
    while teams != {}
      invariant teams <= accums.Keys
      invariant done == set t, p | t in accums && t !in teams && p in accums[t] :: (t, p)
      invariant FirstSoFar(accums, done, first)
    {
      var t :| t in teams;
      teams := teams - {t};
      var problems := accums[t].Keys;
      while problems != {}
        invariant problems <= accums[t].Keys
        invariant done == set u, p | u in accums && u !in teams && p in accums[u] && (u == t ==> p !in problems) ::
            (u, p)
        invariant FirstSoFar(accums, done, first)
      {
        var p :| p in problems;
        problems := problems - {p};
        done := done + {(t, p)};
        var pa := accums[t][p];
        if !pa.solved {
          continue;
        }
        if p !in first {
          first := first[p := (pa.acceptTimeMs, t)];
        } else if pa.acceptTimeMs < first[p].0 {
          first := first[p := (pa.acceptTimeMs, t)];
        }
      }
    }
  }

  // ---- Awards ----

  function AwardsIn(m: map<string, seq<TeamAward>>, t: string): seq<TeamAward> {
    if t in m then m[t] else []
  }

  ghost predicate AwardsMatch(awards: seq<ContestObject>, m: map<string, seq<TeamAward>>) {
    forall t :: AwardsIn(m, t) == AwardsOf(awards, t)
  }

  ghost predicate AwardGiven(m: map<string, seq<TeamAward>>, r: map<string, seq<TeamAward>>, award: TeamAward,
                             ids: seq<string>)
  {
    forall t :: AwardsIn(r, t) == AwardsIn(m, t) + Copies(award, ids, t)
  }

  lemma AwardGivenStep(m: map<string, seq<TeamAward>>, r: map<string, seq<TeamAward>>, award: TeamAward,
                       ids: seq<string>, id: string)
    requires AwardGiven(m, r, award, ids)
    ensures AwardGiven(m, r[id := AwardsIn(r, id) + [award]], award, ids + [id])
  {
    hide AwardsIn, Copies;
    var r' := r[id := AwardsIn(r, id) + [award]];
    forall t
      ensures AwardsIn(r', t) == AwardsIn(m, t) + Copies(award, ids + [id], t)
    {
      CopiesStep(award, ids, id, t);
      AwardsInStep(r, id, award, t);
      assert AwardsIn(r, t) == AwardsIn(m, t) + Copies(award, ids, t);
    }
  }

  lemma AwardsInStep(r: map<string, seq<TeamAward>>, id: string, award: TeamAward, t: string)
    ensures AwardsIn(r[id := AwardsIn(r, id) + [award]], t) == AwardsIn(r, t) + if id == t then [award] else []
  {
  }

  lemma CopiesStep(award: TeamAward, ids: seq<string>, id: string, t: string)
    ensures Copies(award, ids + [id], t) == Copies(award, ids, t) + if id == t then [award] else []
  {
    assert (ids + [id])[..|ids|] == ids;
  }

  /** Appends one award to every team it names. */
  method GiveAward(m: map<string, seq<TeamAward>>, award: TeamAward, ids: seq<string>)
    returns (r: map<string, seq<TeamAward>>)
    ensures AwardGiven(m, r, award, ids)
  {
    r := m;
    for k := 0 to |ids|
      invariant AwardGiven(m, r, award, ids[..k])
    {
      assert ids[..k + 1] == ids[..k] + [ids[k]];
      AwardGivenStep(m, r, award, ids[..k], ids[k]);
      r := r[ids[k] := AwardsIn(r, ids[k]) + [award]];
    }
    assert ids[..|ids|] == ids;
  }

  method IndexAwards(awards: seq<ContestObject>) returns (m: map<string, seq<TeamAward>>)
    ensures AwardsMatch(awards, m)
  {
    m := map[];
    for i := 0 to |awards|
      invariant AwardsMatch(awards[..i], m)
    {
      assert awards[..i + 1][..i] == awards[..i];
      if !awards[i].body.Award? {
        continue;
      }
      m := GiveAward(m, AwardOf(awards[i]), awards[i].body.teamIds);
    }
    assert awards[..|awards|] == awards;
  }

  // ---- Rows ----

  ghost predicate RowAccums(tb: Tables, order: seq<Judged>, t: string, problems: map<string, ProblemAccum>)
    requires tb.Typed()
  {
    forall p :: Lookup(problems, p) == Outcome(tb, order, t, p)
  }

  function FirstTeams(first: map<string, (int, string)>): map<string, string> {
    map p | p in first :: first[p].1
  }

  lemma ScoreStep(tb: Tables, order: seq<Judged>, cols: seq<ProbInfo>, t: string, c: ProbInfo)
    requires tb.Typed()
    ensures
      var a, b := ScoreOf(tb, order, cols, t), ScoreOf(tb, order, cols + [c], t);
      b == Score(a.solved + SolvedIn(tb, order, t, c), a.penalty + PenaltyIn(tb, order, t, c))
  {
    assert (cols + [c])[..|cols|] == cols;
  }

  /** One cell of a row, and what it adds to the solved count and the penalty. */
  method BuildCell(tb: Tables, problems: map<string, ProblemAccum>, t: string, c: ProbInfo,
                   first: map<string, (int, string)>, ghost order: seq<Judged>)
    returns (cell: ProblemResultCell, solved: int, penalty: int)
    requires tb.Typed() && RowAccums(tb, order, t, problems)
    ensures cell == CellOf(tb, order, FirstTeams(first), t, c)
    ensures solved == SolvedIn(tb, order, t, c) && penalty == PenaltyIn(tb, order, t, c)
  {
    hide Outcome, TruncDiv;
    assert Lookup(problems, c.id) == Outcome(tb, order, t, c.id);
    cell, solved, penalty := ProblemResultCell(c.id, c.title, Empty, 0, 0, false), 0, 0;
    if c.id in problems {
      var pa := problems[c.id];
      if pa.solved {
        cell := cell.(status := Solved, attempts := pa.numJudged, timeMinutes := TruncDiv(pa.acceptTimeMs, 60000));
        solved := 1;
        penalty := cell.timeMinutes + (pa.penaltyAttempts - 1) * tb.penaltyMinutes;
        if c.id in first && first[c.id].1 == t {
          cell := cell.(isFirstToSolve := true);
        }
      } else if pa.numJudged > 0 {
        cell := cell.(status := Failed, attempts := pa.numJudged);
      }
    }
  }

  method BuildCells(tb: Tables, cols: seq<ProbInfo>, problems: map<string, ProblemAccum>, t: string,
                    first: map<string, (int, string)>, ghost order: seq<Judged>)
    returns (cells: seq<ProblemResultCell>, solved: int, penalty: int)
    requires tb.Typed() && RowAccums(tb, order, t, problems)
    ensures cells == CellsOf(tb, order, FirstTeams(first), t, cols)
    ensures Score(solved, penalty) == ScoreOf(tb, order, cols, t)
  {
    cells, solved, penalty := [], 0, 0;
    for i := 0 to |cols|
      invariant Score(solved, penalty) == ScoreOf(tb, order, cols[..i], t)
      invariant cells == CellsOf(tb, order, FirstTeams(first), t, cols[..i])
    {
      assert cols[..i + 1] == cols[..i] + [cols[i]];
      ScoreStep(tb, order, cols[..i], t, cols[i]);
      var cell, s, p := BuildCell(tb, problems, t, cols[i], first, order);
      cells, solved, penalty := cells + [cell], solved + s, penalty + p;
    }
    assert cols[..|cols|] == cols;
  }

  method TeamTexts(tb: Tables, t: string) returns (teamName: string, organizationId: string, organizationName: string)
    requires tb.Typed()
    ensures teamName == NameOf(tb, t)
    ensures organizationId == OrganizationIdOf(tb, t)
    ensures organizationName == OrganizationNameOf(tb, t)
  {
    teamName, organizationId, organizationName := t, "", "";
    if t in tb.teams {
      var team := tb.teams[t].body;
      teamName := if team.displayName.Some? then team.displayName.value else team.teamName.GetOr(t);
      if team.organizationId.Some? {
        organizationId := team.organizationId.value;
        if organizationId in tb.organizations {
          organizationName := tb.organizations[organizationId].body.organizationName.GetOr("");
        }
      }
    }
  }

  /** A row as it stands before places are assigned. */
  ghost function Unplaced(tb: Tables, awards: seq<ContestObject>, cols: seq<ProbInfo>, order: seq<Judged>,
                          first: map<string, string>, t: string): ScoreboardRow
    requires tb.Typed()
  {
    RowOf(tb, awards, cols, order, first, t).(place := 0)
  }

  ghost function UnplacedRows(tb: Tables, awards: seq<ContestObject>, cols: seq<ProbInfo>, order: seq<Judged>,
                              first: map<string, string>): set<ScoreboardRow>
    requires tb.Typed()
  {
    set t | t in tb.shown :: Unplaced(tb, awards, cols, order, first, t)
  }

  method BuildRows(tb: Tables, cols: seq<ProbInfo>, accums: map<string, map<string, ProblemAccum>>,
                   first: map<string, (int, string)>, awardIndex: map<string, seq<TeamAward>>,
                   ghost order: seq<Judged>, ghost awards: seq<ContestObject>)
    returns (rows: seq<ScoreboardRow>)
    requires tb.Typed() && AccumsMatch(tb, order, accums) && AwardsMatch(awards, awardIndex)
    ensures Enumerates(rows, UnplacedRows(tb, awards, cols, order, FirstTeams(first)))
  {
    hide Outcome, CellsOf, AwardsOf, ScoreOf, FirstTeams, NameOf, OrganizationIdOf, OrganizationNameOf;
    rows := [];
    var todo := accums.Keys;
    while todo != {}
      invariant todo <= accums.Keys
      invariant Enumerates(rows, set t | t in tb.shown - todo ::
          Unplaced(tb, awards, cols, order, FirstTeams(first), t))
    {
      var t :| t in todo;
      assert RowAccums(tb, order, t, accums[t]) by {
        forall p ensures Lookup(accums[t], p) == Outcome(tb, order, t, p) {}
      }
      var name, oid, oname := TeamTexts(tb, t);
      var cells, solved, penalty := BuildCells(tb, cols, accums[t], t, first, order);
      var row := ScoreboardRow(0, t, name, oid, oname, solved, penalty, cells, AwardsIn(awardIndex, t));
      assert row == Unplaced(tb, awards, cols, order, FirstTeams(first), t);
      OneMoreRow(tb, awards, cols, order, FirstTeams(first), rows, tb.shown - todo, t);
      assert tb.shown - (todo - {t}) == tb.shown - todo + {t};
      rows, todo := rows + [row], todo - {t};
    }
    assert tb.shown - {} == tb.shown;
  }

  lemma OneMoreRow(tb: Tables, awards: seq<ContestObject>, cols: seq<ProbInfo>, order: seq<Judged>,
                   first: map<string, string>, rows: seq<ScoreboardRow>, teams: set<string>, t: string)
    requires tb.Typed() && t !in teams
    requires Enumerates(rows, set u | u in teams :: Unplaced(tb, awards, cols, order, first, u))
    ensures Enumerates(rows + [Unplaced(tb, awards, cols, order, first, t)],
                       set u | u in teams + {t} :: Unplaced(tb, awards, cols, order, first, u))
  {
    var before := set u | u in teams :: Unplaced(tb, awards, cols, order, first, u);
    var after := set u | u in teams + {t} :: Unplaced(tb, awards, cols, order, first, u);
    EnumeratesOneMore(rows, before, after, Unplaced(tb, awards, cols, order, first, t));
  }

  // ---- Places ----

  /** How many of the rows have a strictly better score. */
  function CountBetter(rows: seq<ScoreboardRow>, s: Score): nat {
    if rows == [] then 0
    else CountBetter(rows[..|rows| - 1], s) + if Better(ScoreIn(rows[|rows| - 1]), s) then 1 else 0
  }

  lemma {:induction false} CountBetterUpTo(rows: seq<ScoreboardRow>, s: Score, n: nat)
    requires n <= |rows|
    requires forall k | 0 <= k < n :: Better(ScoreIn(rows[k]), s)
    requires forall k | n <= k < |rows| :: !Better(ScoreIn(rows[k]), s)
    ensures CountBetter(rows, s) == n
  {
    if rows != [] {
      CountBetterUpTo(rows[..|rows| - 1], s, if n == |rows| then n - 1 else n);
    }
  }

  /** In sorted rows, a row that does not tie with its predecessor has exactly the earlier rows ahead of it. */
  lemma RankOfNewScore(rows: seq<ScoreboardRow>, i: nat)
    requires i < |rows| && Sorted(rows, RowLess)
    requires i > 0 ==> ScoreIn(rows[i]) != ScoreIn(rows[i - 1])
    ensures CountBetter(rows, ScoreIn(rows[i])) == i
  {
    var s := ScoreIn(rows[i]);
    forall k | 0 <= k < i
      ensures Better(ScoreIn(rows[k]), s)
    {
      assert !RowLess(rows[i], rows[i - 1]);
      assert k == i - 1 || !RowLess(rows[i - 1], rows[k]);
    }
    forall k | i <= k < |rows|
      ensures !Better(ScoreIn(rows[k]), s)
    {
      assert k == i || !RowLess(rows[k], rows[i]);
    }
    CountBetterUpTo(rows, s, i);
  }

  /** The place-assigning loop gives every sorted row one more than the number of strictly better rows. */
  method AssignPlaces(rows: seq<ScoreboardRow>) returns (placed: seq<ScoreboardRow>)
    requires Sorted(rows, RowLess)
    ensures |placed| == |rows|
    ensures forall i | 0 <= i < |rows| :: placed[i] == rows[i].(place := 1 + CountBetter(rows, ScoreIn(rows[i])))
  {
    placed := rows;
    for i := 0 to |rows|
      invariant |placed| == |rows|
      invariant forall k | 0 <= k < i :: placed[k] == rows[k].(place := 1 + CountBetter(rows, ScoreIn(rows[k])))
      invariant forall k | i <= k < |rows| :: placed[k] == rows[k]
    {
      if i == 0 {
        RankOfNewScore(rows, i);
        placed := placed[i := placed[i].(place := 1)];
      } else if placed[i].solved == placed[i - 1].solved && placed[i].penalty == placed[i - 1].penalty {
        placed := placed[i := placed[i].(place := placed[i - 1].place)];
      } else {
        RankOfNewScore(rows, i);
        placed := placed[i := placed[i].(place := i + 1)];
      }
    }
  }

  ghost function BetterIds(rows: seq<ScoreboardRow>, s: Score): set<string> {
    set r | r in rows && Better(ScoreIn(r), s) :: r.teamId
  }

  lemma {:induction false} CountBetterIsCardinality(rows: seq<ScoreboardRow>, s: Score)
    requires forall i, j | 0 <= i < j < |rows| :: rows[i].teamId != rows[j].teamId
    ensures CountBetter(rows, s) == |BetterIds(rows, s)|
  {
    if rows == [] {
      assert BetterIds(rows, s) == {};
    } else {
      var last := |rows| - 1;
      CountBetterIsCardinality(rows[..last], s);
      assert rows == rows[..last] + [rows[last]];
      assert rows[last].teamId !in BetterIds(rows[..last], s);
      assert BetterIds(rows, s) ==
             BetterIds(rows[..last], s) + if Better(ScoreIn(rows[last]), s) then {rows[last].teamId} else {};
    }
  }

  /** `rows` holds one unplaced row per shown team. */
  ghost predicate OneRowPerTeam(tb: Tables, awards: seq<ContestObject>, cols: seq<ProbInfo>, order: seq<Judged>,
                                first: map<string, string>, rows: seq<ScoreboardRow>)
    requires tb.Typed()
  {
    && (forall i | 0 <= i < |rows| :: rows[i].teamId in tb.shown)
    && (forall i | 0 <= i < |rows| :: rows[i] == Unplaced(tb, awards, cols, order, first, rows[i].teamId))
    && (forall i, j | 0 <= i < j < |rows| :: rows[i].teamId != rows[j].teamId)
    && (forall t | t in tb.shown :: exists i | 0 <= i < |rows| :: rows[i].teamId == t)
  }

  lemma RowsByTeam(tb: Tables, awards: seq<ContestObject>, cols: seq<ProbInfo>, order: seq<Judged>,
                   first: map<string, string>, rows: seq<ScoreboardRow>)
    requires tb.Typed()
    requires Enumerates(rows, UnplacedRows(tb, awards, cols, order, first))
    ensures OneRowPerTeam(tb, awards, cols, order, first, rows)
  {
    forall i | 0 <= i < |rows|
      ensures rows[i].teamId in tb.shown && rows[i] == Unplaced(tb, awards, cols, order, first, rows[i].teamId)
    {
      assert rows[i] in rows;
    }
    forall t | t in tb.shown
      ensures exists i | 0 <= i < |rows| :: rows[i].teamId == t
    {
      assert Unplaced(tb, awards, cols, order, first, t) in rows;
    }
  }

  lemma CountIsAhead(tb: Tables, awards: seq<ContestObject>, cols: seq<ProbInfo>, order: seq<Judged>,
                     first: map<string, string>, rows: seq<ScoreboardRow>, s: Score)
    requires tb.Typed() && OneRowPerTeam(tb, awards, cols, order, first, rows)
    ensures CountBetter(rows, s) == |Ahead(tb, order, cols, s)|
  {
    CountBetterIsCardinality(rows, s);
    forall u | u in Ahead(tb, order, cols, s)
      ensures u in BetterIds(rows, s)
    {
      var i :| 0 <= i < |rows| && rows[i].teamId == u;
      assert rows[i] in rows;
    }
    assert BetterIds(rows, s) == Ahead(tb, order, cols, s);
  }

  lemma PlacedRow(tb: Tables, awards: seq<ContestObject>, cols: seq<ProbInfo>, order: seq<Judged>,
                  first: map<string, string>, rows: seq<ScoreboardRow>, row: ScoreboardRow)
    requires tb.Typed() && OneRowPerTeam(tb, awards, cols, order, first, rows) && row in rows
    ensures row.teamId in tb.shown
    ensures row.(place := 1 + CountBetter(rows, ScoreIn(row))) == RowOf(tb, awards, cols, order, first, row.teamId)
  {
    CountIsAhead(tb, awards, cols, order, first, rows, ScoreIn(row));
    assert row == Unplaced(tb, awards, cols, order, first, row.teamId);
  }

  lemma PlacedByTeam(rows: seq<ScoreboardRow>, placed: seq<ScoreboardRow>, rowOf: map<string, ScoreboardRow>)
    requires |placed| == |rows|
    requires forall i, j | 0 <= i < j < |rows| :: rows[i].teamId != rows[j].teamId
    requires forall i | 0 <= i < |rows| :: rows[i].teamId in rowOf && placed[i] == rowOf[rows[i].teamId]
    requires forall t | t in rowOf :: rowOf[t].teamId == t && exists i | 0 <= i < |rows| :: rows[i].teamId == t
    ensures Enumerates(placed, rowOf.Values)
  {
    var ids := seq(|rows|, i requires 0 <= i < |rows| => rows[i].teamId);
    forall t | t in rowOf
      ensures t in ids
    {
      var i :| 0 <= i < |rows| && rows[i].teamId == t;
      assert ids[i] == t;
    }
    EnumeratesByKey(placed, ids, rowOf);
  }

  lemma RowMapKeys(tb: Tables, awards: seq<ContestObject>, cols: seq<ProbInfo>, order: seq<Judged>,
                   first: map<string, string>)
    requires tb.Typed()
    ensures
      var m := RowMap(tb, awards, cols, order, first);
      m.Keys == tb.shown && forall t | t in m :: m[t].teamId == t
  {
  }

  lemma PlacedRows(tb: Tables, awards: seq<ContestObject>, cols: seq<ProbInfo>, order: seq<Judged>,
                   first: map<string, string>, rows: seq<ScoreboardRow>, placed: seq<ScoreboardRow>)
    requires tb.Typed() && OneRowPerTeam(tb, awards, cols, order, first, rows)
    requires |placed| == |rows|
    requires forall i | 0 <= i < |rows| :: placed[i] == rows[i].(place := 1 + CountBetter(rows, ScoreIn(rows[i])))
    ensures Enumerates(placed, RowMap(tb, awards, cols, order, first).Values)
  {
    hide CountBetter, RowOf, Unplaced, Enumerates;
    var rowOf := RowMap(tb, awards, cols, order, first);
    forall i | 0 <= i < |rows|
      ensures rows[i].teamId in rowOf && placed[i] == rowOf[rows[i].teamId]
    {
      PlacedRow(tb, awards, cols, order, first, rows, rows[i]);
    }
    RowMapKeys(tb, awards, cols, order, first);
    PlacedByTeam(rows, placed, rowOf);
  }
}
