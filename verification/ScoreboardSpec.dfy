/** What final standings are, stated independently of the loops that compute them.

    A store reaches the builder as one arbitrary enumeration per kind of object (a `View`).
    The choices the builder makes among equals (column order, order of submissions at one
    contest time, first solver at one accept time) are explicit parameters. */
module ScoreboardSpec {
  import opened Types
  import opened Collections

  datatype View = View(
    contest: Option<ContestRecord>,
    state: Option<StateRecord>,
    problems: seq<ContestObject>,
    judgementTypes: seq<ContestObject>,
    submissions: seq<ContestObject>,
    judgements: seq<ContestObject>,
    teams: seq<ContestObject>,
    organizations: seq<ContestObject>,
    awards: seq<ContestObject>)

  // ---- The snapshot ----

  datatype ProblemStatus = Solved | Failed | Empty

  datatype ProblemResultCell = ProblemResultCell(
    problemId: string, title: string, status: ProblemStatus,
    attempts: nat, timeMinutes: int, isFirstToSolve: bool)

  datatype TeamAward = TeamAward(awardId: string, citation: string)

  datatype ScoreboardRow = ScoreboardRow(
    place: int, teamId: string, teamName: string, organizationId: string, organizationName: string,
    solved: int, penalty: int, cells: seq<ProblemResultCell>, awards: seq<TeamAward>)

  datatype ProblemColumn = ProblemColumn(problemId: string, title: string, name: string, rgb: string)

  datatype ScoreboardSnapshot = ScoreboardSnapshot(
    contestName: string, contestFormalName: string, penaltyTimeMinutes: int,
    problems: seq<ProblemColumn>, rows: seq<ScoreboardRow>)

  // ---- Contest metadata ----

  /** The configured duration in ms, without limit if none is given. */
  function Duration(contest: Option<ContestRecord>): int {
    if contest.Some? then contest.value.body.durationMs.GetOr(INT64_MAX) else INT64_MAX
  }

  /** The time from the start to the recorded end in ms, if both are known. */
  function Elapsed(contest: Option<ContestRecord>, state: Option<StateRecord>): Option<int> {
    if state.Some? && state.value.body.ended.Some? && contest.Some? && contest.value.body.startTime.Some? then
      Some(state.value.body.ended.value.epochMs - contest.value.body.startTime.value.epochMs)
    else
      None
  }

  /** The contest times at which a contest is over: its duration, and its recorded end if that is after the start. */
  ghost function Ends(contest: Option<ContestRecord>, state: Option<StateRecord>): set<int> {
    {Duration(contest)} +
    match Elapsed(contest, state)
    case Some(e) => if 0 < e then {e} else {}
    case None => {}
  }

  /** Submissions at or after this contest time (ms) do not count: the duration, capped by the actual end. */
  function ContestLimit(contest: Option<ContestRecord>, state: Option<StateRecord>): (limitMs: int)
    ensures limitMs in Ends(contest, state)
    ensures forall e | e in Ends(contest, state) :: limitMs <= e
  {
    var duration := Duration(contest);
    match Elapsed(contest, state)
    case Some(e) => if 0 < e < duration then e else duration
    case None => duration
  }

  function PenaltyMinutes(contest: Option<ContestRecord>): int {
    if contest.Some? && contest.value.body.penaltyTimeMs.Some? then
      TruncDiv(contest.value.body.penaltyTimeMs.value, 60000)
    else
      20
  }

  // ---- Columns ----

  datatype ProbInfo = ProbInfo(ordinal: int, id: string, title: string, name: string, rgb: string)

  function ProbInfoOf(p: ContestObject): ProbInfo
    requires p.body.Problem?
  {
    ProbInfo(p.body.ordinal.GetOr(0), p.id, p.body.labelText.GetOr(p.id),
             p.body.problemName.GetOr(""), p.body.rgb.GetOr(""))
  }

  function ProbInfos(problems: seq<ContestObject>): seq<ProbInfo> {
    if problems == [] then []
    else
      var last := |problems| - 1;
      var infos := ProbInfos(problems[..last]);
      if problems[last].body.Problem? then infos + [ProbInfoOf(problems[last])] else infos
  }

  predicate ColumnLess(a: ProbInfo, b: ProbInfo) {
    if a.ordinal != b.ordinal then a.ordinal < b.ordinal else StrLess(a.title, b.title)
  }

  // ---- Tables built from the enumerations ----

  /** Objects of one kind by their own id; of several with one id, the last enumerated stays. */
  function Index(kind: ObjectType, objs: seq<ContestObject>): (m: map<string, ContestObject>)
    ensures forall id | id in m :: m[id].id == id && KindOf(m[id].body) == kind && m[id] in objs
  {
    if objs == [] then map[]
    else
      var last := |objs| - 1;
      var m := Index(kind, objs[..last]);
      if KindOf(objs[last].body) == kind then m[objs[last].id := objs[last]] else m
  }

  datatype JudgeSummary = JudgeSummary(verdict: string, endMs: int)

  /** A judgement that carries a verdict on a submission. */
  predicate HasVerdict(j: ContestObject) {
    j.body.Judgement? && j.body.submissionId.Some? && j.body.judgementTypeId.Some?
  }

  function EndMs(j: ContestObject): int
    requires j.body.Judgement?
  {
    if j.body.endTime.Some? then j.body.endTime.value.epochMs else 0
  }

  /** Judgement `i` did not end after `j`. One without an end time counts as ended at the epoch. */
  predicate EndsNoLater(i: ContestObject, j: ContestObject)
    requires i.body.Judgement? && j.body.Judgement?
  {
    match i.body.endTime
    case Some(a) =>
      (match j.body.endTime
       case Some(b) => a.epochMs <= b.epochMs
       case None => a.epochMs <= 0)
    case None =>
      (match j.body.endTime
       case Some(b) => 0 <= b.epochMs
       case None => true)
  }

  function SummaryOf(j: ContestObject): JudgeSummary
    requires HasVerdict(j)
  {
    JudgeSummary(j.body.judgementTypeId.value, EndMs(j))
  }

  /** Per submission the verdict of a judgement with the latest end time, the first enumerated among equals. */
  function Best(judgements: seq<ContestObject>): map<string, JudgeSummary> {
    if judgements == [] then map[]
    else
      var last := |judgements| - 1;
      var best, j := Best(judgements[..last]), judgements[last];
      if HasVerdict(j) && (j.body.submissionId.value in best ==> best[j.body.submissionId.value].endMs < EndMs(j))
      then best[j.body.submissionId.value := SummaryOf(j)]
      else best
  }

  predicate IsHidden(t: ContestObject) {
    t.body.Team? && t.body.hidden == Some(true)
  }

  predicate IsShown(t: ContestObject) {
    t.body.Team? && t.body.hidden != Some(true)
  }

  ghost function ShownIds(teams: seq<ContestObject>): set<string> {
    set t | t in teams && IsShown(t) :: t.id
  }

  ghost function HiddenIds(teams: seq<ContestObject>): set<string> {
    set t | t in teams && IsHidden(t) :: t.id
  }

  datatype Tables = Tables(
    limitMs: int,
    penaltyMinutes: int,
    verdicts: map<string, ContestObject>,
    submissions: map<string, ContestObject>,
    best: map<string, JudgeSummary>,
    teams: map<string, ContestObject>,
    shown: set<string>,
    hidden: set<string>,
    organizations: map<string, ContestObject>)
  {
    ghost predicate Typed() {
      && (forall id | id in verdicts :: verdicts[id].body.JudgementType?)
      && (forall id | id in submissions :: submissions[id].body.Submission?)
      && (forall id | id in teams :: teams[id].body.Team?)
      && (forall id | id in organizations :: organizations[id].body.Organization?)
    }
  }

  ghost function TablesOf(v: View): (tb: Tables)
    ensures tb.Typed()
  {
    Tables(
      ContestLimit(v.contest, v.state),
      PenaltyMinutes(v.contest),
      Index(JudgementTypesType, v.judgementTypes),
      Index(SubmissionsType, v.submissions),
      Best(v.judgements),
      Index(TeamsType, v.teams),
      ShownIds(v.teams),
      HiddenIds(v.teams),
      Index(OrganizationsType, v.organizations))
  }

  // ---- Judged submissions in time order ----

  /** A submission that counts, with the verdict used for it. */
  datatype Judged = Judged(id: string, team: string, problem: string, timeMs: int, verdict: string)

  predicate Eligible(tb: Tables, sid: string)
    requires tb.Typed()
  {
    && sid in tb.best
    && sid in tb.submissions
    && tb.submissions[sid].body.teamId.Some?
    && tb.submissions[sid].body.problemId.Some?
    && tb.submissions[sid].body.contestTimeMs.GetOr(0) < tb.limitMs
  }

  function JudgedOf(tb: Tables, sid: string): Judged
    requires tb.Typed() && Eligible(tb, sid)
  {
    var s := tb.submissions[sid].body;
    Judged(sid, s.teamId.value, s.problemId.value, s.contestTimeMs.GetOr(0), tb.best[sid].verdict)
  }

  ghost function JudgedAmong(tb: Tables, sids: set<string>): set<Judged>
    requires tb.Typed()
  {
    set sid | sid in sids && Eligible(tb, sid) :: JudgedOf(tb, sid)
  }

  ghost function JudgedSet(tb: Tables): set<Judged>
    requires tb.Typed()
  {
    JudgedAmong(tb, tb.best.Keys)
  }

  predicate Earlier(a: Judged, b: Judged) {
    a.timeMs < b.timeMs
  }

  /** A chronological listing of the judged submissions; submissions at one time may come in any order. */
  ghost predicate IsOrder(tb: Tables, order: seq<Judged>)
    requires tb.Typed()
  {
    Enumerates(order, JudgedSet(tb)) && Sorted(order, Earlier)
  }

  // ---- One team on one problem ----

  predicate Accepts(tb: Tables, verdict: string)
    requires tb.Typed()
  {
    verdict in tb.verdicts && tb.verdicts[verdict].body.solved.GetOr(false)
  }

  predicate Penalizes(tb: Tables, verdict: string)
    requires tb.Typed()
  {
    verdict in tb.verdicts && tb.verdicts[verdict].body.penalty.GetOr(true)
  }

  /** The submissions of team `t` on problem `p`, in the order given. */
  function Project(order: seq<Judged>, t: string, p: string): (r: seq<Judged>)
    ensures |r| <= |order|
    ensures forall j | j in r :: j in order && j.team == t && j.problem == p
  {
    if order == [] then []
    else
      var last := |order| - 1;
      var r := Project(order[..last], t, p);
      if order[last].team == t && order[last].problem == p then r + [order[last]] else r
  }

  /** Position of the first accepted submission, or the length if there is none. */
  function FirstAccept(tb: Tables, js: seq<Judged>): (k: nat)
    requires tb.Typed()
    ensures k <= |js|
    ensures forall i | 0 <= i < k :: !Accepts(tb, js[i].verdict)
    ensures k < |js| ==> Accepts(tb, js[k].verdict)
  {
    if js == [] then 0
    else
      var last := |js| - 1;
      var k := FirstAccept(tb, js[..last]);
      if k < last then k else if Accepts(tb, js[last].verdict) then last else |js|
  }

  /** How many of the submissions carry a penalty without being accepted. */
  function PenaltyRejects(tb: Tables, js: seq<Judged>): nat
    requires tb.Typed()
  {
    if js == [] then 0
    else
      var last := |js| - 1;
      PenaltyRejects(tb, js[..last]) +
      if Penalizes(tb, js[last].verdict) && !Accepts(tb, js[last].verdict) then 1 else 0
  }

  datatype ProblemAccum = ProblemAccum(numJudged: nat, penaltyAttempts: nat, solved: bool, acceptTimeMs: int)

  const NO_ATTEMPTS := ProblemAccum(0, 0, false, 0)

  /** The closed form of a (team, problem) accumulator after the submissions `js`. */
  function AccumOf(tb: Tables, js: seq<Judged>): ProblemAccum
    requires tb.Typed()
  {
    var k := FirstAccept(tb, js);
    if k < |js|
    then ProblemAccum(k + 1, PenaltyRejects(tb, js[..k]) + 1, true, js[k].timeMs)
    else ProblemAccum(|js|, PenaltyRejects(tb, js), false, 0)
  }

  /** The submissions of a team on a problem that the standings look at: none if the team is hidden. */
  function Tries(tb: Tables, order: seq<Judged>, t: string, p: string): seq<Judged> {
    if t in tb.hidden then [] else Project(order, t, p)
  }

  function Outcome(tb: Tables, order: seq<Judged>, t: string, p: string): ProblemAccum
    requires tb.Typed()
  {
    AccumOf(tb, Tries(tb, order, t, p))
  }

  // ---- First to solve ----

  ghost predicate SolvedBy(tb: Tables, order: seq<Judged>, t: string, p: string)
    requires tb.Typed()
  {
    t in tb.shown && Outcome(tb, order, t, p).solved
  }

  /** `first` names, for exactly the solved problems, a shown team with the least accept time. */
  ghost predicate IsFirstSolve(tb: Tables, order: seq<Judged>, first: map<string, string>)
    requires tb.Typed()
  {
    && (forall p | p in first :: SolvedBy(tb, order, first[p], p))
    && (forall t, p | SolvedBy(tb, order, t, p) ::
          p in first && Outcome(tb, order, first[p], p).acceptTimeMs <= Outcome(tb, order, t, p).acceptTimeMs)
  }

  // ---- Scores and places ----

  function SolvedIn(tb: Tables, order: seq<Judged>, t: string, c: ProbInfo): int
    requires tb.Typed()
  {
    if Outcome(tb, order, t, c.id).solved then 1 else 0
  }

  /** Minutes of the accept, plus the penalty for each penalized attempt before it. */
  function PenaltyOf(a: ProblemAccum, penaltyMinutes: int): int {
    if a.solved then TruncDiv(a.acceptTimeMs, 60000) + (a.penaltyAttempts - 1) * penaltyMinutes else 0
  }

  function PenaltyIn(tb: Tables, order: seq<Judged>, t: string, c: ProbInfo): int
    requires tb.Typed()
  {
    PenaltyOf(Outcome(tb, order, t, c.id), tb.penaltyMinutes)
  }

  datatype Score = Score(solved: int, penalty: int)

  ghost function ScoreOf(tb: Tables, order: seq<Judged>, cols: seq<ProbInfo>, t: string): Score
    requires tb.Typed()
  {
    Score(Sum((c: ProbInfo) => SolvedIn(tb, order, t, c), cols),
          Sum((c: ProbInfo) => PenaltyIn(tb, order, t, c), cols))
  }

  function ScoreIn(row: ScoreboardRow): Score {
    Score(row.solved, row.penalty)
  }

  predicate Better(a: Score, b: Score) {
    a.solved > b.solved || (a.solved == b.solved && a.penalty < b.penalty)
  }

  /** The shown teams whose score is strictly better than `s`. */
  ghost function Ahead(tb: Tables, order: seq<Judged>, cols: seq<ProbInfo>, s: Score): set<string>
    requires tb.Typed()
  {
    set u | u in tb.shown && Better(ScoreOf(tb, order, cols, u), s)
  }

  /** Standard competition rank. */
  ghost function Place(tb: Tables, order: seq<Judged>, cols: seq<ProbInfo>, t: string): int
    requires tb.Typed()
  {
    1 + |Ahead(tb, order, cols, ScoreOf(tb, order, cols, t))|
  }

  // ---- Rows ----

  function CellFrom(a: ProblemAccum, c: ProbInfo, isFirst: bool): ProblemResultCell {
    if a.solved then
      ProblemResultCell(c.id, c.title, Solved, a.numJudged, TruncDiv(a.acceptTimeMs, 60000), isFirst)
    else if a.numJudged > 0 then
      ProblemResultCell(c.id, c.title, Failed, a.numJudged, 0, false)
    else
      ProblemResultCell(c.id, c.title, Empty, 0, 0, false)
  }

  function CellOf(tb: Tables, order: seq<Judged>, first: map<string, string>, t: string, c: ProbInfo): ProblemResultCell
    requires tb.Typed()
  {
    CellFrom(Outcome(tb, order, t, c.id), c, c.id in first && first[c.id] == t)
  }

  function CellsOf(tb: Tables, order: seq<Judged>, first: map<string, string>, t: string,
                   cols: seq<ProbInfo>): seq<ProblemResultCell>
    requires tb.Typed()
  {
    seq(|cols|, i requires 0 <= i < |cols| => CellOf(tb, order, first, t, cols[i]))
  }

  function NameOf(tb: Tables, t: string): string
    requires tb.Typed()
  {
    if t in tb.teams then
      var team := tb.teams[t].body;
      if team.displayName.Some? then team.displayName.value else team.teamName.GetOr(t)
    else
      t
  }

  function OrganizationIdOf(tb: Tables, t: string): string
    requires tb.Typed()
  {
    if t in tb.teams then tb.teams[t].body.organizationId.GetOr("") else ""
  }

  function OrganizationNameOf(tb: Tables, t: string): string
    requires tb.Typed()
  {
    if t in tb.teams && tb.teams[t].body.organizationId.Some? &&
       tb.teams[t].body.organizationId.value in tb.organizations
    then tb.organizations[tb.teams[t].body.organizationId.value].body.organizationName.GetOr("")
    else ""
  }

  function AwardOf(a: ContestObject): TeamAward
    requires a.body.Award?
  {
    TeamAward(a.id, a.body.citation.GetOr(a.id))
  }

  /** One copy of `award` for each time `t` is named. */
  function Copies(award: TeamAward, teamIds: seq<string>, t: string): seq<TeamAward> {
    if teamIds == [] then []
    else
      var last := |teamIds| - 1;
      Copies(award, teamIds[..last], t) + if teamIds[last] == t then [award] else []
  }

  /** The awards that name team `t`, in the order given. */
  function AwardsOf(awards: seq<ContestObject>, t: string): seq<TeamAward> {
    if awards == [] then []
    else
      var last := |awards| - 1;
      AwardsOf(awards[..last], t) +
      if awards[last].body.Award? then Copies(AwardOf(awards[last]), awards[last].body.teamIds, t) else []
  }

  ghost function RowOf(tb: Tables, awards: seq<ContestObject>, cols: seq<ProbInfo>, order: seq<Judged>,
                       first: map<string, string>, t: string): ScoreboardRow
    requires tb.Typed()
  {
    var score := ScoreOf(tb, order, cols, t);
    ScoreboardRow(
      Place(tb, order, cols, t), t, NameOf(tb, t), OrganizationIdOf(tb, t), OrganizationNameOf(tb, t),
      score.solved, score.penalty, CellsOf(tb, order, first, t, cols), AwardsOf(awards, t))
  }

  /** The row of every shown team. */
  ghost function RowMap(tb: Tables, awards: seq<ContestObject>, cols: seq<ProbInfo>, order: seq<Judged>,
                        first: map<string, string>): map<string, ScoreboardRow>
    requires tb.Typed()
  {
    map t | t in tb.shown :: RowOf(tb, awards, cols, order, first, t)
  }

  /** The order of rows: solved descending, penalty ascending, team name ascending. */
  predicate RowLess(a: ScoreboardRow, b: ScoreboardRow) {
    if a.solved != b.solved then a.solved > b.solved
    else if a.penalty != b.penalty then a.penalty < b.penalty
    else StrLess(a.teamName, b.teamName)
  }

  // ---- Standings ----

  ghost predicate IsColumns(v: View, cols: seq<ProbInfo>) {
    multiset(cols) == multiset(ProbInfos(v.problems)) && Sorted(cols, ColumnLess)
  }

  function ColumnsOf(cols: seq<ProbInfo>): seq<ProblemColumn> {
    seq(|cols|, i requires 0 <= i < |cols| => ProblemColumn(cols[i].id, cols[i].title, cols[i].name, cols[i].rgb))
  }

  /** `snap` is the final standings of `v` under the given choices among equals. */
  ghost predicate IsSnapshot(v: View, cols: seq<ProbInfo>, order: seq<Judged>, first: map<string, string>,
                             snap: ScoreboardSnapshot)
  {
    var tb := TablesOf(v);
    && IsColumns(v, cols)
    && IsOrder(tb, order)
    && IsFirstSolve(tb, order, first)
    && snap.contestName == (if v.contest.Some? then v.contest.value.body.name.GetOr("") else "")
    && snap.contestFormalName == (if v.contest.Some? then v.contest.value.body.formalName.GetOr("") else "")
    && snap.penaltyTimeMinutes == tb.penaltyMinutes
    && snap.problems == ColumnsOf(cols)
    && Enumerates(snap.rows, RowMap(tb, v.awards, cols, order, first).Values)
    && Sorted(snap.rows, RowLess)
  }
}
