/** An encoding of contest objects as JSON fields, written down independently of the decoder, and that decoding
    undoes it. This is what says which field goes where. */
module Encoding {
  import opened Types
  import opened Decode
  import AbsTime
  import RelTime

  // ---- Fields ----

  /** A field that is there only if it has a value. */
  function With(f: map<string, Json>, key: string, value: Option<Json>): map<string, Json> {
    match value
    case Some(v) => f[key := v]
    case None => f
  }

  function Text(s: Option<string>): Option<Json> {
    match s case Some(x) => Some(Str(x)) case None => None
  }

  function Flag(b: Option<bool>): Option<Json> {
    match b case Some(x) => Some(Bool(x)) case None => None
  }

  function Number(n: Option<int>): Option<Json> {
    match n case Some(x) => Some(Int(x)) case None => None
  }

  function Instant(t: Option<AbsoluteTime>): Option<Json> {
    match t case Some(x) => Some(Str(AbsTime.AbsText(x))) case None => None
  }

  function Span(ms: Option<int>): Option<Json> {
    match ms case Some(x) => Some(Str(RelTime.RelText(x))) case None => None
  }

  function Texts(s: seq<string>): seq<Json> {
    seq(|s|, i requires 0 <= i < |s| => Str(s[i]))
  }

  /** Minutes in 2023-06, a RELTIME in 2026-01. */
  function Penalty(ms: Option<int>, version: ApiVersion): Option<Json> {
    match ms
    case Some(x) => if version == V2023 then Some(Int(x / 60000)) else Some(Str(RelTime.RelText(x)))
    case None => None
  }

  // ---- What has an encoding ----

  predicate Fits32(n: Option<int>) {
    n.Some? ==> INT32_MIN <= n.value <= INT32_MAX
  }

  /** A duration that survives printing and parsing. */
  predicate FitsSpan(ms: Option<int>) {
    ms.Some? ==> INT64_MIN < ms.value <= INT64_MAX
  }

  /** An instant that survives printing and parsing. */
  predicate FitsInstant(t: Option<AbsoluteTime>) {
    t.Some? ==>
      && -999 <= AbsTime.LocalFields(t.value).year <= 9999
      && -6000 < t.value.tzOffsetMinutes < 6000 && !(-59 <= t.value.tzOffsetMinutes <= -1)
  }

  predicate FitsPenalty(ms: Option<int>, version: ApiVersion) {
    ms.Some? ==>
      if version == V2023 then ms.value % 60000 == 0 && INT32_MIN <= ms.value / 60000 <= INT32_MAX
      else INT64_MIN < ms.value <= INT64_MAX
  }

  predicate Encodable(body: Body, version: ApiVersion) {
    match body
    case Contest(_, _, start, duration, penalty) =>
      FitsInstant(start) && FitsSpan(duration) && FitsPenalty(penalty, version)
    case State(a, b, c, d, e, f) =>
      && FitsInstant(a) && FitsInstant(b) && FitsInstant(c) && FitsInstant(d) && FitsInstant(e) && FitsInstant(f)
    case Problem(ordinal, _, _, _) => Fits32(ordinal)
    case Submission(_, _, contestTime) => FitsSpan(contestTime)
    case Judgement(_, _, end) => FitsInstant(end)
    case Clarification(teams, groups, unknown) =>
      && "to_team_id" !in unknown && "to_team_ids" !in unknown && "to_group_ids" !in unknown
      && "id" !in unknown && "from_team_id" !in unknown && "problem_id" !in unknown && "reply_to_id" !in unknown
      && "time" !in unknown && "contest_time" !in unknown && "text" !in unknown
      && (version == V2023 ==> |teams| <= 1 && groups == [])
    case Plain => false
    case _ => true
  }

  // ---- The encoding ----

  function Fields(body: Body, version: ApiVersion): map<string, Json> {
    match body
    case Contest(name, formalName, start, duration, penalty) =>
      With(With(With(With(With(map[], "name", Text(name)), "formal_name", Text(formalName)),
                     "start_time", Instant(start)), "duration", Span(duration)), "penalty_time",
                         Penalty(penalty, version))
    case State(started, ended, frozen, thawed, finalized, endOfUpdates) =>
      With(With(With(With(With(With(map[], "started", Instant(started)), "ended", Instant(ended)),
                          "frozen", Instant(frozen)), "thawed", Instant(thawed)), "finalized", Instant(finalized)),
           "end_of_updates", Instant(endOfUpdates))
    case JudgementType(penalty, solved) => With(With(map[], "penalty", Flag(penalty)), "solved", Flag(solved))
    case Problem(ordinal, labelText, name, rgb) =>
      With(With(With(With(map[], "ordinal", Number(ordinal)), "label", Text(labelText)), "name", Text(name)),
           "rgb", Text(rgb))
    case Organization(name) => With(map[], "name", Text(name))
    case Team(name, displayName, organizationId, hidden) =>
      With(With(With(With(map[], "name", Text(name)), "display_name", Text(displayName)),
                "organization_id", Text(organizationId)), "hidden", Flag(hidden))
    case Submission(problemId, teamId, contestTime) =>
      With(With(With(map[], "problem_id", Text(problemId)), "team_id", Text(teamId)), "contest_time", Span(contestTime))
    case Judgement(submissionId, judgementTypeId, end) =>
      With(With(With(map[], "submission_id", Text(submissionId)), "judgement_type_id", Text(judgementTypeId)),
           "end_time", Instant(end))
    case Clarification(teams, groups, unknown) =>
      if version == V2023
      then With(unknown, "to_team_id", if teams == [] then None else Some(Str(teams[0])))
      else unknown["to_team_ids" := Arr(Texts(teams))]["to_group_ids" := Arr(Texts(groups))]
    case Award(citation, teamIds) => With(map["team_ids" := Arr(Texts(teamIds))], "citation", Text(citation))
    case Plain => map[]
  }

  /** The fields of an object; a state has no id. */
  function ObjectFields(id: string, body: Body, version: ApiVersion): map<string, Json> {
    if body.State? then Fields(body, version) else Fields(body, version)["id" := Str(id)]
  }

  // ---- Decoding undoes it ----

  lemma {:induction false} TextsRead(s: seq<string>)
    ensures Strings(Texts(s)) == s
  {
    if s != [] {
      var last := |s| - 1;
      assert Texts(s)[..last] == Texts(s[..last]);
      TextsRead(s[..last]);
    }
  }

  lemma InstantRead(t: Option<AbsoluteTime>)
    requires FitsInstant(t) && t.Some?
    ensures AbsTime.ParseAbs(AbsTime.AbsText(t.value)) == t
  {
    AbsTime.TimeRoundTrip(t.value);
  }

  lemma SpanRead(ms: Option<int>)
    requires FitsSpan(ms) && ms.Some?
    ensures RelTime.ParseRel(RelTime.RelText(ms.value)) == ms
  {
    RelTime.RelTimeRoundTrip(ms.value);
  }

  lemma NarrowingKeeps(n: int)
    requires INT32_MIN <= n <= INT32_MAX
    ensures ToInt32(n) == n
  {
  }

  /** An integer penalty time counts minutes. */
  lemma IntegerPenalty(f: map<string, Json>, n: int)
    requires INT32_MIN <= n <= INT32_MAX && "penalty_time" in f && f["penalty_time"] == Int(n)
    ensures PenaltyTime(f) == Some(n * 60000)
  {
    NarrowingKeeps(n);
  }

  /** The field is there with the value, or not there without one. */
  predicate Holds(f: map<string, Json>, key: string, value: Option<Json>) {
    match value
    case Some(v) => key in f && f[key] == v
    case None => key !in f
  }

  lemma TextHeld(f: map<string, Json>, key: string, s: Option<string>)
    requires Holds(f, key, Text(s))
    ensures OptString(f, key) == s
  {
  }

  lemma FlagHeld(f: map<string, Json>, key: string, b: Option<bool>)
    requires Holds(f, key, Flag(b))
    ensures OptBool(f, key) == b
  {
  }

  lemma NumberHeld(f: map<string, Json>, key: string, n: Option<int>)
    requires Holds(f, key, Number(n)) && Fits32(n)
    ensures OptInt(f, key) == n
  {
    if n.Some? { NarrowingKeeps(n.value); }
  }

  lemma InstantHeld(f: map<string, Json>, key: string, t: Option<AbsoluteTime>)
    requires Holds(f, key, Instant(t)) && FitsInstant(t)
    ensures OptAbsTime(f, key) == t
  {
    hide AbsTime.ParseAbs, AbsTime.AbsText;
    if t.Some? { InstantRead(t); }
  }

  lemma SpanHeld(f: map<string, Json>, key: string, ms: Option<int>)
    requires Holds(f, key, Span(ms)) && FitsSpan(ms)
    ensures OptRelTime(f, key) == ms
  {
    hide RelTime.ParseRel, RelTime.RelText;
    if ms.Some? { SpanRead(ms); }
  }

  lemma PenaltyHeld(f: map<string, Json>, ms: Option<int>, version: ApiVersion)
    requires Holds(f, "penalty_time", Penalty(ms, version)) && FitsPenalty(ms, version)
    ensures PenaltyTime(f) == ms
  {
    hide RelTime.ParseRel, RelTime.RelText;
    if ms.Some? {
      if version == V2023 {
        IntegerPenalty(f, ms.value / 60000);
      } else {
        SpanRead(ms);
      }
    }
  }

  // ---- Kind by kind ----

  lemma ContestRead(id: string, b: Body, version: ApiVersion)
    requires b.Contest? && Encodable(b, version)
    ensures BodyOf(ContestType, ObjectFields(id, b, version), version) == b
  {
    hide Text, Instant, Span, Penalty, OptString, OptAbsTime, OptRelTime, PenaltyTime, FitsInstant, FitsSpan,
         FitsPenalty;
    var f := ObjectFields(id, b, version);
    TextHeld(f, "name", b.name);
    TextHeld(f, "formal_name", b.formalName);
    InstantHeld(f, "start_time", b.startTime);
    SpanHeld(f, "duration", b.durationMs);
    PenaltyHeld(f, b.penaltyTimeMs, version);
  }

  lemma StateRead(id: string, b: Body, version: ApiVersion)
    requires b.State? && Encodable(b, version)
    ensures BodyOf(StateType, ObjectFields(id, b, version), version) == b
  {
    hide Instant, OptAbsTime, FitsInstant;
    var f := ObjectFields(id, b, version);
    InstantHeld(f, "started", b.started);
    InstantHeld(f, "ended", b.ended);
    InstantHeld(f, "frozen", b.frozen);
    InstantHeld(f, "thawed", b.thawed);
    InstantHeld(f, "finalized", b.finalized);
    InstantHeld(f, "end_of_updates", b.endOfUpdates);
  }

  lemma JudgementTypeRead(id: string, b: Body, version: ApiVersion)
    requires b.JudgementType?
    ensures BodyOf(JudgementTypesType, ObjectFields(id, b, version), version) == b
  {
    hide Flag, OptBool;
    var f := ObjectFields(id, b, version);
    FlagHeld(f, "penalty", b.penalty);
    FlagHeld(f, "solved", b.solved);
  }

  lemma ProblemRead(id: string, b: Body, version: ApiVersion)
    requires b.Problem? && Encodable(b, version)
    ensures BodyOf(ProblemsType, ObjectFields(id, b, version), version) == b
  {
    hide Text, Number, OptString, OptInt;
    var f := ObjectFields(id, b, version);
    NumberHeld(f, "ordinal", b.ordinal);
    TextHeld(f, "label", b.labelText);
    TextHeld(f, "name", b.problemName);
    TextHeld(f, "rgb", b.rgb);
  }

  lemma TeamRead(id: string, b: Body, version: ApiVersion)
    requires b.Team?
    ensures BodyOf(TeamsType, ObjectFields(id, b, version), version) == b
  {
    hide Text, Flag, OptString, OptBool;
    var f := ObjectFields(id, b, version);
    TextHeld(f, "name", b.teamName);
    TextHeld(f, "display_name", b.displayName);
    TextHeld(f, "organization_id", b.organizationId);
    FlagHeld(f, "hidden", b.hidden);
  }

  lemma OrganizationRead(id: string, b: Body, version: ApiVersion)
    requires b.Organization?
    ensures BodyOf(OrganizationsType, ObjectFields(id, b, version), version) == b
  {
    hide Text, OptString;
    TextHeld(ObjectFields(id, b, version), "name", b.organizationName);
  }

  lemma SubmissionRead(id: string, b: Body, version: ApiVersion)
    requires b.Submission? && Encodable(b, version)
    ensures BodyOf(SubmissionsType, ObjectFields(id, b, version), version) == b
  {
    hide Text, Span, OptString, OptRelTime, FitsSpan;
    var f := ObjectFields(id, b, version);
    TextHeld(f, "problem_id", b.problemId);
    TextHeld(f, "team_id", b.teamId);
    SpanHeld(f, "contest_time", b.contestTimeMs);
  }

  lemma JudgementRead(id: string, b: Body, version: ApiVersion)
    requires b.Judgement? && Encodable(b, version)
    ensures BodyOf(JudgementsType, ObjectFields(id, b, version), version) == b
  {
    hide Text, Instant, OptString, OptAbsTime, FitsInstant;
    var f := ObjectFields(id, b, version);
    TextHeld(f, "submission_id", b.submissionId);
    TextHeld(f, "judgement_type_id", b.judgementTypeId);
    InstantHeld(f, "end_time", b.endTime);
  }

  lemma AwardRead(id: string, b: Body, version: ApiVersion)
    requires b.Award?
    ensures BodyOf(AwardsType, ObjectFields(id, b, version), version) == b
  {
    hide Text, OptString, Texts, Strings;
    var f := ObjectFields(id, b, version);
    TextHeld(f, "citation", b.citation);
    TextsRead(b.teamIds);
    assert f["team_ids"] == Arr(Texts(b.teamIds));
  }

  lemma ClarificationRead(id: string, b: Body, version: ApiVersion)
    requires b.Clarification? && Encodable(b, version) && version != Auto
    ensures BodyOf(ClarificationsType, ObjectFields(id, b, version), version) == b
  {
    hide Texts, Strings;
    var f := ObjectFields(id, b, version);
    TextsRead(b.toTeamIds);
    TextsRead(b.toGroupIds);
    assert f - ClarificationKeys(version) == b.unknownFields;
    if version == V2023 {
      assert StringArray(f, "to_team_ids") == [];
    } else {
      assert f["to_team_ids"] == Arr(Texts(b.toTeamIds)) && f["to_group_ids"] == Arr(Texts(b.toGroupIds));
      assert "to_team_id" !in f;
    }
  }

  /** The unknown fields of a clarification are those under any other key than the ones its version expects. */
  lemma UnknownFieldsOfClarification(f: map<string, Json>, version: ApiVersion, key: string)
    requires version != Auto
    ensures
      var unknown := ClarificationOf(f, version).unknownFields;
      && (key in unknown <==>
          && key in f && key != "id" && key != "from_team_id" && key != "problem_id" && key != "reply_to_id"
          && key != "time" && key != "contest_time" && key != "text"
          && (version == V2023 ==> key != "to_team_id")
          && (version == V2026 ==> key != "to_team_ids" && key != "to_group_ids"))
      && (key in unknown ==> unknown[key] == f[key])
  {
  }

  /** Decoding the fields of an object gives the object, id and all, under either version. */
  lemma DecodingUndoesEncoding(id: string, body: Body, version: ApiVersion)
    requires Encodable(body, version) && version != Auto
    ensures
      var t, f := KindOf(body), ObjectFields(id, body, version);
      && BodyOf(t, f, version) == body
      && IdOf(t, f) == (if body.State? then "" else id)
  {
    hide BodyOf, Encodable, Fields;
    match body
    case Contest(_, _, _, _, _) => ContestRead(id, body, version);
    case State(_, _, _, _, _, _) => StateRead(id, body, version);
    case JudgementType(_, _) => JudgementTypeRead(id, body, version);
    case Problem(_, _, _, _) => ProblemRead(id, body, version);
    case Organization(_) => OrganizationRead(id, body, version);
    case Team(_, _, _, _) => TeamRead(id, body, version);
    case Submission(_, _, _) => SubmissionRead(id, body, version);
    case Judgement(_, _, _) => JudgementRead(id, body, version);
    case Clarification(_, _, _) => ClarificationRead(id, body, version);
    case Award(_, _) => AwardRead(id, body, version);
    case Plain => NotEncodable(body, version);
  }

  lemma NotEncodable(body: Body, version: ApiVersion)
    requires body.Plain?
    ensures !Encodable(body, version)
  {
  }

  /** So the decoder gives the object with those fields as its source. */
  lemma ObjectDecoded(id: string, body: Body, version: ApiVersion, lineNo: nat)
    requires Encodable(body, version) && version != Auto
    ensures
      var t, f := KindOf(body), ObjectFields(id, body, version);
      var d := DecodeObject(t, Obj(f), version, lineNo);
      d.Ok? && d.value.obj == ContestObject(if body.State? then "" else id, body, f)
  {
    hide BodyOf, Encodable, Fields, DiagnosticsOf;
    DecodingUndoesEncoding(id, body, version);
    if body.Plain? { NotEncodable(body, version); }
  }

  // ---- What is reported ----

  /** The fields that hold an instant, kind by kind. */
  predicate IsInstantField(t: ObjectType, key: string) {
    match t
    case ContestType => key in {"start_time", "end_time", "scoreboard_thaw_time"}
    case StateType => key in {"started", "ended", "frozen", "thawed", "finalized", "end_of_updates"}
    case JudgementsType => key in {"start_time", "end_time"}
    case SubmissionsType => key == "time"
    case RunsType => key == "time"
    case ClarificationsType => key == "time"
    case CommentaryType => key == "time"
    case _ => false
  }

  /** The fields that hold a duration. */
  predicate IsDurationField(t: ObjectType, key: string) {
    match t
    case ContestType => key in {"duration", "scoreboard_freeze_duration"}
    case JudgementsType => key in {"start_contest_time", "end_contest_time"}
    case SubmissionsType => key == "contest_time"
    case RunsType => key == "contest_time"
    case ClarificationsType => key == "contest_time"
    case CommentaryType => key == "contest_time"
    case _ => false
  }

  /** The field has a value, and it is no readable instant. */
  predicate IsBadInstant(f: map<string, Json>, key: string) {
    key in f && !f[key].Null? && OptAbsTime(f, key).None?
  }

  predicate IsBadDuration(f: map<string, Json>, key: string) {
    key in f && !f[key].Null? && OptRelTime(f, key).None?
  }

  lemma {:induction false} TimesReported(f: map<string, Json>, keys: seq<(string, TimeKind)>, lineNo: nat)
    ensures Warn(InvalidTime, lineNo) in TimeDiagnostics(f, keys, lineNo) <==>
            exists i | 0 <= i < |keys| :: keys[i].1.Instant? && IsBadInstant(f, keys[i].0)
    ensures Warn(InvalidReltime, lineNo) in TimeDiagnostics(f, keys, lineNo) <==>
            exists i | 0 <= i < |keys| :: keys[i].1.Duration? && IsBadDuration(f, keys[i].0)
  {
    hide OptAbsTime, OptRelTime;
    if keys != [] {
      TimesReported(f, keys[1..], lineNo);
      assert forall i | 1 <= i < |keys| :: keys[i] == keys[1..][i - 1];
    }
  }

  lemma TableOfTimes(t: ObjectType, key: string)
    ensures (key, TimeKind.Instant) in TimeFields(t) <==> IsInstantField(t, key)
    ensures (key, Duration) in TimeFields(t) <==> IsDurationField(t, key)
  {
  }

  /** An unreadable instant is reported exactly if some instant field of the kind has one, and a duration likewise; a
      penalty time that is neither an integer nor a readable text counts as an unreadable duration if it is a text. */
  lemma BadTimesAreReported(t: ObjectType, f: map<string, Json>, lineNo: nat)
    ensures Warn(InvalidTime, lineNo) in DiagnosticsOf(t, f, lineNo) <==>
            exists key :: IsInstantField(t, key) && IsBadInstant(f, key)
    ensures Warn(InvalidReltime, lineNo) in DiagnosticsOf(t, f, lineNo) <==>
            (exists key :: IsDurationField(t, key) && IsBadDuration(f, key))
            || (t == ContestType && "penalty_time" in f && f["penalty_time"].Str? && IsBadDuration(f, "penalty_time"))
  {
    hide OptAbsTime, TimeFields, TimeDiagnostics, IsInstantField, IsDurationField;
    TimesReported(f, TimeFields(t), lineNo);
    if i :| 0 <= i < |TimeFields(t)| && TimeFields(t)[i].1.Instant? && IsBadInstant(f, TimeFields(t)[i].0) {
      TableOfTimes(t, TimeFields(t)[i].0);
    }
    if i :| 0 <= i < |TimeFields(t)| && TimeFields(t)[i].1.Duration? && IsBadDuration(f, TimeFields(t)[i].0) {
      TableOfTimes(t, TimeFields(t)[i].0);
    }
    if key :| IsInstantField(t, key) && IsBadInstant(f, key) {
      TableOfTimes(t, key);
      var i :| 0 <= i < |TimeFields(t)| && TimeFields(t)[i] == (key, TimeKind.Instant);
    }
    if key :| IsDurationField(t, key) && IsBadDuration(f, key) {
      TableOfTimes(t, key);
      var i :| 0 <= i < |TimeFields(t)| && TimeFields(t)[i] == (key, Duration);
    }
  }
}
