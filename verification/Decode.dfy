/** Version profiles: decoding JSON values into contest objects.

    Fields the rest of the model does not read are kept together as the source object. */
module Decode {
  import opened Types
  import RelTime
  import AbsTime

  type Fields = map<string, Json>

  // ---- Field helpers ----

  function OptBool(f: Fields, key: string): Option<bool> {
    if key in f && f[key].Bool? then Some(f[key].b) else None
  }

  function OptInt(f: Fields, key: string): Option<int> {
    if key in f && f[key].Int? then Some(ToInt32(f[key].n)) else None
  }

  /** The strings among the elements; other elements are dropped. */
  function Strings(elems: seq<Json>): seq<string> {
    if elems == [] then []
    else
      var last := |elems| - 1;
      Strings(elems[..last]) + if elems[last].Str? then [elems[last].s] else []
  }

  function StringArray(f: Fields, key: string): seq<string> {
    if key in f && f[key].Arr? then Strings(f[key].elems) else []
  }

  function OptAbsTime(f: Fields, key: string): Option<AbsoluteTime> {
    if key in f && f[key].Str? then AbsTime.ParseAbs(f[key].s) else None
  }

  function OptRelTime(f: Fields, key: string): Option<int> {
    if key in f && f[key].Str? then RelTime.ParseRel(f[key].s) else None
  }

  // ---- Diagnostics of time fields ----

  datatype TimeKind = Instant | Duration

  /** The time fields of each kind of object, in the order they are decoded. */
  function TimeFields(t: ObjectType): seq<(string, TimeKind)> {
    match t
    case ContestType => [("start_time", Instant), ("end_time", Instant), ("duration", Duration),
                         ("scoreboard_freeze_duration", Duration), ("scoreboard_thaw_time", Instant)]
    case StateType => [("started", Instant), ("ended", Instant), ("frozen", Instant), ("thawed", Instant),
                       ("finalized", Instant), ("end_of_updates", Instant)]
    case JudgementsType => [("start_time", Instant), ("start_contest_time", Duration), ("end_time", Instant),
                            ("end_contest_time", Duration)]
    case SubmissionsType => [("time", Instant), ("contest_time", Duration)]
    case RunsType => [("time", Instant), ("contest_time", Duration)]
    case ClarificationsType => [("time", Instant), ("contest_time", Duration)]
    case CommentaryType => [("time", Instant), ("contest_time", Duration)]
    case _ => []
  }

  function Warn(code: DiagnosticCode, lineNo: nat): Diagnostic {
    Diagnostic(Warning, code, lineNo, None, None, None)
  }

  /** A present, non-null field that does not give a time is reported. */
  function TimeDiagnostic(f: Fields, key: string, kind: TimeKind, lineNo: nat): seq<Diagnostic> {
    if key !in f || f[key].Null? then []
    else match kind
      case Instant => if OptAbsTime(f, key).Some? then [] else [Warn(InvalidTime, lineNo)]
      case Duration => if OptRelTime(f, key).Some? then [] else [Warn(InvalidReltime, lineNo)]
  }

  function TimeDiagnostics(f: Fields, keys: seq<(string, TimeKind)>, lineNo: nat): seq<Diagnostic> {
    if keys == [] then []
    else TimeDiagnostic(f, keys[0].0, keys[0].1, lineNo) + TimeDiagnostics(f, keys[1..], lineNo)
  }

  // ---- Bodies ----

  /** Integer minutes (2023-06) or a RELTIME string (2026-01), whatever the version of the profile. */
  function PenaltyTime(f: Fields): Option<int> {
    if "penalty_time" in f && f["penalty_time"].Int? then Some(RelTime.FromMinutes(ToInt32(f["penalty_time"].n)))
    else OptRelTime(f, "penalty_time")
  }

  function PenaltyDiagnostics(f: Fields, lineNo: nat): seq<Diagnostic> {
    if "penalty_time" !in f || f["penalty_time"].Null? || PenaltyTime(f).Some? then []
    else if f["penalty_time"].Str? then [Warn(InvalidReltime, lineNo)]
    else [Warn(InvalidRequiredField, lineNo)]
  }

  /** The keys a version expects in a clarification; any other key makes an unknown field. */
  function ClarificationKeys(version: ApiVersion): set<string> {
    {"id", "from_team_id", "problem_id", "reply_to_id", "time", "contest_time", "text"} +
    if version == V2023 then {"to_team_id"} else {"to_team_ids", "to_group_ids"}
  }

  /** Recipients and unknown fields of a clarification: each version prefers its own field for the recipients and falls
      back to the other's, which then also stays among the unknown fields. */
  function ClarificationOf(f: Fields, version: ApiVersion): Body {
    var one := OptString(f, "to_team_id");
    var many := StringArray(f, "to_team_ids");
    var unknown := f - ClarificationKeys(version);
    if version == V2023 then
      Clarification((if one.Some? then [one.value] else []) + many, [], unknown)
    else
      Clarification(if one.Some? && many == [] then [one.value] else many, StringArray(f, "to_group_ids"), unknown)
  }

  function BodyOf(t: ObjectType, f: Fields, version: ApiVersion): Body {
    match t
    case ContestType => Contest(OptString(f, "name"), OptString(f, "formal_name"), OptAbsTime(f, "start_time"),
                                OptRelTime(f, "duration"), PenaltyTime(f))
    case StateType => State(OptAbsTime(f, "started"), OptAbsTime(f, "ended"), OptAbsTime(f, "frozen"),
                            OptAbsTime(f, "thawed"), OptAbsTime(f, "finalized"), OptAbsTime(f, "end_of_updates"))
    case JudgementTypesType => JudgementType(OptBool(f, "penalty"), OptBool(f, "solved"))
    case ProblemsType => Problem(OptInt(f, "ordinal"), OptString(f, "label"), OptString(f, "name"), OptString(f, "rgb"))
    case OrganizationsType => Organization(OptString(f, "name"))
    case TeamsType => Team(OptString(f, "name"), OptString(f, "display_name"), OptString(f, "organization_id"),
                           OptBool(f, "hidden"))
    case SubmissionsType => Submission(OptString(f, "problem_id"), OptString(f, "team_id"),
                                       OptRelTime(f, "contest_time"))
    case JudgementsType => Judgement(OptString(f, "submission_id"), OptString(f, "judgement_type_id"),
                                     OptAbsTime(f, "end_time"))
    case ClarificationsType => ClarificationOf(f, version)
    case AwardsType => Award(OptString(f, "citation"), StringArray(f, "team_ids"))
    case _ => Plain
  }

  /** The state object carries no id. */
  function IdOf(t: ObjectType, f: Fields): string {
    if t == StateType then "" else OptString(f, "id").GetOr("")
  }

  function ObjectOf(t: ObjectType, f: Fields, version: ApiVersion): ContestObject {
    ContestObject(IdOf(t, f), BodyOf(t, f, version), f)
  }

  // ---- Objects and collections ----

  datatype Decoded = Decoded(obj: ContestObject, diagnostics: seq<Diagnostic>)

  datatype DecodedCollection = DecodedCollection(objects: seq<ContestObject>, diagnostics: seq<Diagnostic>)

  function DiagnosticsOf(t: ObjectType, f: Fields, lineNo: nat): seq<Diagnostic> {
    TimeDiagnostics(f, TimeFields(t), lineNo) + if t == ContestType then PenaltyDiagnostics(f, lineNo) else []
  }

  function DecodeTyped(t: ObjectType, f: Fields, version: ApiVersion, lineNo: nat): Result<Decoded, Status> {
    if t == UnknownType then Err(ParseError)
    else Ok(Decoded(ObjectOf(t, f, version), DiagnosticsOf(t, f, lineNo)))
  }

  function DecodeObject(t: ObjectType, data: Json, version: ApiVersion, lineNo: nat): Result<Decoded, Status> {
    if !data.Obj? then Err(ParseError) else DecodeTyped(t, data.fields, version, lineNo)
  }

  /** An element a collection accepts: an object with a string id. */
  predicate Decodable(t: ObjectType, elem: Json) {
    t != UnknownType && elem.Obj? && "id" in elem.fields && elem.fields["id"].Str?
  }

  predicate AllDecodable(t: ObjectType, elems: seq<Json>) {
    forall i | 0 <= i < |elems| :: Decodable(t, elems[i])
  }

  function AllDiagnostics(t: ObjectType, elems: seq<Json>, lineNo: nat): seq<Diagnostic>
    requires AllDecodable(t, elems)
  {
    if elems == [] then []
    else AllDiagnostics(t, elems[..|elems| - 1], lineNo) + DiagnosticsOf(t, elems[|elems| - 1].fields, lineNo)
  }

  function ObjectsOf(t: ObjectType, elems: seq<Json>, version: ApiVersion): seq<ContestObject>
    requires AllDecodable(t, elems)
  {
    if elems == [] then []
    else ObjectsOf(t, elems[..|elems| - 1], version) + [ObjectOf(t, elems[|elems| - 1].fields, version)]
  }

  /** All or nothing: one element that does not decode fails the whole array. */
  function DecodeCollection(t: ObjectType, data: Json, version: ApiVersion, lineNo: nat)
    : Result<DecodedCollection, Status>
  {
    if data.Arr? && AllDecodable(t, data.elems)
    then Ok(DecodedCollection(ObjectsOf(t, data.elems, version), AllDiagnostics(t, data.elems, lineNo)))
    else Err(ParseError)
  }

  ghost predicate DecodedSoFar(t: ObjectType, elems: seq<Json>, version: ApiVersion, lineNo: nat,
                               objects: seq<ContestObject>, diagnostics: seq<Diagnostic>)
  {
    && AllDecodable(t, elems)
    && objects == ObjectsOf(t, elems, version)
    && diagnostics == AllDiagnostics(t, elems, lineNo)
  }

  /** One more decodable element at the end of `elems`. */
  lemma DecodedStep(t: ObjectType, elems: seq<Json>, version: ApiVersion, lineNo: nat,
                    objects: seq<ContestObject>, diagnostics: seq<Diagnostic>)
    requires elems != [] && Decodable(t, elems[|elems| - 1])
    requires DecodedSoFar(t, elems[..|elems| - 1], version, lineNo, objects, diagnostics)
    ensures DecodedSoFar(t, elems, version, lineNo, objects + [ObjectOf(t, elems[|elems| - 1].fields, version)],
                         diagnostics + DiagnosticsOf(t, elems[|elems| - 1].fields, lineNo))
  {
    hide ObjectOf, DiagnosticsOf;
    var last := |elems| - 1;
    forall i | 0 <= i < |elems|
      ensures Decodable(t, elems[i])
    {
      assert i == last || elems[..last][i] == elems[i];
    }
  }

  /** One turn of the loop: the checks on an element in the order of the profile, then the two pushes. */
  method DecodeElement(t: ObjectType, elem: Json, version: ApiVersion, lineNo: nat, ghost upToElem: seq<Json>,
                       objects: seq<ContestObject>, diagnostics: seq<Diagnostic>)
    returns (ok: bool, objects': seq<ContestObject>, diagnostics': seq<Diagnostic>)
    requires upToElem != [] && upToElem[|upToElem| - 1] == elem
    requires DecodedSoFar(t, upToElem[..|upToElem| - 1], version, lineNo, objects, diagnostics)
    ensures ok <==> Decodable(t, elem)
    ensures ok ==> DecodedSoFar(t, upToElem, version, lineNo, objects', diagnostics')
  {
    hide DecodedSoFar, ObjectOf, DiagnosticsOf;
    ok, objects', diagnostics' := false, objects, diagnostics;
    if !elem.Obj? {
      return;
    }
    if "id" !in elem.fields || !elem.fields["id"].Str? {
      return;
    }
    var decoded := DecodeTyped(t, elem.fields, version, lineNo);
    if decoded.Err? {
      return;
    }
    DecodedStep(t, upToElem, version, lineNo, objects, diagnostics);
    diagnostics' := diagnostics + decoded.value.diagnostics;
    objects' := objects + [decoded.value.obj];
    ok := true;
  }

  lemma NothingDecoded(t: ObjectType, data: Json, version: ApiVersion, lineNo: nat)
    ensures !data.Arr? ==> DecodeCollection(t, data, version, lineNo) == Err(ParseError)
    ensures DecodedSoFar(t, [], version, lineNo, [], [])
  {
  }

  lemma AllDecoded(t: ObjectType, data: Json, version: ApiVersion, lineNo: nat,
                   objects: seq<ContestObject>, diagnostics: seq<Diagnostic>)
    requires data.Arr? && DecodedSoFar(t, data.elems, version, lineNo, objects, diagnostics)
    ensures DecodeCollection(t, data, version, lineNo) == Ok(DecodedCollection(objects, diagnostics))
  {
  }

  lemma UndecodableFails(t: ObjectType, data: Json, i: nat, version: ApiVersion, lineNo: nat)
    requires data.Arr? && i < |data.elems| && !Decodable(t, data.elems[i])
    ensures DecodeCollection(t, data, version, lineNo) == Err(ParseError)
  {
  }

  /** The loop of the profile: decodes element by element and gives up at the first failure. */
  method DecodeArray(t: ObjectType, data: Json, version: ApiVersion, lineNo: nat)
    returns (r: Result<DecodedCollection, Status>)
    ensures r == DecodeCollection(t, data, version, lineNo)
  {
    hide Decodable, DecodedSoFar, DecodeCollection;
    NothingDecoded(t, data, version, lineNo);
    if !data.Arr? {
      return Err(ParseError);
    }
    var objects, diagnostics := [], [];
    for i := 0 to |data.elems|
      invariant DecodedSoFar(t, data.elems[..i], version, lineNo, objects, diagnostics)
    {
      assert data.elems[..i + 1][..i] == data.elems[..i];
      var ok;
      ok, objects, diagnostics :=
        DecodeElement(t, data.elems[i], version, lineNo, data.elems[..i + 1], objects, diagnostics);
      if !ok {
        UndecodableFails(t, data, i, version, lineNo);
        return Err(ParseError);
      }
    }
    assert data.elems[..|data.elems|] == data.elems;
    AllDecoded(t, data, version, lineNo, objects, diagnostics);
    return Ok(DecodedCollection(objects, diagnostics));
  }

  // ---- Where the version matters ----

  /** A clarification that both versions read alike: it has no key that only one of them expects. */
  predicate VersionNeutral(f: Fields) {
    "to_team_id" !in f && "to_team_ids" !in f && "to_group_ids" !in f
  }

  /** The two versions decode the same object from the same data, except for exactly those clarifications that have a
      recipient key: what is a recipient field to one version is an unknown field to the other. */
  lemma VersionMatters(t: ObjectType, f: Fields)
    ensures ObjectOf(t, f, V2023) == ObjectOf(t, f, V2026) <==> (t == ClarificationsType ==> VersionNeutral(f))
  {
    if t == ClarificationsType {
      UnknownFieldsDiffer(f);
      if VersionNeutral(f) {
        assert ClarificationOf(f, V2023).toTeamIds == [] == ClarificationOf(f, V2026).toTeamIds;
      }
    }
  }

  lemma UnknownFieldsDiffer(f: Fields)
    ensures f - ClarificationKeys(V2023) == f - ClarificationKeys(V2026) <==> VersionNeutral(f)
  {
    var a, b := f - ClarificationKeys(V2023), f - ClarificationKeys(V2026);
    assert "to_team_id" in f ==> "to_team_id" in b && "to_team_id" !in a;
    assert "to_team_ids" in f ==> "to_team_ids" in a && "to_team_ids" !in b;
    assert "to_group_ids" in f ==> "to_group_ids" in a && "to_group_ids" !in b;
    if VersionNeutral(f) {
      assert a.Keys == b.Keys;
    }
  }

  /** A decoded object of a modelled kind has the body of that kind. */
  lemma DecodedKind(t: ObjectType, f: Fields, version: ApiVersion)
    ensures KindOf(BodyOf(t, f, version)) == t || BodyOf(t, f, version) == Plain
    ensures t == ContestType ==> BodyOf(t, f, version).Contest?
    ensures t == StateType ==> BodyOf(t, f, version).State?
  {
  }
}
