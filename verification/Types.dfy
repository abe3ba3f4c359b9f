/** Values shared by every part of the model: options and results, API versions,
    object kinds, times, JSON documents, contest objects, events, diagnostics and
    parse options.

    Strings are byte strings: a `char` stands for one byte, ordered by its code. */
module Types {

  datatype Option<+T> = None | Some(value: T) {
    function GetOr(default: T): T {
      match this
      case Some(v) => v
      case None => default
    }
  }

  datatype Result<+T, +E> = Ok(value: T) | Err(error: E)

  const INT64_MAX: int := 0x7FFF_FFFF_FFFF_FFFF
  const INT64_MIN: int := -0x8000_0000_0000_0000
  const INT32_MAX: int := 0x7FFF_FFFF
  const INT32_MIN: int := -0x8000_0000
  const TWO_TO_THE_32: int := 0x1_0000_0000

  /** C++ integer division: the quotient is truncated toward zero. */
  function TruncDiv(a: int, b: nat): int
    requires b != 0
  {
    if 0 <= a then a / b else -((-a) / b)
  }

  /** C++ narrowing of an integer to 32 bits (two's complement). */
  function ToInt32(n: int): int {
    (n + 0x8000_0000) % TWO_TO_THE_32 - 0x8000_0000
  }

  /** The lexicographic order of byte strings that `std::string::operator<` uses. */
  predicate StrLess(a: string, b: string) {
    if b == "" then false
    else if a == "" then true
    else a[0] < b[0] || (a[0] == b[0] && StrLess(a[1..], b[1..]))
  }

  // ---- Versions, policies, kinds ----

  datatype ApiVersion = Auto | V2023 | V2026

  datatype ErrorPolicy = FailFast | Continue

  datatype UnknownTypePolicy = WarnAndIgnore | PreserveRaw | Error

  datatype ObjectType =
    | ContestType
    | JudgementTypesType
    | LanguagesType
    | ProblemsType
    | GroupsType
    | OrganizationsType
    | TeamsType
    | PersonsType
    | AccountsType
    | StateType
    | SubmissionsType
    | JudgementsType
    | RunsType
    | ClarificationsType
    | AwardsType
    | CommentaryType
    | UnknownType

  function ObjectTypeFromString(s: string): ObjectType {
    match s
    case "contest" => ContestType
    case "judgement-types" => JudgementTypesType
    case "languages" => LanguagesType
    case "problems" => ProblemsType
    case "groups" => GroupsType
    case "organizations" => OrganizationsType
    case "teams" => TeamsType
    case "persons" => PersonsType
    case "accounts" => AccountsType
    case "state" => StateType
    case "submissions" => SubmissionsType
    case "judgements" => JudgementsType
    case "runs" => RunsType
    case "clarifications" => ClarificationsType
    case "awards" => AwardsType
    case "commentary" => CommentaryType
    case _ => UnknownType
  }

  function ObjectTypeToString(t: ObjectType): string {
    match t
    case ContestType => "contest"
    case JudgementTypesType => "judgement-types"
    case LanguagesType => "languages"
    case ProblemsType => "problems"
    case GroupsType => "groups"
    case OrganizationsType => "organizations"
    case TeamsType => "teams"
    case PersonsType => "persons"
    case AccountsType => "accounts"
    case StateType => "state"
    case SubmissionsType => "submissions"
    case JudgementsType => "judgements"
    case RunsType => "runs"
    case ClarificationsType => "clarifications"
    case AwardsType => "awards"
    case CommentaryType => "commentary"
    case UnknownType => "unknown"
  }

  predicate IsSingleton(t: ObjectType) {
    t == ContestType || t == StateType
  }

  // ---- Times ----

  /** An instant in milliseconds since the Unix epoch, with the offset in minutes it was written with. */
  datatype AbsoluteTime = AbsoluteTime(epochMs: int, tzOffsetMinutes: int)

  // ---- JSON ----

  /** A parsed JSON value. Object keys are unique, as in the JSON library the program uses. */
  datatype Json =
    | Null
    | Bool(b: bool)
    | Int(n: int)
    | Real(r: real)
    | Str(s: string)
    | Arr(elems: seq<Json>)
    | Obj(fields: map<string, Json>)

  /** A string member of a JSON object; anything else counts as absent. */
  function OptString(f: map<string, Json>, key: string): Option<string> {
    if key in f && f[key].Str? then Some(f[key].s) else None
  }

  // ---- Contest objects ----

  /** The decoded fields the rest of the model reads, per kind of object. */
  datatype Body =
    | Contest(name: Option<string>, formalName: Option<string>, startTime: Option<AbsoluteTime>,
              durationMs: Option<int>, penaltyTimeMs: Option<int>)
    | State(started: Option<AbsoluteTime>, ended: Option<AbsoluteTime>, frozen: Option<AbsoluteTime>,
            thawed: Option<AbsoluteTime>, finalized: Option<AbsoluteTime>, endOfUpdates: Option<AbsoluteTime>)
    | JudgementType(penalty: Option<bool>, solved: Option<bool>)
    | Problem(ordinal: Option<int>, labelText: Option<string>, problemName: Option<string>, rgb: Option<string>)
    | Organization(organizationName: Option<string>)
    | Team(teamName: Option<string>, displayName: Option<string>, organizationId: Option<string>,
           hidden: Option<bool>)
    | Submission(problemId: Option<string>, teamId: Option<string>, contestTimeMs: Option<int>)
    | Judgement(submissionId: Option<string>, judgementTypeId: Option<string>, endTime: Option<AbsoluteTime>)
    | Clarification(toTeamIds: seq<string>, toGroupIds: seq<string>, unknownFields: map<string, Json>)
    | Award(citation: Option<string>, teamIds: seq<string>)
    | Plain

  /** `source` is the JSON object the value was decoded from; it stands for the fields that are only copied. */
  datatype ContestObject = ContestObject(id: string, body: Body, source: map<string, Json>)

  type ContestRecord = o: ContestObject | o.body.Contest?
    witness ContestObject("", Contest(None, None, None, None, None), map[])

  type StateRecord = o: ContestObject | o.body.State?
    witness ContestObject("", State(None, None, None, None, None, None), map[])

  /** The kind of object a body belongs to; bodies without modelled fields have no kind of their own. */
  function KindOf(body: Body): ObjectType {
    match body
    case Contest(_, _, _, _, _) => ContestType
    case State(_, _, _, _, _, _) => StateType
    case JudgementType(_, _) => JudgementTypesType
    case Problem(_, _, _, _) => ProblemsType
    case Organization(_) => OrganizationsType
    case Team(_, _, _, _) => TeamsType
    case Submission(_, _, _) => SubmissionsType
    case Judgement(_, _, _) => JudgementsType
    case Clarification(_, _, _) => ClarificationsType
    case Award(_, _) => AwardsType
    case Plain => UnknownType
  }

  // ---- Events ----

  datatype EventShape = SingleObject | Delete | CollectionReplace | SingletonUpdate

  /** An event before decoding. `data` is what the logged JSON text parses to; None is the empty text. */
  datatype RawEvent = RawEvent(
    typeStr: string,
    objectType: ObjectType,
    id: Option<string>,
    shape: EventShape,
    token: Option<string>,
    lineNo: nat,
    data: Option<Json>,
    rawLine: Option<string>)

  datatype EventCursor = EventCursor(
    lineNo: nat,
    eventCount: nat,
    lastToken: Option<string>,
    lastEventId: Option<string>,
    endOfUpdates: bool)

  // ---- Diagnostics and statuses ----

  datatype Severity = Warning | Severe

  datatype DiagnosticCode =
    | MalformedJson
    | LineTooLong
    | MissingType
    | InvalidTypeField
    | MissingData
    | InvalidIdType
    | UnknownEventType
    | InvalidObjectShape
    | InvalidRequiredField
    | InvalidTime
    | InvalidReltime
    | DeleteUnknownObject
    | MaxConsecutiveErrorsExceeded
    | InvalidTokenType
    | NonObjectRoot

  datatype Diagnostic = Diagnostic(
    severity: Severity,
    code: DiagnosticCode,
    lineNo: nat,
    rawLine: Option<string>,
    objectType: Option<string>,
    objectId: Option<string>)

  /** A status without its message text. */
  datatype Status = Good | NotFound | InvalidArgument | FailedPrecondition | Internal | ParseError | LimitExceeded

  // ---- Options ----

  /** The parse options that influence the modelled code. */
  datatype Options = Options(
    version: ApiVersion,
    errorPolicy: ErrorPolicy,
    unknownTypePolicy: UnknownTypePolicy,
    keepEventLog: bool,
    keepRawJson: bool,
    maxLineBytes: nat,
    maxDiagnostics: nat,
    maxConsecutiveErrors: nat)

  // ---- Facts about string order ----

  lemma {:induction false} StrLessTransitive(a: string, b: string, c: string)
    requires StrLess(a, b) && StrLess(b, c)
    ensures StrLess(a, c)
  {
    if a != "" && a[0] == b[0] == c[0] {
      StrLessTransitive(a[1..], b[1..], c[1..]);
    }
  }

  lemma {:induction false} StrLessIrreflexive(a: string)
    ensures !StrLess(a, a)
  {
    if a != "" {
      StrLessIrreflexive(a[1..]);
    }
  }

  lemma {:induction false} StrLessTotal(a: string, b: string)
    ensures a == b || StrLess(a, b) || StrLess(b, a)
  {
    if a != "" && b != "" && a[0] == b[0] {
      StrLessTotal(a[1..], b[1..]);
      assert a == [a[0]] + a[1..] && b == [b[0]] + b[1..];
    }
  }
}
