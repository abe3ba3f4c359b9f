/** What a session does with one line, as a function of its state. */
module SessionSpec {
  import opened Types
  import opened Store
  import opened LineParser
  import Decode

  /** The part of a session that events act on: the store and the decoder's version. */
  datatype Core = Core(store: StoreValue, profile: ApiVersion, resolved: ApiVersion, detected: bool)

  datatype SessionState = SessionState(
    core: Core,
    cursor: EventCursor,
    diagnostics: seq<Diagnostic>,
    consecutiveErrors: nat,
    finished: bool)

  /** A session created with `o`: an explicit version is final, otherwise 2023-06 until detected. */
  function FreshCore(o: Options): Core {
    var version := if o.version == Auto then V2023 else o.version;
    Core(StoreValue(NO_OBJECTS, [], 0), version, version, o.version != Auto)
  }

  function Fresh(o: Options): SessionState {
    SessionState(FreshCore(o), EventCursor(0, 0, None, None, false), [], 0, false)
  }

  // ---- Version detection ----

  /** The version that the data of an event gives away, if any. */
  function VersionHint(t: ObjectType, data: Json): Option<ApiVersion> {
    if !data.Obj? then None
    else if t == ContestType then
      if "penalty_time" !in data.fields then None
      else if data.fields["penalty_time"].Int? then Some(V2023)
      else if data.fields["penalty_time"].Str? then Some(V2026)
      else None
    else if t == ClarificationsType then
      if "to_team_ids" in data.fields then Some(V2026)
      else if "to_team_id" in data.fields then Some(V2023)
      else None
    else None
  }

  function Detect(o: Options, c: Core, e: RawEvent, data: Json): Core {
    if o.version == Auto && !c.detected && e.shape != Delete && VersionHint(e.objectType, data).Some? then
      var version := VersionHint(e.objectType, data).value;
      c.(profile := version, resolved := version, detected := true)
    else c
  }

  // ---- Effects of events ----

  /** What an event of a known type does under a version, or why it fails. */
  function EffectOf(version: ApiVersion, e: RawEvent, data: Json): (r: Result<Effect, Status>)
    ensures r.Ok? ==> Accepted(r.value) && r.value != Nothing
  {
    match e.shape
    case Delete =>
      if e.id.None? then Err(ParseError) else Ok(Erase(e.objectType, e.id.value))
    case SingleObject =>
      var d := Decode.DecodeObject(e.objectType, data, version, e.lineNo);
      if d.Err? then Err(d.error)
      else Decode.DecodedKind(e.objectType, data.fields, version);
           Ok(Put(e.objectType, e.id.GetOr(d.value.obj.id), d.value.obj))
    case CollectionReplace =>
      var d := Decode.DecodeCollection(e.objectType, data, version, e.lineNo);
      if d.Err? then Err(d.error) else Ok(Replace(e.objectType, d.value.objects))
    case SingletonUpdate =>
      var d := Decode.DecodeObject(e.objectType, data, version, e.lineNo);
      if d.Err? then Err(d.error)
      else Decode.DecodedKind(e.objectType, data.fields, version);
           Ok(Put(e.objectType, d.value.obj.id, d.value.obj))
  }

  /** The diagnostics of an event that is applied. */
  function EffectDiagnostics(o: Objects, version: ApiVersion, e: RawEvent, data: Json): seq<Diagnostic> {
    match e.shape
    case Delete =>
      if e.id.Some? && Find(o, e.objectType, e.id.value).None?
      then [Diagnostic(Warning, DeleteUnknownObject, e.lineNo, None, Some(e.typeStr), e.id)] else []
    case CollectionReplace =>
      var d := Decode.DecodeCollection(e.objectType, data, version, e.lineNo);
      if d.Ok? then d.value.diagnostics else []
    case _ =>
      var d := Decode.DecodeObject(e.objectType, data, version, e.lineNo);
      if d.Ok? then d.value.diagnostics else []
  }

  /** The event as it enters the log, with its data filled in. */
  function Logged(e: RawEvent, data: Json): RawEvent {
    if e.data.None? && !data.Null? then e.(data := Some(data)) else e
  }

  /** One event on the core: detection, log entry, and, unless decoding fails, its effect. */
  function CoreStep(o: Options, c: Core, e: RawEvent, data: Json): Core {
    if e.objectType == UnknownType then c
    else Effected(DetectAndLog(o, c, e, data), e, data)
  }

  function DetectAndLog(o: Options, c: Core, e: RawEvent, data: Json): Core {
    var d := Detect(o, c, e, data);
    if o.keepEventLog then d.(store := d.store.(eventLog := d.store.eventLog + [Logged(e, data)])) else d
  }

  /** The effect of an event of known type under the version in force; none if decoding fails. */
  function Effected(c: Core, e: RawEvent, data: Json): Core {
    var effect := EffectOf(c.profile, e, data);
    if effect.Ok? then c.(store := Counted(c.store, effect.value)) else c
  }

  // ---- Events on a session ----

  function AddDiagnostic(o: Options, diagnostics: seq<Diagnostic>, d: Diagnostic): seq<Diagnostic> {
    if |diagnostics| < o.maxDiagnostics then diagnostics + [d] else diagnostics
  }

  function AddDiagnostics(o: Options, diagnostics: seq<Diagnostic>, more: seq<Diagnostic>): seq<Diagnostic> {
    if more == [] then diagnostics
    else AddDiagnostic(o, AddDiagnostics(o, diagnostics, more[..|more| - 1]), more[|more| - 1])
  }

  lemma FewDiagnostics(o: Options, ds: seq<Diagnostic>, a: Diagnostic, b: Diagnostic)
    ensures AddDiagnostics(o, ds, [a]) == AddDiagnostic(o, ds, a)
    ensures AddDiagnostics(o, ds, [a, b]) == AddDiagnostic(o, AddDiagnostic(o, ds, a), b)
  {
    assert [a][..0] == [] && [a, b][..1] == [a];
  }

  function Advance(c: EventCursor, e: RawEvent): EventCursor {
    EventCursor(e.lineNo, c.eventCount + 1, if e.token.Some? then e.token else c.lastToken,
                if e.id.Some? then e.id else c.lastEventId, c.endOfUpdates)
  }

  /** A state object that announces the end of updates, sent without an id. */
  predicate EndsUpdates(e: RawEvent, data: Json, version: ApiVersion) {
    && e.shape == SingletonUpdate && e.objectType == StateType && data.Obj?
    && Decode.OptAbsTime(data.fields, "end_of_updates").Some?
  }

  function EventStatus(o: Options, version: ApiVersion, e: RawEvent, data: Json): Status {
    if e.objectType == UnknownType then (if o.unknownTypePolicy == Error then ParseError else Good)
    else if EffectOf(version, e, data).Ok? then Good
    else EffectOf(version, e, data).error
  }

  function EventDiagnostics(o: Options, c: Core, e: RawEvent, data: Json): seq<Diagnostic> {
    if e.objectType == UnknownType
    then [Diagnostic(Warning, UnknownEventType, e.lineNo, None, Some(e.typeStr), None)]
    else EffectDiagnostics(c.store.objects, Detect(o, c, e, data).profile, e, data)
  }

  function ApplyEvent(o: Options, s: SessionState, e: RawEvent, data: Json): SessionState {
    var version := Detect(o, s.core, e, data).profile;
    var cursor := Advance(s.cursor, e);
    s.(core := CoreStep(o, s.core, e, data),
       cursor := if EndsUpdates(e, data, version) then cursor.(endOfUpdates := true) else cursor,
       diagnostics := AddDiagnostics(o, s.diagnostics, EventDiagnostics(o, s.core, e, data)))
  }

  function ApplyStatus(o: Options, c: Core, e: RawEvent, data: Json): Status {
    EventStatus(o, Detect(o, c, e, data).profile, e, data)
  }

  // ---- Lines ----

  function RawOf(o: Options, line: RawLine): Option<string> {
    if o.keepRawJson then Some(line.text) else None
  }

  /** The status handed to the caller after a failing line. */
  function FailureStatus(o: Options, errors: nat): Status {
    if errors >= o.maxConsecutiveErrors then LimitExceeded
    else if o.errorPolicy == FailFast then ParseError
    else Good
  }

  function ParseFailure(o: Options, s: SessionState, line: RawLine, e: LineError): SessionState {
    var errors := s.consecutiveErrors + 1;
    var first := Diagnostic(Severe, CodeOf(e), s.cursor.lineNo, RawOf(o, line), None, None);
    var limit := Diagnostic(Severe, MaxConsecutiveErrorsExceeded, s.cursor.lineNo, None, None, None);
    s.(consecutiveErrors := errors,
       diagnostics := AddDiagnostics(o, s.diagnostics,
                                     if errors >= o.maxConsecutiveErrors then [first, limit] else [first]))
  }

  function ApplyFailure(o: Options, s: SessionState, line: RawLine, lineNo: nat, e: RawEvent): SessionState {
    s.(consecutiveErrors := s.consecutiveErrors + 1,
       diagnostics := AddDiagnostic(o, s.diagnostics,
         Diagnostic(Severe, InvalidObjectShape, lineNo, RawOf(o, line), Some(e.typeStr), e.id)))
  }

  /** The status handed to the caller when applying an event ended with `status`. */
  function EventLineStatus(o: Options, errors: nat, status: Status): Status {
    if status == Good then Good
    else if errors + 1 >= o.maxConsecutiveErrors then LimitExceeded
    else if o.errorPolicy == FailFast then status
    else Good
  }

  function ConsumeEvent(o: Options, s: SessionState, line: RawLine, e: RawEvent, data: Json): SessionState {
    var applied := ApplyEvent(o, s, e, data);
    if ApplyStatus(o, s.core, e, data) == Good then applied.(consecutiveErrors := 0)
    else ApplyFailure(o, applied, line, s.cursor.lineNo, e)
  }

  /** A line, given what the line parser makes of it. */
  function ConsumeParse(o: Options, s: SessionState, line: RawLine, p: Result<LineParse, LineError>): SessionState {
    match p
    case Err(e) => ParseFailure(o, s, line, e)
    case Ok(Keepalive) => s.(consecutiveErrors := 0)
    case Ok(Parsed(e, data)) => ConsumeEvent(o, s, line, e, data)
  }

  function Consume(o: Options, s: SessionState, line: RawLine): SessionState {
    if s.finished then s
    else
      var next := s.(cursor := s.cursor.(lineNo := s.cursor.lineNo + 1));
      ConsumeParse(o, next, line, ParseLine(line, next.cursor.lineNo, o))
  }

  function ConsumeStatus(o: Options, s: SessionState, line: RawLine): Status {
    if s.finished then FailedPrecondition
    else
      match ParseLine(line, s.cursor.lineNo + 1, o)
      case Err(_) => FailureStatus(o, s.consecutiveErrors + 1)
      case Ok(Keepalive) => Good
      case Ok(Parsed(e, data)) => EventLineStatus(o, s.consecutiveErrors, ApplyStatus(o, s.core, e, data))
  }

  // ---- Runs ----

  /** Feeding lines one by one, never mind the statuses. */
  function RunFrom(o: Options, s: SessionState, lines: seq<RawLine>): SessionState {
    if lines == [] then s
    else Consume(o, RunFrom(o, s, lines[..|lines| - 1]), lines[|lines| - 1])
  }

  function Run(o: Options, lines: seq<RawLine>): SessionState {
    RunFrom(o, Fresh(o), lines)
  }

  /** Applying logged events one by one, with their logged data. */
  function Replay(o: Options, s: SessionState, log: seq<RawEvent>): SessionState {
    if log == [] then s
    else
      var last := log[|log| - 1];
      ApplyEvent(o, Replay(o, s, log[..|log| - 1]), last, last.data.GetOr(Null))
  }
}
