/** The streaming session and the stream driver: fields updated line by line, proved against SessionSpec. */
module Session {
  import opened Types
  import opened Store
  import opened LineParser
  import opened SessionSpec
  import Decode

  class StreamingParseSession {
    const options: Options
    const store: ContestStore
    var cursor: EventCursor
    var diagnostics: seq<Diagnostic>
    var profile: ApiVersion
    var resolved: ApiVersion
    var detected: bool
    var consecutiveErrors: nat
    var finished: bool

    function State(): SessionState
      reads this, store
    {
      SessionState(Core(store.Value(), profile, resolved, detected), cursor, diagnostics, consecutiveErrors, finished)
    }

    constructor (o: Options)
      ensures options == o && fresh(store)
      ensures State() == Fresh(o)
    {
      options := o;
      store := new ContestStore();
      cursor, diagnostics := EventCursor(0, 0, None, None, false), [];
      consecutiveErrors, finished := 0, false;
      if o.version != Auto {
        profile, resolved, detected := o.version, o.version, true;
      } else {
        profile, resolved, detected := V2023, V2023, false;
      }
    }

    method Report(d: Diagnostic)
      modifies this`diagnostics
      ensures diagnostics == AddDiagnostic(options, old(diagnostics), d)
    {
      if |diagnostics| < options.maxDiagnostics {
        diagnostics := diagnostics + [d];
      }
    }

    method ReportAll(ds: seq<Diagnostic>)
      modifies this`diagnostics
      ensures diagnostics == AddDiagnostics(options, old(diagnostics), ds)
    {
      for i := 0 to |ds|
        invariant diagnostics == AddDiagnostics(options, old(diagnostics), ds[..i])
      {
        assert ds[..i + 1][..i] == ds[..i];
        Report(ds[i]);
      }
      assert ds[..|ds|] == ds;
    }

    method SetDetectedVersion(version: ApiVersion)
      modifies this`profile, this`resolved, this`detected
      ensures profile == resolved == version && detected
    {
      detected, resolved, profile := true, version, version;
    }

    method DetectVersion(e: RawEvent, data: Json)
      modifies this`profile, this`resolved, this`detected
      ensures
        var hint := VersionHint(e.objectType, data);
        Core(store.Value(), profile, resolved, detected) ==
          if hint.Some? then Core(store.Value(), hint.value, hint.value, true) else old(State().core)
    {
      if !data.Obj? || data.fields == map[] {
        return;
      }
      if e.objectType == ContestType {
        if "penalty_time" in data.fields {
          if data.fields["penalty_time"].Int? {
            SetDetectedVersion(V2023);
          } else if data.fields["penalty_time"].Str? {
            SetDetectedVersion(V2026);
          }
        }
      } else if e.objectType == ClarificationsType {
        if "to_team_ids" in data.fields {
          SetDetectedVersion(V2026);
        } else if "to_team_id" in data.fields {
          SetDetectedVersion(V2023);
        }
      }
    }

    /** What the four apply helpers do: the effect on the store, the diagnostics, the end-of-updates mark. */
    twostate predicate Applied(e: RawEvent, data: Json, status: Status)
      reads this, store
    {
      var before, effect := old(State()), EffectOf(old(profile), e, data);
      && status == (if effect.Ok? then Good else effect.error)
      && State() == before.(
           core := Effected(before.core, e, data),
           diagnostics := AddDiagnostics(options, before.diagnostics,
                                         EffectDiagnostics(before.core.store.objects, old(profile), e, data)),
           cursor := if EndsUpdates(e, data, old(profile)) then before.cursor.(endOfUpdates := true) else before.cursor)
    }

    method ApplyDelete(e: RawEvent, data: Json) returns (status: Status)
      requires e.shape == Delete
      modifies this, store
      ensures Applied(e, data, status)
    {
      hide Perform, Find, AddDiagnostic;
      if e.id.None? {
        return ParseError;
      }
      var found := store.GetObject(e.objectType, e.id.value);
      if found.Err? {
        var d := Diagnostic(Warning, DeleteUnknownObject, e.lineNo, None, Some(e.typeStr), e.id);
        FewDiagnostics(options, diagnostics, d, d);
        Report(d);
      }
      status := store.ApplyDelete(e.objectType, e.id.value);
    }

    method ApplySingleObject(e: RawEvent, data: Json) returns (status: Status)
      requires e.shape == SingleObject
      modifies this, store
      ensures Applied(e, data, status)
    {
      hide Perform, AddDiagnostic, Decode.DecodeTyped;
      var decoded := Decode.DecodeObject(e.objectType, data, profile, e.lineNo);
      if decoded.Err? {
        return decoded.error;
      }
      ReportAll(decoded.value.diagnostics);
      assert Accepted(EffectOf(profile, e, data).value);
      status := store.ApplyUpsert(e.objectType, e.id.GetOr(decoded.value.obj.id), decoded.value.obj);
    }

    method ApplyCollectionReplace(e: RawEvent, data: Json) returns (status: Status)
      requires e.shape == CollectionReplace
      modifies this, store
      ensures Applied(e, data, status)
    {
      hide Perform, AddDiagnostic, Decode.DecodeCollection;
      var decoded := Decode.DecodeArray(e.objectType, data, profile, e.lineNo);
      if decoded.Err? {
        return decoded.error;
      }
      ReportAll(decoded.value.diagnostics);
      status := store.ApplyCollectionReplace(e.objectType, decoded.value.objects);
    }

    method ApplySingletonUpdate(e: RawEvent, data: Json) returns (status: Status)
      requires e.shape == SingletonUpdate
      modifies this, store
      ensures Applied(e, data, status)
    {
      hide Perform, AddDiagnostic, Decode.DiagnosticsOf, Decode.OptAbsTime, Decode.ClarificationOf;
      var decoded := Decode.DecodeObject(e.objectType, data, profile, e.lineNo);
      if decoded.Err? {
        return decoded.error;
      }
      ReportAll(decoded.value.diagnostics);
      if e.objectType == StateType {
        if decoded.value.obj.body.State? && decoded.value.obj.body.endOfUpdates.Some? {
          cursor := cursor.(endOfUpdates := true);
        }
      }
      assert Accepted(EffectOf(profile, e, data).value);
      status := store.ApplySingletonUpdate(e.objectType, decoded.value.obj);
    }

    method LogEvent(e: RawEvent, data: Json)
      modifies this, store
      ensures State() == old(State()).(core := DetectAndLog(options, old(State().core), e, data))
    {
      hide VersionHint;
      if options.version == Auto && !detected && e.shape != Delete {
        DetectVersion(e, data);
      }
      if options.keepEventLog {
        var logged := e;
        if logged.data.None? && !data.Null? {
          logged := logged.(data := Some(data));
        }
        store.RecordEvent(logged);
      }
    }

    method ApplyShape(e: RawEvent, data: Json) returns (status: Status)
      modifies this, store
      ensures Applied(e, data, status)
    {
      match e.shape
      case Delete => status := ApplyDelete(e, data);
      case SingleObject => status := ApplySingleObject(e, data);
      case CollectionReplace => status := ApplyCollectionReplace(e, data);
      case SingletonUpdate => status := ApplySingletonUpdate(e, data);
    }

    method AdvanceCursor(e: RawEvent)
      modifies this`cursor
      ensures cursor == Advance(old(cursor), e)
    {
      cursor := cursor.(lineNo := e.lineNo, eventCount := cursor.eventCount + 1);
      if e.token.Some? {
        cursor := cursor.(lastToken := e.token);
      }
      if e.id.Some? {
        cursor := cursor.(lastEventId := e.id);
      }
    }

    /** Cursor, unknown types, version detection, log, and then the effect, in this order. */
    method ApplyEvent(e: RawEvent, data: Json) returns (status: Status)
      modifies this, store
      ensures State() == SessionSpec.ApplyEvent(options, old(State()), e, data)
      ensures status == ApplyStatus(options, old(State().core), e, data)
    {
      hide EffectDiagnostics, DetectAndLog, Effected, EffectOf;
      AdvanceCursor(e);
      if e.objectType == UnknownType {
        var d := Diagnostic(Warning, UnknownEventType, e.lineNo, None, Some(e.typeStr), None);
        FewDiagnostics(options, diagnostics, d, d);
        Report(d);
        if options.unknownTypePolicy == Error {
          return ParseError;
        }
        return Good;
      }
      status := ApplyKnown(e, data);
    }

    method ApplyKnown(e: RawEvent, data: Json) returns (status: Status)
      requires e.objectType != UnknownType
      modifies this, store
      ensures
        var s := old(State());
        var version := Detect(options, s.core, e, data).profile;
        && State() == s.(core := CoreStep(options, s.core, e, data),
                         cursor := if EndsUpdates(e, data, version) then s.cursor.(endOfUpdates := true) else s.cursor,
                         diagnostics := AddDiagnostics(options, s.diagnostics,
                                                       EventDiagnostics(options, s.core, e, data)))
        && status == EventStatus(options, version, e, data)
    {
      LogEvent(e, data);
      status := ApplyShape(e, data);
    }

    method ConsumeLine(line: RawLine) returns (status: Status)
      modifies this, store
      ensures State() == Consume(options, old(State()), line)
      ensures status == ConsumeStatus(options, old(State()), line)
    {
      hide ParseLine, ConsumeEvent, ParseFailure, ApplyStatus;
      if finished {
        return FailedPrecondition;
      }
      cursor := cursor.(lineNo := cursor.lineNo + 1);
      ghost var next := State();
      assert next == old(State()).(cursor := cursor);
      var parsed := ParseNdjsonLine(line, cursor.lineNo, options);
      if parsed.Err? {
        status := FailParse(line, parsed.error);
        return;
      }
      if parsed.value.Keepalive? {
        consecutiveErrors := 0;
        return Good;
      }
      status := ConsumeParsed(line, parsed.value.event, parsed.value.data);
    }

    method ConsumeParsed(line: RawLine, e: RawEvent, data: Json) returns (status: Status)
      modifies this, store
      ensures State() == ConsumeEvent(options, old(State()), line, e, data)
      ensures status == EventLineStatus(options, old(consecutiveErrors),
                                        ApplyStatus(options, old(State().core), e, data))
    {
      var currentLine := cursor.lineNo;
      status := ApplyEvent(e, data);
      if status != Good {
        status := FailApply(line, currentLine, e, status);
        return;
      }
      consecutiveErrors := 0;
    }

    method FailParse(line: RawLine, e: LineError) returns (status: Status)
      modifies this
      ensures State() == ParseFailure(options, old(State()), line, e)
      ensures status == FailureStatus(options, old(consecutiveErrors) + 1)
    {
      consecutiveErrors := consecutiveErrors + 1;
      var d := Diagnostic(Severe, CodeOf(e), cursor.lineNo, None, None, None);
      if options.keepRawJson {
        d := d.(rawLine := Some(line.text));
      }
      var limit := Diagnostic(Severe, MaxConsecutiveErrorsExceeded, cursor.lineNo, None, None, None);
      FewDiagnostics(options, diagnostics, d, limit);
      Report(d);
      if consecutiveErrors >= options.maxConsecutiveErrors {
        Report(limit);
        return LimitExceeded;
      }
      if options.errorPolicy == FailFast {
        return ParseError;
      }
      return Good;
    }

    method FailApply(line: RawLine, currentLine: nat, e: RawEvent, applied: Status) returns (status: Status)
      modifies this
      ensures State() == ApplyFailure(options, old(State()), line, currentLine, e)
      ensures status == if old(consecutiveErrors) + 1 >= options.maxConsecutiveErrors then LimitExceeded
                        else if options.errorPolicy == FailFast then applied else Good
    {
      consecutiveErrors := consecutiveErrors + 1;
      var d := Diagnostic(Severe, InvalidObjectShape, currentLine, None, Some(e.typeStr), None);
      if e.id.Some? {
        d := d.(objectId := e.id);
      }
      if options.keepRawJson {
        d := d.(rawLine := Some(line.text));
      }
      Report(d);
      if consecutiveErrors >= options.maxConsecutiveErrors {
        return LimitExceeded;
      }
      if options.errorPolicy == FailFast {
        return applied;
      }
      return Good;
    }

    method Finish()
      modifies this`finished
      ensures State() == old(State()).(finished := true)
    {
      finished := true;
    }
  }
}
