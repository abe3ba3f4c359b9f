/** The REST front end: a second way into the same store, from fetched endpoint bodies instead of feed lines. */
module Rest {
  import opened Types
  import opened Store
  import opened LineParser
  import opened SessionSpec
  import opened EventSourcing
  import Decode

  /** What fetching an endpoint gave: an error, or a JSON body (null for an empty one). */
  datatype Fetched = Failed(status: Status) | Body(json: Json)

  datatype Endpoint = Endpoint(t: ObjectType, required: bool)

  const ENDPOINTS: seq<Endpoint> := [
    Endpoint(ContestType, true), Endpoint(StateType, false), Endpoint(JudgementTypesType, true),
    Endpoint(LanguagesType, false), Endpoint(ProblemsType, true), Endpoint(GroupsType, false),
    Endpoint(OrganizationsType, false), Endpoint(TeamsType, true), Endpoint(SubmissionsType, true),
    Endpoint(JudgementsType, true), Endpoint(RunsType, false), Endpoint(AwardsType, false)]

  datatype RestState = RestState(
    store: StoreValue, profile: ApiVersion, resolved: ApiVersion, diagnostics: seq<Diagnostic>, eventCount: nat)

  function RestStart(o: Options): RestState {
    var version := if o.version == Auto then V2023 else o.version;
    RestState(StoreValue(NO_OBJECTS, [], 0), version, version, [], 0)
  }

  /** What a body does to the store, or why it fails. Bodies that are neither arrays nor objects do nothing. */
  function BodyEffect(version: ApiVersion, t: ObjectType, data: Json): (r: Result<Effect, Status>)
    ensures r.Ok? ==> Accepted(r.value)
    ensures r.Err? ==> r.error == ParseError
  {
    if data.Arr? then
      var d := Decode.DecodeCollection(t, data, version, 0);
      if d.Err? then Err(d.error) else Ok(Replace(t, d.value.objects))
    else if data.Obj? then
      var d := Decode.DecodeObject(t, data, version, 0);
      if d.Err? then Err(d.error)
      else Decode.DecodedKind(t, data.fields, version);
           Ok(Put(t, d.value.obj.id, d.value.obj))
    else Ok(Nothing)
  }

  function BodyDiagnostics(version: ApiVersion, t: ObjectType, data: Json): seq<Diagnostic> {
    if data.Arr? then
      var d := Decode.DecodeCollection(t, data, version, 0);
      if d.Ok? then d.value.diagnostics else []
    else if data.Obj? then
      var d := Decode.DecodeObject(t, data, version, 0);
      if d.Ok? then d.value.diagnostics else []
    else []
  }

  function AfterBody(v: StoreValue, effect: Result<Effect, Status>): StoreValue
    requires effect.Ok? ==> Accepted(effect.value)
  {
    if effect.Ok? && effect.value != Nothing then Counted(v, effect.value) else v
  }

  /** Automatic version choice looks at the contest only. */
  function RestVersion(o: Options, s: RestState, t: ObjectType, body: Json): RestState {
    if t == ContestType && body.Obj? && s.resolved == V2023 && o.version == Auto &&
       "penalty_time" in body.fields && body.fields["penalty_time"].Str?
    then s.(profile := V2026, resolved := V2026)
    else s
  }

  function EndpointStep(o: Options, s: RestState, ep: Endpoint, f: Fetched): Result<RestState, Status> {
    match f
    case Failed(status) =>
      if ep.required then Err(status)
      else Ok(s.(diagnostics := s.diagnostics + [Diagnostic(Warning, MissingData, 0, None, None, None)]))
    case Body(body) =>
      if body.Null? then Ok(s)
      else
        var v := RestVersion(o, s, ep.t, body);
        var effect := BodyEffect(v.profile, ep.t, body);
        if effect.Err? && ep.required then Err(effect.error)
        else Ok(v.(store := AfterBody(v.store, effect),
                   diagnostics := AddDiagnostics(o, v.diagnostics, BodyDiagnostics(v.profile, ep.t, body)),
                   eventCount := v.eventCount + if body.Arr? then |body.elems| else 1))
  }

  function RestAll(o: Options, eps: seq<Endpoint>, fetched: seq<Fetched>): Result<RestState, Status>
    requires |eps| == |fetched|
  {
    if eps == [] then Ok(RestStart(o))
    else
      var last := |eps| - 1;
      var s := RestAll(o, eps[..last], fetched[..last]);
      if s.Err? then s else EndpointStep(o, s.value, eps[last], fetched[last])
  }

  // ---- The program ----

  method ReportAll(o: Options, diagnostics: seq<Diagnostic>, more: seq<Diagnostic>) returns (r: seq<Diagnostic>)
    ensures r == AddDiagnostics(o, diagnostics, more)
  {
    r := diagnostics;
    for i := 0 to |more|
      invariant r == AddDiagnostics(o, diagnostics, more[..i])
    {
      assert more[..i + 1][..i] == more[..i];
      if |r| < o.maxDiagnostics {
        r := r + [more[i]];
      }
    }
    assert more[..|more|] == more;
  }

  method ReplaceByArray(store: ContestStore, version: ApiVersion, t: ObjectType, data: Json, o: Options,
                        diagnostics: seq<Diagnostic>)
    returns (status: Status, diagnostics': seq<Diagnostic>)
    requires data.Arr?
    modifies store
    ensures
      var effect := BodyEffect(version, t, data);
      && status == (if effect.Ok? then Good else effect.error)
      && store.Value() == AfterBody(old(store.Value()), effect)
      && diagnostics' == AddDiagnostics(o, diagnostics, BodyDiagnostics(version, t, data))
  {
    hide Counted, Perform, Decode.DecodeCollection;
    var decoded := Decode.DecodeArray(t, data, version, 0);
    if decoded.Err? {
      return decoded.error, diagnostics;
    }
    diagnostics' := ReportAll(o, diagnostics, decoded.value.diagnostics);
    status := store.ApplyCollectionReplace(t, decoded.value.objects);
  }

  method PutObject(store: ContestStore, version: ApiVersion, t: ObjectType, data: Json, o: Options,
                   diagnostics: seq<Diagnostic>)
    returns (status: Status, diagnostics': seq<Diagnostic>)
    requires data.Obj?
    modifies store
    ensures
      var effect := BodyEffect(version, t, data);
      && status == (if effect.Ok? then Good else effect.error)
      && store.Value() == AfterBody(old(store.Value()), effect)
      && diagnostics' == AddDiagnostics(o, diagnostics, BodyDiagnostics(version, t, data))
  {
    hide Counted, Perform, Decode.DecodeTyped;
    var decoded := Decode.DecodeObject(t, data, version, 0);
    if decoded.Err? {
      return decoded.error, diagnostics;
    }
    diagnostics' := ReportAll(o, diagnostics, decoded.value.diagnostics);
    assert Accepted(BodyEffect(version, t, data).value);
    if IsSingleton(t) {
      status := store.ApplySingletonUpdate(t, decoded.value.obj);
    } else {
      status := store.ApplyUpsert(t, decoded.value.obj.id, decoded.value.obj);
    }
  }

  method ApplyCollection(store: ContestStore, version: ApiVersion, t: ObjectType, data: Json, o: Options,
                         diagnostics: seq<Diagnostic>)
    returns (status: Status, diagnostics': seq<Diagnostic>)
    modifies store
    ensures
      var effect := BodyEffect(version, t, data);
      && status == (if effect.Ok? then Good else effect.error)
      && store.Value() == AfterBody(old(store.Value()), effect)
      && diagnostics' == AddDiagnostics(o, diagnostics, BodyDiagnostics(version, t, data))
  {
    hide Counted;
    diagnostics' := diagnostics;
    if data.Null? {
      return Good, diagnostics;
    }
    if data.Arr? {
      status, diagnostics' := ReplaceByArray(store, version, t, data, o, diagnostics);
      return;
    }
    if data.Obj? {
      status, diagnostics' := PutObject(store, version, t, data, o, diagnostics);
      return;
    }
    return Good, diagnostics;
  }

  /** The endpoint loop, with the fetched bodies given. */
  method FetchAndParse(o: Options, fetched: seq<Fetched>) returns (r: Result<RestState, Status>)
    requires |fetched| == |ENDPOINTS|
    ensures r == RestAll(o, ENDPOINTS, fetched)
  {
    var version := if o.version == Auto then V2023 else o.version;
    var store := new ContestStore();
    var s := RestState(StoreValue(NO_OBJECTS, [], 0), version, version, [], 0);
    for i := 0 to |ENDPOINTS|
      invariant fresh(store) && store.Value() == s.store
      invariant RestAll(o, ENDPOINTS[..i], fetched[..i]) == Ok(s)
    {
      assert ENDPOINTS[..i + 1][..i] == ENDPOINTS[..i] && fetched[..i + 1][..i] == fetched[..i];
      assert RestAll(o, ENDPOINTS[..i + 1], fetched[..i + 1]) == EndpointStep(o, s, ENDPOINTS[i], fetched[i]);
      r := FetchOne(o, s, store, ENDPOINTS[i], fetched[i]);
      if r.Err? {
        FirstErrorStays(o, ENDPOINTS, fetched, i + 1);
        return;
      }
      s := r.value;
    }
    assert ENDPOINTS[..|ENDPOINTS|] == ENDPOINTS && fetched[..|ENDPOINTS|] == fetched;
    return Ok(s);
  }

  lemma {:induction false} FirstErrorStays(o: Options, eps: seq<Endpoint>, fetched: seq<Fetched>, n: nat)
    requires |eps| == |fetched| && n <= |eps| && RestAll(o, eps[..n], fetched[..n]).Err?
    ensures RestAll(o, eps, fetched) == RestAll(o, eps[..n], fetched[..n])
  {
    if n == |eps| {
      assert eps[..n] == eps && fetched[..n] == fetched;
    } else {
      var last := |eps| - 1;
      assert eps[..last][..n] == eps[..n] && fetched[..last][..n] == fetched[..n];
      FirstErrorStays(o, eps[..last], fetched[..last], n);
    }
  }

  method FetchOne(o: Options, s: RestState, store: ContestStore, ep: Endpoint, f: Fetched)
    returns (r: Result<RestState, Status>)
    requires store.Value() == s.store
    modifies store
    ensures r == EndpointStep(o, s, ep, f)
    ensures r.Ok? ==> store.Value() == r.value.store
  {
    hide BodyEffect, BodyDiagnostics, AddDiagnostics, RestVersion, AfterBody;
    if f.Failed? {
      if ep.required {
        return Err(f.status);
      }
      return Ok(s.(diagnostics := s.diagnostics + [Diagnostic(Warning, MissingData, 0, None, None, None)]));
    }
    var body := f.json;
    if body.Null? {
      return Ok(s);
    }
    var v := DetectFromContest(o, s, ep.t, body);
    var status, diagnostics := ApplyCollection(store, v.profile, ep.t, body, o, v.diagnostics);
    if status != Good && ep.required {
      return Err(status);
    }
    var value := store.Value();
    var count := if body.Arr? then |body.elems| else 1;
    return Ok(RestState(value, v.profile, v.resolved, diagnostics, v.eventCount + count));
  }

  method DetectFromContest(o: Options, s: RestState, t: ObjectType, body: Json) returns (v: RestState)
    ensures v == RestVersion(o, s, t, body)
    ensures v.store == s.store
  {
    v := s;
    if t == ContestType && body.Obj? && v.resolved == V2023 && o.version == Auto {
      if "penalty_time" in body.fields && body.fields["penalty_time"].Str? {
        v := v.(resolved := V2026, profile := V2026);
      }
    }
  }

  // ---- The two front ends agree ----

  /** A feed line of the form type plus body, without an id. */
  predicate Carries(o: Options, line: RawLine, t: ObjectType, body: Json) {
    && Trim(line.text) != "" && |Trim(line.text)| <= o.maxLineBytes
    && line.parsed == Some(Obj(map["type" := Str(ObjectTypeToString(t)), "data" := body]))
  }

  /** `lines` carry the fetched bodies that are not null, in the order of the endpoints. */
  predicate IsFeedOf(o: Options, eps: seq<Endpoint>, fetched: seq<Fetched>, lines: seq<RawLine>)
    requires |eps| == |fetched|
  {
    if eps == [] then lines == []
    else
      var last := |eps| - 1;
      if fetched[last].Body? && !fetched[last].json.Null? then
        && lines != [] && Carries(o, lines[|lines| - 1], eps[last].t, fetched[last].json)
        && IsFeedOf(o, eps[..last], fetched[..last], lines[..|lines| - 1])
      else
        IsFeedOf(o, eps[..last], fetched[..last], lines)
  }

  /** What both front ends must agree on. */
  predicate Agree(c: Core, s: RestState) {
    && c.store.objects == s.store.objects && c.store.eventCount == s.store.eventCount
    && c.profile == s.profile && c.resolved == s.resolved
  }

  lemma CarriedLine(o: Options, line: RawLine, t: ObjectType, body: Json, n: nat)
    requires Carries(o, line, t, body) && !body.Null? && ObjectTypeFromString(ObjectTypeToString(t)) == t
    ensures
      var p := ParseLine(line, n, o);
      if body.Arr? || body.Obj? then
        && p.Ok? && p.value.Parsed? && p.value.data == body
        && p.value.event.objectType == t && p.value.event.id == None
        && p.value.event.shape == (if body.Arr? then CollectionReplace else SingletonUpdate)
      else p.Err?
  {
  }

  lemma SameEffect(version: ApiVersion, t: ObjectType, body: Json, e: RawEvent)
    requires e.objectType == t && (body.Arr? || body.Obj?)
    requires e.shape == if body.Arr? then CollectionReplace else SingletonUpdate
    ensures EffectOf(version, e, body).Ok? == BodyEffect(version, t, body).Ok?
    ensures EffectOf(version, e, body).Ok? ==> EffectOf(version, e, body) == BodyEffect(version, t, body)
  {
  }

  /** A non-null body changes what both front ends agree on in the same way. */
  lemma BodyAgrees(o: Options, c: Core, s: RestState, t: ObjectType, body: Json, e: RawEvent)
    requires Agree(c, s) && e.objectType == t && t != UnknownType && t != ClarificationsType && (body.Arr? || body.Obj?)
    requires e.shape == if body.Arr? then CollectionReplace else SingletonUpdate
    requires t == ContestType ==> c == FreshCore(o)
    ensures
      var v := RestVersion(o, s, t, body);
      Agree(CoreStep(o, c, e, body), v.(store := AfterBody(v.store, BodyEffect(v.profile, t, body))))
  {
    hide EffectOf, BodyEffect;
    assert e.shape != Delete;
    var v := RestVersion(o, s, t, body);
    assert Detect(o, c, e, body).profile == v.profile;
    SameEffect(v.profile, t, body, e);
  }

  lemma EndpointAgrees(o: Options, c: SessionState, s: RestState, ep: Endpoint, body: Json, line: RawLine)
    requires Agree(c.core, s) && !c.finished && !body.Null? && Carries(o, line, ep.t, body)
    requires ep.t != UnknownType && ep.t != ClarificationsType && ObjectTypeFromString(ObjectTypeToString(ep.t)) == ep.t
    requires ep.t == ContestType ==> c.core == FreshCore(o)
    requires EndpointStep(o, s, ep, Body(body)).Ok?
    ensures Agree(Consume(o, c, line).core, EndpointStep(o, s, ep, Body(body)).value)
  {
    hide ParseLine, Consume, CoreStep, BodyEffect, Carries;
    var n := c.cursor.lineNo + 1;
    CarriedLine(o, line, ep.t, body, n);
    LineOnCore(o, c, line);
    if body.Arr? || body.Obj? {
      BodyAgrees(o, c.core, s, ep.t, body, ParseLine(line, n, o).value.event);
    } else {
      NoEffect(s.profile, ep.t, body);
    }
  }

  lemma NoEffect(version: ApiVersion, t: ObjectType, body: Json)
    requires !body.Arr? && !body.Obj?
    ensures BodyEffect(version, t, body) == Ok(Nothing)
  {
  }

  lemma EndpointTypes()
    ensures forall i | 0 <= i < |ENDPOINTS| ::
              && ENDPOINTS[i].t != UnknownType && ENDPOINTS[i].t != ClarificationsType
              && (ENDPOINTS[i].t == ContestType ==> i == 0)
    ensures forall i | 0 <= i < |ENDPOINTS| ::
              ObjectTypeFromString(ObjectTypeToString(ENDPOINTS[i].t)) == ENDPOINTS[i].t
  {
    forall i | 0 <= i < |ENDPOINTS|
      ensures ObjectTypeFromString(ObjectTypeToString(ENDPOINTS[i].t)) == ENDPOINTS[i].t
    {
      NameRoundTrip(ENDPOINTS[i].t);
    }
  }

  lemma NameRoundTrip(t: ObjectType)
    requires t != UnknownType
    ensures ObjectTypeFromString(ObjectTypeToString(t)) == t
  {
  }

  lemma {:induction false} PrefixAgrees(o: Options, fetched: seq<Fetched>, lines: seq<RawLine>, n: nat)
    requires |fetched| == |ENDPOINTS| && n <= |ENDPOINTS|
    requires RestAll(o, ENDPOINTS[..n], fetched[..n]).Ok?
    requires IsFeedOf(o, ENDPOINTS[..n], fetched[..n], lines)
    ensures Agree(Run(o, lines).core, RestAll(o, ENDPOINTS[..n], fetched[..n]).value)
    ensures !Run(o, lines).finished && (n == 0 ==> lines == [])
  {
    hide Consume, EndpointStep, Carries, ObjectTypeFromString, ObjectTypeToString, Agree;
    if n == 0 {
      StartsAgree(o);
    } else {
      assert ENDPOINTS[..n][..n - 1] == ENDPOINTS[..n - 1] && fetched[..n][..n - 1] == fetched[..n - 1];
      EndpointTypes();
      var f, ep := fetched[n - 1], ENDPOINTS[n - 1];
      var s := RestAll(o, ENDPOINTS[..n - 1], fetched[..n - 1]).value;
      if f.Body? && !f.json.Null? {
        var prefix, line := lines[..|lines| - 1], lines[|lines| - 1];
        PrefixAgrees(o, fetched, prefix, n - 1);
        EndpointAgrees(o, Run(o, prefix), s, ep, f.json, line);
        NeverFinishes(o, Run(o, prefix), line);
      } else {
        PrefixAgrees(o, fetched, lines, n - 1);
        SkippedEndpoint(o, s, ep, f);
        AgreeIgnoresDiagnostics(Run(o, lines).core, s, EndpointStep(o, s, ep, f).value);
      }
    }
  }

  lemma StartsAgree(o: Options)
    ensures Agree(FreshCore(o), RestStart(o))
  {
  }

  lemma NeverFinishes(o: Options, s: SessionState, line: RawLine)
    ensures Consume(o, s, line).finished == s.finished
  {
    hide ParseLine, CoreStep, EventStatus, EventDiagnostics;
  }

  lemma SkippedEndpoint(o: Options, s: RestState, ep: Endpoint, f: Fetched)
    requires !(f.Body? && !f.json.Null?) && EndpointStep(o, s, ep, f).Ok?
    ensures EndpointStep(o, s, ep, f).value == s.(diagnostics := EndpointStep(o, s, ep, f).value.diagnostics)
  {
  }

  lemma AgreeIgnoresDiagnostics(c: Core, s: RestState, s': RestState)
    requires Agree(c, s) && s' == s.(diagnostics := s'.diagnostics)
    ensures Agree(c, s')
  {
  }

  /** Whenever the REST front end succeeds, feeding the fetched bodies that are not null as lines of type plus body to a
      fresh session with the same options gives the same objects, event count and version, also when the version is
      chosen automatically. */
  lemma FrontEndsAgree(o: Options, fetched: seq<Fetched>, lines: seq<RawLine>)
    requires |fetched| == |ENDPOINTS| && RestAll(o, ENDPOINTS, fetched).Ok?
    requires IsFeedOf(o, ENDPOINTS, fetched, lines)
    ensures
      var c, s := Run(o, lines).core, RestAll(o, ENDPOINTS, fetched).value;
      && c.store.objects == s.store.objects
      && c.store.eventCount == s.store.eventCount
      && c.resolved == s.resolved
  {
    assert ENDPOINTS[..|ENDPOINTS|] == ENDPOINTS && fetched[..|ENDPOINTS|] == fetched;
    PrefixAgrees(o, fetched, lines, |ENDPOINTS|);
  }
}
