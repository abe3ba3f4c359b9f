/** What events and lines do to lookups, the event count, the version and the cursor, kind by kind. */
module EventMeaning {
  import opened Types
  import opened Store
  import opened LineParser
  import opened LineMeaning
  import opened SessionSpec
  import opened ErrorRun
  import opened EventSourcing
  import Decode

  // ---- The version ----

  /** The version a document gives away: an integer or string penalty time of a contest, the recipient field of a
      clarification, many before one. */
  lemma VersionOfDocument(t: ObjectType, f: map<string, Json>)
    ensures
      var hint := VersionHint(t, Obj(f));
      && (t == ContestType && "penalty_time" in f && f["penalty_time"].Int? ==> hint == Some(V2023))
      && (t == ContestType && "penalty_time" in f && f["penalty_time"].Str? ==> hint == Some(V2026))
      && (t == ContestType && ("penalty_time" in f ==> !f["penalty_time"].Int? && !f["penalty_time"].Str?) ==>
          hint == None)
      && (t == ClarificationsType && "to_team_ids" in f ==> hint == Some(V2026))
      && (t == ClarificationsType && "to_team_ids" !in f && "to_team_id" in f ==> hint == Some(V2023))
      && (t == ClarificationsType && "to_team_ids" !in f && "to_team_id" !in f ==> hint == None)
      && (t != ContestType && t != ClarificationsType ==> hint == None)
  {
  }

  /** The version under which an event is decoded, and which stays: the one given away, as long as the version is chosen
      automatically and none was given away before. */
  lemma VersionOfEvent(o: Options, c: Core, e: RawEvent, data: Json)
    requires e.objectType != UnknownType
    ensures
      var d := CoreStep(o, c, e, data);
      var hint := if data.Obj? then VersionHint(e.objectType, data) else None;
      if o.version == Auto && !c.detected && e.shape != Delete && hint.Some?
      then d.profile == hint.value && d.resolved == hint.value && d.detected
      else d.profile == c.profile && d.resolved == c.resolved && d.detected == c.detected
  {
    hide EffectOf, Counted;
  }

  function VersionFor(o: Options, c: Core, e: RawEvent, data: Json): ApiVersion {
    CoreStep(o, c, e, data).profile
  }

  // ---- Lookups ----

  /** The key (t, i) is that of an event for type `u` and id `id`; singletons have one key. */
  predicate SameKey(t: ObjectType, i: string, u: ObjectType, id: string) {
    t == u && (t == ContestType || t == StateType || i == id)
  }

  function Lookup(c: Core, t: ObjectType, i: string): Option<ContestObject> {
    Find(c.store.objects, t, i)
  }

  lemma DeleteEffect(o: Options, c: Core, e: RawEvent, data: Json)
    requires e.objectType != UnknownType && e.shape == Delete && e.id.Some?
    ensures
      var d := CoreStep(o, c, e, data);
      && d.store.objects == Perform(c.store.objects, Erase(e.objectType, e.id.value))
      && d.store.eventCount == c.store.eventCount + 1
  {
    hide VersionHint, Perform;
  }

  lemma EraseMeaning(o: Objects, u: ObjectType, id: string, t: ObjectType, i: string)
    ensures Find(Perform(o, Erase(u, id)), t, i) == if SameKey(t, i, u, id) then None else Find(o, t, i)
  {
  }

  /** A delete leaves nothing under its key and everything else as it was. */
  lemma DeleteMeaning(o: Options, c: Core, e: RawEvent, data: Json, t: ObjectType, i: string)
    requires e.objectType != UnknownType && e.shape == Delete && e.id.Some?
    ensures
      var d := CoreStep(o, c, e, data);
      && Lookup(d, t, i) == (if SameKey(t, i, e.objectType, e.id.value) then None else Lookup(c, t, i))
      && d.store.eventCount == c.store.eventCount + 1
  {
    hide CoreStep, Perform;
    DeleteEffect(o, c, e, data);
    EraseMeaning(c.store.objects, e.objectType, e.id.value, t, i);
  }

  lemma UpsertEffect(o: Options, c: Core, e: RawEvent, data: Json)
    requires e.objectType != UnknownType && (e.shape == SingleObject || e.shape == SingletonUpdate) && data.Obj?
    ensures
      var obj := Decode.ObjectOf(e.objectType, data.fields, VersionFor(o, c, e, data));
      var id := if e.shape == SingleObject && e.id.Some? then e.id.value else obj.id;
      && Accepted(Put(e.objectType, id, obj))
      && CoreStep(o, c, e, data).store.objects == Perform(c.store.objects, Put(e.objectType, id, obj))
      && CoreStep(o, c, e, data).store.eventCount == c.store.eventCount + 1
  {
    hide VersionHint, Decode.DiagnosticsOf, Perform;
    Decode.DecodedKind(e.objectType, data.fields, VersionFor(o, c, e, data));
  }

  /** A single object is found under the id of the event, decoded, and everything else as before. */
  lemma UpsertMeaning(o: Options, c: Core, e: RawEvent, data: Json, t: ObjectType, i: string)
    requires e.objectType != UnknownType && e.shape == SingleObject && e.id.Some? && data.Obj?
    ensures
      var d := CoreStep(o, c, e, data);
      && Lookup(d, t, i) == (if SameKey(t, i, e.objectType, e.id.value)
                             then Some(Decode.ObjectOf(e.objectType, data.fields, VersionFor(o, c, e, data)))
                             else Lookup(c, t, i))
      && d.store.eventCount == c.store.eventCount + 1
  {
    hide CoreStep, Decode.ObjectOf, VersionFor;
    UpsertEffect(o, c, e, data);
    PutMeaning(c.store.objects, e.objectType, e.id.value,
               Decode.ObjectOf(e.objectType, data.fields, VersionFor(o, c, e, data)), t, i);
  }

  /** An update without an id is found under the id in its data. */
  lemma SingletonUpdateMeaning(o: Options, c: Core, e: RawEvent, data: Json, t: ObjectType, i: string)
    requires e.objectType != UnknownType && e.shape == SingletonUpdate && data.Obj?
    ensures
      var d, obj := CoreStep(o, c, e, data), Decode.ObjectOf(e.objectType, data.fields, VersionFor(o, c, e, data));
      && Lookup(d, t, i) == (if SameKey(t, i, e.objectType, obj.id) then Some(obj) else Lookup(c, t, i))
      && d.store.eventCount == c.store.eventCount + 1
  {
    hide CoreStep, Decode.ObjectOf, VersionFor;
    UpsertEffect(o, c, e, data);
    var obj := Decode.ObjectOf(e.objectType, data.fields, VersionFor(o, c, e, data));
    PutMeaning(c.store.objects, e.objectType, obj.id, obj, t, i);
  }

  lemma PutMeaning(o: Objects, u: ObjectType, id: string, obj: ContestObject, t: ObjectType, i: string)
    requires Accepted(Put(u, id, obj))
    ensures Find(Perform(o, Put(u, id, obj)), t, i) == if SameKey(t, i, u, id) then Some(obj) else Find(o, t, i)
  {
  }

  // ---- Arrays ----

  /** An element that can be decoded: an object with a string id. */
  predicate IsElement(elem: Json) {
    elem.Obj? && "id" in elem.fields && elem.fields["id"].Str?
  }

  predicate AllElements(elems: seq<Json>) {
    forall k | 0 <= k < |elems| :: IsElement(elems[k])
  }

  predicate HasId(elem: Json, i: string) {
    elem.Obj? && "id" in elem.fields && elem.fields["id"] == Str(i)
  }

  /** Element k is the last one with id `i`. */
  predicate IsLastWithId(elems: seq<Json>, k: int, i: string) {
    && 0 <= k < |elems| && HasId(elems[k], i)
    && forall l | k < l < |elems| :: !HasId(elems[l], i)
  }

  lemma ObjectsOfLast(t: ObjectType, elems: seq<Json>, version: ApiVersion)
    requires elems != [] && Decode.AllDecodable(t, elems) && t != StateType
    ensures
      var m, x := ById(Decode.ObjectsOf(t, elems, version)), elems[|elems| - 1];
      && Decode.AllDecodable(t, elems[..|elems| - 1]) && HasId(x, x.fields["id"].s)
      && m == ById(Decode.ObjectsOf(t, elems[..|elems| - 1], version))
                [x.fields["id"].s := Decode.ObjectOf(t, x.fields, version)]
  {
    hide Decode.BodyOf;
    var last := |elems| - 1;
    var objs := Decode.ObjectsOf(t, elems, version);
    assert objs[..|objs| - 1] == Decode.ObjectsOf(t, elems[..last], version);
    assert Decode.Decodable(t, elems[last]);
  }

  lemma {:induction false} LastElementIsKept(t: ObjectType, elems: seq<Json>, version: ApiVersion, k: int, i: string)
    requires Decode.AllDecodable(t, elems) && t != StateType && IsLastWithId(elems, k, i)
    ensures
      var m := ById(Decode.ObjectsOf(t, elems, version));
      i in m && m[i] == Decode.ObjectOf(t, elems[k].fields, version)
  {
    hide Decode.ObjectOf, ById, Decode.ObjectsOf;
    ObjectsOfLast(t, elems, version);
    if k < |elems| - 1 {
      LastElementIsKept(t, elems[..|elems| - 1], version, k, i);
    }
  }

  lemma {:induction false} MissingIdIsNotKept(t: ObjectType, elems: seq<Json>, version: ApiVersion, i: string)
    requires Decode.AllDecodable(t, elems) && t != StateType && forall k | 0 <= k < |elems| :: !HasId(elems[k], i)
    ensures i !in ById(Decode.ObjectsOf(t, elems, version))
  {
    hide Decode.ObjectOf;
    if elems != [] {
      ObjectsOfLast(t, elems, version);
      MissingIdIsNotKept(t, elems[..|elems| - 1], version, i);
    }
  }

  lemma ElementsAreDecodable(t: ObjectType, elems: seq<Json>)
    requires t != UnknownType
    ensures Decode.AllDecodable(t, elems) <==> AllElements(elems)
  {
    if Decode.AllDecodable(t, elems) {
      forall k | 0 <= k < |elems|
        ensures IsElement(elems[k])
      {
        assert Decode.Decodable(t, elems[k]);
      }
    } else {
      var k :| 0 <= k < |elems| && !Decode.Decodable(t, elems[k]);
      assert !IsElement(elems[k]);
    }
  }

  lemma ReplaceEffect(o: Options, c: Core, e: RawEvent, data: Json)
    requires e.objectType != UnknownType && e.shape == CollectionReplace && data.Arr? && AllElements(data.elems)
    ensures Decode.AllDecodable(e.objectType, data.elems)
    ensures
      var d := CoreStep(o, c, e, data);
      var objs := Decode.ObjectsOf(e.objectType, data.elems, VersionFor(o, c, e, data));
      && d.store.objects == Perform(c.store.objects, Replace(e.objectType, objs))
      && d.store.eventCount == c.store.eventCount + 1
  {
    hide VersionHint, Perform, Decode.AllDiagnostics, Decode.ObjectsOf;
    ElementsAreDecodable(e.objectType, data.elems);
  }

  lemma ReplaceAllMeaning(o: Objects, u: ObjectType, objs: seq<ContestObject>, t: ObjectType, i: string)
    ensures Find(Perform(o, Replace(u, objs)), t, i) ==
            if t != u || t == ContestType || t == StateType then Find(o, t, i)
            else if i in ById(objs) then Some(ById(objs)[i]) else None
  {
    hide ById;
  }

  /** After an array of elements, a lookup of the type finds the last element with the id, decoded; other types are
      as they were. The singletons are never found in an array. */
  lemma ReplaceMeaning(o: Options, c: Core, e: RawEvent, data: Json, t: ObjectType, i: string, k: int)
    requires e.objectType != UnknownType && e.shape == CollectionReplace && data.Arr? && AllElements(data.elems)
    ensures
      var d := CoreStep(o, c, e, data);
      && d.store.eventCount == c.store.eventCount + 1
      && (t != e.objectType || t == ContestType || t == StateType ==> Lookup(d, t, i) == Lookup(c, t, i))
      && (t == e.objectType && t != ContestType && t != StateType && IsLastWithId(data.elems, k, i) ==>
            Lookup(d, t, i) == Some(Decode.ObjectOf(t, data.elems[k].fields, VersionFor(o, c, e, data))))
  {
    hide CoreStep, Perform, Decode.ObjectOf, ById, Decode.ObjectsOf, VersionFor, IsElement;
    ReplaceEffect(o, c, e, data);
    var version := VersionFor(o, c, e, data);
    ReplaceAllMeaning(c.store.objects, e.objectType, Decode.ObjectsOf(e.objectType, data.elems, version), t, i);
    if e.objectType != StateType && IsLastWithId(data.elems, k, i) {
      LastElementIsKept(e.objectType, data.elems, version, k, i);
    }
  }

  /** And it finds nothing under an id that no element has. */
  lemma ReplaceForgets(o: Options, c: Core, e: RawEvent, data: Json, i: string)
    requires e.objectType != UnknownType && e.shape == CollectionReplace && data.Arr? && AllElements(data.elems)
    requires e.objectType != ContestType && e.objectType != StateType
    requires forall k | 0 <= k < |data.elems| :: !HasId(data.elems[k], i)
    ensures Lookup(CoreStep(o, c, e, data), e.objectType, i) == None
  {
    hide CoreStep, Perform, Decode.ObjectOf, ById, Decode.ObjectsOf, VersionFor, IsElement, HasId;
    ReplaceEffect(o, c, e, data);
    var version := VersionFor(o, c, e, data);
    var objs := Decode.ObjectsOf(e.objectType, data.elems, version);
    ReplaceAllMeaning(c.store.objects, e.objectType, objs, e.objectType, i);
    MissingIdIsNotKept(e.objectType, data.elems, version, i);
  }

  /** An array with anything else in it changes no lookup and does not count. */
  lemma BadArrayMeaning(o: Options, c: Core, e: RawEvent, data: Json, t: ObjectType, i: string)
    requires e.objectType != UnknownType && e.shape == CollectionReplace && data.Arr? && !AllElements(data.elems)
    ensures
      var d := CoreStep(o, c, e, data);
      Lookup(d, t, i) == Lookup(c, t, i) && d.store.eventCount == c.store.eventCount
  {
    hide VersionHint;
    ElementsAreDecodable(e.objectType, data.elems);
  }

  // ---- Reports ----

  /** An unknown type is reported by its name; a delete is reported exactly if its key is empty. */
  lemma EventsAreReported(o: Options, c: Core, e: RawEvent, data: Json)
    ensures e.objectType == UnknownType ==>
            EventDiagnostics(o, c, e, data)
            == [Diagnostic(Warning, UnknownEventType, e.lineNo, None, Some(e.typeStr), None)]
    ensures e.objectType != UnknownType && e.shape == Delete && e.id.Some? ==>
            EventDiagnostics(o, c, e, data) ==
              if Lookup(c, e.objectType, e.id.value).Some? then []
              else [Diagnostic(Warning, DeleteUnknownObject, e.lineNo, None, Some(e.typeStr), e.id)]
  {
    hide VersionHint, Find;
  }

  /** A line whose event cannot be applied is reported with its type, id and number. */
  lemma FailedEventIsReported(o: Options, s: SessionState, line: RawLine, n: nat, e: RawEvent)
    ensures
      var raw := if o.keepRawJson then Some(line.text) else None;
      var d := Diagnostic(Severe, InvalidObjectShape, n, raw, Some(e.typeStr), e.id);
      ApplyFailure(o, s, line, n, e).diagnostics ==
        if |s.diagnostics| < o.maxDiagnostics then s.diagnostics + [d] else s.diagnostics
  {
  }

  // ---- Lines ----

  /** After a delete line, whatever it is called, its key is empty and every other key is as before. */
  lemma DeleteLine(o: Options, s: SessionState, line: RawLine, text: string, f: map<string, Json>, t: ObjectType,
                   i: string)
    requires !s.finished && IsDocument(o, line, text, f) && HasSkeleton(f)
    requires HasStringId(f) && f["data"].Null? && ObjectTypeFromString(f["type"].s) != UnknownType
    ensures Lookup(Consume(o, s, line).core, t, i) ==
            if SameKey(t, i, ObjectTypeFromString(f["type"].s), f["id"].s) then None else Lookup(s.core, t, i)
  {
    hide ParseLine, Consume, CoreStep, Lookup, ObjectTypeFromString;
    var n := s.cursor.lineNo + 1;
    ShapeOfDocument(o, line, text, f, n);
    FieldsOfEvent(o, line, text, f, n);
    LineOnCore(o, s, line);
    var p := ParseLine(line, n, o).value;
    DeleteMeaning(o, s.core, p.event, p.data, t, i);
  }

  /** A line with an id and an object is found under that id, decoded under the version then in force. */
  lemma UpsertLine(o: Options, s: SessionState, line: RawLine, text: string, f: map<string, Json>, t: ObjectType,
                   i: string)
    requires !s.finished && IsDocument(o, line, text, f) && HasSkeleton(f)
    requires HasStringId(f) && f["data"].Obj? && ObjectTypeFromString(f["type"].s) != UnknownType
    ensures
      var u, c := ObjectTypeFromString(f["type"].s), Consume(o, s, line).core;
      Lookup(c, t, i) ==
        if SameKey(t, i, u, f["id"].s) then Some(Decode.ObjectOf(u, f["data"].fields, c.profile))
            else Lookup(s.core, t, i)
  {
    hide ParseLine, Consume, CoreStep, Lookup, ObjectTypeFromString, Decode.ObjectOf;
    var n := s.cursor.lineNo + 1;
    ShapeOfDocument(o, line, text, f, n);
    FieldsOfEvent(o, line, text, f, n);
    LineOnCore(o, s, line);
    var p := ParseLine(line, n, o).value;
    UpsertMeaning(o, s.core, p.event, p.data, t, i);
  }
}
