/** Replaying a log through the session that was rolled back: it decodes again, with what the session has learned about
    the version in the meantime, so the objects come back exactly under a condition on the clarifications. */
module SessionReplay {
  import opened Types
  import opened Store
  import opened LineParser
  import opened SessionSpec
  import opened EventSourcing
  import opened ErrorRun
  import Decode

  // ---- One version throughout ----

  predicate SameContents(c: Core, d: Core) {
    c.store.objects == d.store.objects && c.store.eventCount == d.store.eventCount
  }

  lemma StepKeepsSameContents(o: Options, c: Core, d: Core, e: RawEvent, data: Json)
    requires SameContents(c, d)
    requires EffectOf(Detect(o, c, e, data).profile, e, data) == EffectOf(Detect(o, d, e, data).profile, e, data)
    ensures SameContents(CoreStep(o, c, e, data), CoreStep(o, d, e, data))
  {
  }

  /** With one version throughout, two replays of one log from equal objects stay equal. */
  lemma {:induction false} ReplayUnderOneVersion(o: Options, c: Core, d: Core, log: seq<RawEvent>)
    requires SameContents(c, d) && c.profile == d.profile && o.version != Auto
    ensures SameContents(CoreReplay(o, c, log), CoreReplay(o, d, log))
    ensures CoreReplay(o, c, log).profile == CoreReplay(o, d, log).profile == c.profile
  {
    if log != [] {
      var last := log[|log| - 1];
      ReplayUnderOneVersion(o, c, d, log[..|log| - 1]);
      StepKeepsSameContents(o, CoreReplay(o, c, log[..|log| - 1]), CoreReplay(o, d, log[..|log| - 1]), last,
                            last.data.GetOr(Null));
    }
  }

  /** With an explicit version, replaying through the rolled-back session itself restores objects and event count too;
      the log then holds the replayed events twice. */
  lemma RollbackThenSameSessionReplay(o: Options, earlier: seq<RawLine>, later: seq<RawLine>)
    requires o.keepEventLog && o.version != Auto
    ensures
      var saved, now := Run(o, earlier), RunFrom(o, Run(o, earlier), later);
      && |LogOf(saved)| <= |LogOf(now)|
      && SameContents(Replay(o, RolledBack(now, |LogOf(saved)|), LogOf(saved)).core, saved.core)
  {
    var saved, now := Run(o, earlier), RunFrom(o, Run(o, earlier), later);
    LogOnlyGrows(o, saved, later);
    ExplicitVersionIsFixed(o, Fresh(o), earlier);
    ExplicitVersionIsFixed(o, saved, later);
    var rolled := RolledBack(now, |LogOf(saved)|);
    ReplayOnCore(o, rolled, LogOf(saved));
    LogRebuildsCore(o, earlier);
    ReplayOnCore(o, Fresh(o), LogOf(saved));
    ReplayUnderOneVersion(o, rolled.core, FreshCore(o), LogOf(saved));
  }

  // ---- Automatic version choice ----

  /** Only detection sets 2026-01, and it never lets go. */
  predicate VersionIsSettled(c: Core) {
    c.profile != V2023 ==> c.detected
  }

  lemma DetectionIsFinal(o: Options, c: Core, e: RawEvent, data: Json)
    requires VersionIsSettled(c)
    ensures VersionIsSettled(CoreStep(o, c, e, data))
    ensures CoreStep(o, c, e, data).profile == V2023 ==> c.profile == V2023
    ensures c.detected ==> CoreStep(o, c, e, data).detected && CoreStep(o, c, e, data).profile == c.profile
  {
  }

  lemma {:induction false} ReplayIsSettled(o: Options, c: Core, log: seq<RawEvent>)
    requires VersionIsSettled(c)
    ensures VersionIsSettled(CoreReplay(o, c, log))
    ensures CoreReplay(o, c, log).profile == V2023 ==> c.profile == V2023
  {
    if log != [] {
      var last := log[|log| - 1];
      ReplayIsSettled(o, c, log[..|log| - 1]);
      DetectionIsFinal(o, CoreReplay(o, c, log[..|log| - 1]), last, last.data.GetOr(Null));
    }
  }

  lemma {:induction false} RunIsSettled(o: Options, s: SessionState, lines: seq<RawLine>)
    requires VersionIsSettled(s.core)
    ensures VersionIsSettled(RunFrom(o, s, lines).core)
    ensures RunFrom(o, s, lines).core.profile == V2023 ==> s.core.profile == V2023
    ensures s.core.detected ==> RunFrom(o, s, lines).core.detected
  {
    if lines != [] {
      var before, line := RunFrom(o, s, lines[..|lines| - 1]), lines[|lines| - 1];
      RunIsSettled(o, s, lines[..|lines| - 1]);
      LineOnCore(o, before, line);
      var p := ParseLine(line, before.cursor.lineNo + 1, o);
      if p.Ok? && p.value.Parsed? {
        DetectionIsFinal(o, before.core, p.value.event, p.value.data);
      }
    }
  }

  /** `d` knows at least as much about the version as `c`, and both are still at 2023-06. */
  predicate BothAt2023(c: Core, d: Core) {
    c.profile == V2023 && d.profile == V2023 && (c.detected ==> d.detected)
  }

  lemma StepAt2023(o: Options, c: Core, d: Core, e: RawEvent, data: Json)
    requires SameContents(c, d) && BothAt2023(c, d) && CoreStep(o, c, e, data).profile == V2023
    ensures SameContents(CoreStep(o, c, e, data), CoreStep(o, d, e, data))
    ensures BothAt2023(CoreStep(o, c, e, data), CoreStep(o, d, e, data))
  {
    if e.objectType != UnknownType {
      StepKeepsSameContents(o, c, d, e, data);
    }
  }

  lemma {:induction false} ReplayAt2023(o: Options, c: Core, d: Core, log: seq<RawEvent>)
    requires SameContents(c, d) && BothAt2023(c, d) && VersionIsSettled(c)
    requires CoreReplay(o, c, log).profile == V2023
    ensures SameContents(CoreReplay(o, c, log), CoreReplay(o, d, log))
    ensures BothAt2023(CoreReplay(o, c, log), CoreReplay(o, d, log))
  {
    if log != [] {
      var last, prefix := log[|log| - 1], log[..|log| - 1];
      ReplayIsSettled(o, c, prefix);
      DetectionIsFinal(o, CoreReplay(o, c, prefix), last, last.data.GetOr(Null));
      ReplayAt2023(o, c, d, prefix);
      StepAt2023(o, CoreReplay(o, c, prefix), CoreReplay(o, d, prefix), last, last.data.GetOr(Null));
    }
  }

  // ---- Decoding again as 2026-01 ----

  /** A clarification as 2026-01 decodes it from the data it was made from. */
  function Recast(x: ContestObject): ContestObject {
    Decode.ObjectOf(ClarificationsType, x.source, V2026)
  }

  function RecastAll(c: map<string, ContestObject>): map<string, ContestObject> {
    map id | id in c :: Recast(c[id])
  }

  /** The objects with all clarifications decoded again. */
  function RecastObjects(o: Objects): Objects {
    if ClarificationsType in o.collections
    then o.(collections := o.collections[ClarificationsType := RecastAll(o.collections[ClarificationsType])])
    else o
  }

  function RecastEach(objs: seq<ContestObject>): seq<ContestObject> {
    if objs == [] then [] else RecastEach(objs[..|objs| - 1]) + [Recast(objs[|objs| - 1])]
  }

  function RecastEffect(e: Effect): Effect {
    match e
    case Put(t, id, obj) => if t == ClarificationsType then Put(t, id, Recast(obj)) else e
    case Replace(t, objs) => if t == ClarificationsType then Replace(t, RecastEach(objs)) else e
    case _ => e
  }

  /** Decoding again does not change the ids of the clarifications in an effect. */
  predicate KeepsIds(e: Effect) {
    e.Replace? && e.t == ClarificationsType ==> forall x | x in e.objs :: Recast(x).id == x.id
  }

  lemma {:induction false} ByIdRecast(objs: seq<ContestObject>)
    requires forall x | x in objs :: Recast(x).id == x.id
    ensures ById(RecastEach(objs)) == RecastAll(ById(objs))
  {
    hide Recast;
    if objs != [] {
      ByIdRecast(objs[..|objs| - 1]);
    }
  }

  /** Performing an effect and decoding again commute. */
  lemma PerformRecast(o: Objects, e: Effect)
    requires Accepted(e) && KeepsIds(e)
    ensures Accepted(RecastEffect(e))
    ensures Perform(RecastObjects(o), RecastEffect(e)) == RecastObjects(Perform(o, e))
  {
    hide Recast;
    if e != Nothing {
      if e.t == ClarificationsType {
        ClarificationRecast(o, e);
      } else {
        OtherTypeRecast(o, e);
      }
    }
  }

  lemma RecastSlots(o: Objects)
    ensures RecastObjects(o).contest == o.contest && RecastObjects(o).state == o.state
    ensures forall u | u != ClarificationsType :: Slot(RecastObjects(o), u) == Slot(o, u)
    ensures Slot(RecastObjects(o), ClarificationsType) ==
            match Slot(o, ClarificationsType) case None => None case Some(c) => Some(RecastAll(c))
  {
  }

  lemma OtherTypeRecast(o: Objects, e: Effect)
    requires Accepted(e) && e != Nothing && e.t != ClarificationsType
    ensures Perform(RecastObjects(o), e) == RecastObjects(Perform(o, e))
  {
    hide Perform, RecastObjects, Slot;
    var x, y := Perform(RecastObjects(o), e), RecastObjects(Perform(o, e));
    RecastSlots(o);
    RecastSlots(Perform(o, e));
    OwnSlotDecides(RecastObjects(o), o, e);
    forall u
      ensures Slot(x, u) == Slot(y, u)
    {
      if u != e.t {
        OtherSlotsUntouched(RecastObjects(o), e, u);
        OtherSlotsUntouched(o, e, u);
      }
    }
    if e.t != ContestType {
      OtherSlotsUntouched(RecastObjects(o), e, ContestType);
      OtherSlotsUntouched(o, e, ContestType);
    }
    if e.t != StateType {
      OtherSlotsUntouched(RecastObjects(o), e, StateType);
      OtherSlotsUntouched(o, e, StateType);
    }
    SameSlots(x, y);
  }

  lemma ClarificationRecast(o: Objects, e: Effect)
    requires Accepted(e) && e != Nothing && e.t == ClarificationsType && KeepsIds(e)
    ensures Perform(RecastObjects(o), RecastEffect(e)) == RecastObjects(Perform(o, e))
  {
    hide Recast, ById, RecastEach;
    var c := CollectionOf(o, ClarificationsType);
    assert CollectionOf(RecastObjects(o), ClarificationsType) == RecastAll(c);
    match e
    case Put(_, id, obj) =>
      assert RecastAll(c)[id := Recast(obj)] == RecastAll(c[id := obj]);
    case Erase(_, id) =>
      assert RecastAll(c) - {id} == RecastAll(c - {id});
    case Replace(_, objs) =>
      ByIdRecast(objs);
  }

  lemma ObjectRecast(t: ObjectType, f: map<string, Json>, version: ApiVersion)
    ensures t != ClarificationsType ==> Decode.ObjectOf(t, f, version) == Decode.ObjectOf(t, f, V2026)
    ensures t == ClarificationsType ==> Recast(Decode.ObjectOf(t, f, version)) == Decode.ObjectOf(t, f, V2026)
    ensures t == ClarificationsType ==> Recast(Decode.ObjectOf(t, f, version)).id == Decode.ObjectOf(t, f, version).id
  {
  }

  lemma {:induction false} ObjectsRecast(t: ObjectType, elems: seq<Json>, version: ApiVersion)
    requires Decode.AllDecodable(t, elems)
    ensures t != ClarificationsType ==> Decode.ObjectsOf(t, elems, version) == Decode.ObjectsOf(t, elems, V2026)
    ensures t == ClarificationsType ==>
            RecastEach(Decode.ObjectsOf(t, elems, version)) == Decode.ObjectsOf(t, elems, V2026)
    ensures t == ClarificationsType ==>
            forall x | x in Decode.ObjectsOf(t, elems, version) :: Recast(x).id == x.id
  {
    hide Decode.ObjectOf, Recast;
    if elems != [] {
      var last := |elems| - 1;
      ObjectsRecast(t, elems[..last], version);
      ObjectRecast(t, elems[last].fields, version);
      var prefix, x := Decode.ObjectsOf(t, elems[..last], version), Decode.ObjectOf(t, elems[last].fields, version);
      assert (prefix + [x])[..|prefix|] == prefix;
    }
  }

  /** What an event does under 2026-01 is what it does under any version, decoded again. */
  lemma EffectRecast(version: ApiVersion, e: RawEvent, data: Json)
    ensures
      var a, b := EffectOf(version, e, data), EffectOf(V2026, e, data);
      && (a.Ok? <==> b.Ok?)
      && (a.Ok? ==> KeepsIds(a.value) && b.value == RecastEffect(a.value))
  {
    hide Decode.ObjectOf, Recast, Decode.DiagnosticsOf, Decode.AllDiagnostics, RecastEach;
    if data.Obj? {
      ObjectRecast(e.objectType, data.fields, version);
    }
    if e.shape == CollectionReplace && data.Arr? && Decode.AllDecodable(e.objectType, data.elems) {
      ObjectsRecast(e.objectType, data.elems, version);
    }
  }

  /** `d` decodes as 2026-01 for good and holds what `c` holds, decoded again. */
  predicate HoldsRecast(o: Options, c: Core, d: Core) {
    && d.profile == V2026 && (o.version != Auto || d.detected)
    && d.store.objects == RecastObjects(c.store.objects) && d.store.eventCount == c.store.eventCount
  }

  lemma StepRecast(o: Options, c: Core, d: Core, e: RawEvent, data: Json)
    requires HoldsRecast(o, c, d)
    ensures HoldsRecast(o, CoreStep(o, c, e, data), CoreStep(o, d, e, data))
  {
    hide EffectOf, RecastObjects, Perform, RecastEffect, VersionHint;
    if e.objectType != UnknownType {
      var version := Detect(o, c, e, data).profile;
      EffectRecast(version, e, data);
      if EffectOf(version, e, data).Ok? {
        PerformRecast(c.store.objects, EffectOf(version, e, data).value);
      }
    }
  }

  lemma {:induction false} ReplayRecast(o: Options, c: Core, d: Core, log: seq<RawEvent>)
    requires HoldsRecast(o, c, d)
    ensures HoldsRecast(o, CoreReplay(o, c, log), CoreReplay(o, d, log))
  {
    hide HoldsRecast, CoreStep;
    if log != [] {
      var last, prefix := log[|log| - 1], log[..|log| - 1];
      ReplayRecast(o, c, d, prefix);
      StepRecast(o, CoreReplay(o, c, prefix), CoreReplay(o, d, prefix), last, last.data.GetOr(Null));
    }
  }

  // ---- Exactly when the objects come back ----

  function Clarifications(c: Core): map<string, ContestObject> {
    CollectionOf(c.store.objects, ClarificationsType)
  }

  /** Every clarification held is what 2026-01 makes of its data. */
  predicate ReadAlikeBy2026(c: Core) {
    forall id | id in Clarifications(c) :: Recast(Clarifications(c)[id]) == Clarifications(c)[id]
  }

  lemma RecastIsIdentity(c: Core)
    ensures RecastObjects(c.store.objects) == c.store.objects <==> ReadAlikeBy2026(c)
  {
    hide Recast;
    var o, m := c.store.objects, Clarifications(c);
    if ReadAlikeBy2026(c) {
      assert RecastAll(m) == m;
      assert ClarificationsType in o.collections ==> o.collections[ClarificationsType := m] == o.collections;
    } else {
      var id :| id in m && Recast(m[id]) != m[id];
      assert RecastAll(m)[id] != m[id];
      assert RecastObjects(o).collections[ClarificationsType] == RecastAll(m);
    }
  }

  /** Replay through the rolled-back session restores objects and event count if and only if that session decodes as
      2023-06 when it is rolled back, or every clarification held at the checkpoint is one that 2026-01 decodes to the
      same object. This holds for an explicit version and for automatic choice alike. */
  lemma SameSessionReplay(o: Options, earlier: seq<RawLine>, later: seq<RawLine>)
    requires o.keepEventLog
    ensures
      var saved, now := Run(o, earlier), RunFrom(o, Run(o, earlier), later);
      && |LogOf(saved)| <= |LogOf(now)|
      && (SameContents(Replay(o, RolledBack(now, |LogOf(saved)|), LogOf(saved)).core, saved.core) <==>
          now.core.profile == V2023 || ReadAlikeBy2026(saved.core))
  {
    hide CoreReplay, CoreStep, Consume, RunFrom, ReadAlikeBy2026, RecastObjects;
    var saved, now := Run(o, earlier), RunFrom(o, Run(o, earlier), later);
    LogOnlyGrows(o, saved, later);
    var rolled := RolledBack(now, |LogOf(saved)|);
    ReplayOnCore(o, rolled, LogOf(saved));
    LogRebuildsCore(o, earlier);
    ReplayOnCore(o, Fresh(o), LogOf(saved));
    RunIsSettled(o, Fresh(o), earlier);
    RunIsSettled(o, saved, later);
    RunHasAVersion(o, Fresh(o), earlier);
    RunHasAVersion(o, saved, later);
    if now.core.profile == V2023 {
      ReplayAt2023(o, FreshCore(o), rolled.core, LogOf(saved));
    } else {
      NothingToRecast();
      ReplayRecast(o, FreshCore(o), rolled.core, LogOf(saved));
      RecastIsIdentity(saved.core);
    }
  }

  lemma NothingToRecast()
    ensures RecastObjects(NO_OBJECTS) == NO_OBJECTS
  {
  }

  lemma {:induction false} RunHasAVersion(o: Options, s: SessionState, lines: seq<RawLine>)
    requires s.core.profile != Auto
    ensures RunFrom(o, s, lines).core.profile != Auto
  {
    hide Consume, ParseLine, EffectOf, Counted;
    if lines != [] {
      RunHasAVersion(o, s, lines[..|lines| - 1]);
      LineOnCore(o, RunFrom(o, s, lines[..|lines| - 1]), lines[|lines| - 1]);
    }
  }

  /** In particular it restores them as long as the session still decodes as 2023-06 when it is rolled back. */
  lemma SameSessionReplayAt2023(o: Options, earlier: seq<RawLine>, later: seq<RawLine>)
    requires o.keepEventLog && RunFrom(o, Run(o, earlier), later).core.profile == V2023
    ensures
      var saved, now := Run(o, earlier), RunFrom(o, Run(o, earlier), later);
      && |LogOf(saved)| <= |LogOf(now)|
      && SameContents(Replay(o, RolledBack(now, |LogOf(saved)|), LogOf(saved)).core, saved.core)
  {
    SameSessionReplay(o, earlier, later);
  }

  // ---- Events that every version reads alike ----

  /** No part of the data is a clarification that the two versions read differently. */
  predicate NeutralData(e: RawEvent, data: Json) {
    e.objectType == ClarificationsType && e.shape != Delete ==>
      && (data.Obj? ==> Decode.VersionNeutral(data.fields))
      && (data.Arr? ==>
            forall i | 0 <= i < |data.elems| :: data.elems[i].Obj? ==> Decode.VersionNeutral(data.elems[i].fields))
  }

  predicate AllNeutral(log: seq<RawEvent>) {
    forall i | 0 <= i < |log| :: NeutralData(log[i], log[i].data.GetOr(Null))
  }

  lemma {:induction false} NeutralObjects(t: ObjectType, elems: seq<Json>)
    requires Decode.AllDecodable(t, elems)
    requires t == ClarificationsType ==> forall i | 0 <= i < |elems| :: Decode.VersionNeutral(elems[i].fields)
    ensures Decode.ObjectsOf(t, elems, V2023) == Decode.ObjectsOf(t, elems, V2026)
  {
    if elems != [] {
      NeutralObjects(t, elems[..|elems| - 1]);
      Decode.VersionMatters(t, elems[|elems| - 1].fields);
    }
  }

  /** Such an event does the same under both versions, and decoding again does not change it. */
  lemma NeutralEffect(version: ApiVersion, e: RawEvent, data: Json)
    requires NeutralData(e, data) && version != Auto
    ensures EffectOf(version, e, data) == EffectOf(V2026, e, data)
    ensures EffectOf(version, e, data).Ok? ==>
            RecastEffect(EffectOf(version, e, data).value) == EffectOf(version, e, data).value
  {
    hide Decode.ObjectOf, Decode.VersionNeutral, Decode.DiagnosticsOf, Decode.ObjectsOf, Decode.AllDiagnostics,
         RecastEffect;
    EffectRecast(version, e, data);
    if data.Obj? {
      Decode.VersionMatters(e.objectType, data.fields);
    }
    if data.Arr? && Decode.AllDecodable(e.objectType, data.elems) && e.shape == CollectionReplace {
      NeutralObjects(e.objectType, data.elems);
    }
  }

  lemma NeutralStep(o: Options, c: Core, e: RawEvent)
    requires c.profile != Auto && NeutralData(e, e.data.GetOr(Null))
    requires RecastObjects(c.store.objects) == c.store.objects
    ensures
      var d := CoreStep(o, c, e, e.data.GetOr(Null));
      d.profile != Auto && RecastObjects(d.store.objects) == d.store.objects
  {
    hide EffectOf, RecastObjects, Perform, RecastEffect, VersionHint, NeutralData;
    VersionHints(e.objectType, e.data.GetOr(Null));
    if e.objectType != UnknownType {
      var version := Detect(o, c, e, e.data.GetOr(Null)).profile;
      NeutralEffect(version, e, e.data.GetOr(Null));
      EffectRecast(version, e, e.data.GetOr(Null));
      if EffectOf(version, e, e.data.GetOr(Null)).Ok? {
        PerformRecast(c.store.objects, EffectOf(version, e, e.data.GetOr(Null)).value);
      }
    }
  }

  lemma VersionHints(t: ObjectType, data: Json)
    ensures VersionHint(t, data) != Some(Auto)
  {
  }

  /** A neutral log leaves only clarifications that 2026-01 decodes to the same objects. */
  lemma {:induction false} NeutralReplay(o: Options, c: Core, log: seq<RawEvent>)
    requires c.profile != Auto && AllNeutral(log) && RecastObjects(c.store.objects) == c.store.objects
    ensures
      var d := CoreReplay(o, c, log);
      d.profile != Auto && RecastObjects(d.store.objects) == d.store.objects
  {
    hide RecastObjects, NeutralData, CoreStep;
    if log != [] {
      var e, prefix := log[|log| - 1], log[..|log| - 1];
      NeutralReplay(o, c, prefix);
      NeutralStep(o, CoreReplay(o, c, prefix), e);
    }
  }

  /** Under any version choice, replay through the rolled-back session restores objects and event count if the log up to
      the checkpoint holds only events that both versions read alike. */
  lemma SameSessionReplayOfNeutralLog(o: Options, earlier: seq<RawLine>, later: seq<RawLine>)
    requires o.keepEventLog && AllNeutral(LogOf(Run(o, earlier)))
    ensures
      var saved, now := Run(o, earlier), RunFrom(o, Run(o, earlier), later);
      && |LogOf(saved)| <= |LogOf(now)|
      && SameContents(Replay(o, RolledBack(now, |LogOf(saved)|), LogOf(saved)).core, saved.core)
  {
    hide CoreReplay, RecastObjects, ReadAlikeBy2026, AllNeutral, RunFrom;
    var saved := Run(o, earlier);
    LogRebuildsCore(o, earlier);
    ReplayOnCore(o, Fresh(o), LogOf(saved));
    NothingToRecast();
    NeutralReplay(o, FreshCore(o), LogOf(saved));
    RecastIsIdentity(saved.core);
    SameSessionReplay(o, earlier, later);
  }

  // ---- A feed whose objects do not come back ----

  const GROUP_CLARIFICATION := map["id" := Str("1"), "to_group_ids" := Arr([Str("g")])]

  /** A clarification to a group, which 2023-06 takes for an unknown field. */
  const CLARIFICATION_LINE := RawLine(
    "{\"type\":\"clarifications\",\"id\":\"1\",\"data\":{\"id\":\"1\",\"to_group_ids\":[\"g\"]}}",
    Some(Obj(map["type" := Str("clarifications"), "id" := Str("1"), "data" := Obj(GROUP_CLARIFICATION)])))

  const CONTEST_OF_2026 := map["id" := Str("c"), "penalty_time" := Str("0:20:00")]

  /** A contest whose penalty time gives 2026-01 away. */
  const CONTEST_LINE := RawLine(
    "{\"type\":\"contest\",\"id\":\"c\",\"data\":{\"id\":\"c\",\"penalty_time\":\"0:20:00\"}}",
    Some(Obj(map["type" := Str("contest"), "id" := Str("c"), "data" := Obj(CONTEST_OF_2026)])))

  /** Limits that let both lines pass. */
  predicate TakesBothLines(o: Options) {
    |CLARIFICATION_LINE.text| <= o.maxLineBytes && |CONTEST_LINE.text| <= o.maxLineBytes
  }

  lemma ClarificationLineParses(o: Options, n: nat)
    requires TakesBothLines(o)
    ensures
      var p := ParseLine(CLARIFICATION_LINE, n, o);
      && p.Ok? && p.value.Parsed? && p.value.data == Obj(GROUP_CLARIFICATION)
      && p.value.event.objectType == ClarificationsType && p.value.event.shape == SingleObject
      && p.value.event.id == Some("1")
  {
    hide ParseLine;
    UpsertLineParses(o, CLARIFICATION_LINE, "clarifications", "1", GROUP_CLARIFICATION, n);
  }

  lemma ContestLineParses(o: Options, n: nat)
    requires TakesBothLines(o)
    ensures
      var p := ParseLine(CONTEST_LINE, n, o);
      && p.Ok? && p.value.Parsed? && p.value.data == Obj(CONTEST_OF_2026)
      && p.value.event.objectType == ContestType && p.value.event.shape == SingleObject
  {
    hide ParseLine;
    UpsertLineParses(o, CONTEST_LINE, "contest", "c", CONTEST_OF_2026, n);
  }

  lemma ClarificationStep(o: Options, c: Core, e: RawEvent)
    requires e.objectType == ClarificationsType && e.shape == SingleObject && e.id == Some("1")
    ensures
      var d := CoreStep(o, c, e, Obj(GROUP_CLARIFICATION));
      && d.profile == c.profile && d.detected == c.detected
      && "1" in Clarifications(d)
      && Clarifications(d)["1"] == Decode.ObjectOf(ClarificationsType, GROUP_CLARIFICATION, c.profile)
  {
    hide Decode.ObjectOf, Decode.DiagnosticsOf;
  }

  lemma PenaltyTimeGivesVersion()
    ensures VersionHint(ContestType, Obj(CONTEST_OF_2026)) == Some(V2026)
  {
  }

  lemma ContestStep(o: Options, c: Core, e: RawEvent, data: Json)
    requires o.version == Auto && !c.detected && e.objectType == ContestType && e.shape == SingleObject
    requires VersionHint(ContestType, data) == Some(V2026)
    ensures CoreStep(o, c, e, data).profile == V2026
  {
    hide EffectOf, VersionHint;
  }

  lemma AfterFirstLine(o: Options)
    requires o.version == Auto && TakesBothLines(o)
    ensures
      var s := Run(o, [CLARIFICATION_LINE]);
      && s.core.profile == V2023 && !s.core.detected && !s.finished
      && "1" in Clarifications(s.core)
      && Clarifications(s.core)["1"] == Decode.ObjectOf(ClarificationsType, GROUP_CLARIFICATION, V2023)
  {
    hide ParseLine, Consume, CoreStep, Clarifications, TakesBothLines;
    var lines := [CLARIFICATION_LINE];
    assert lines[..0] == [];
    assert Run(o, []) == Fresh(o);
    assert Run(o, lines) == Consume(o, Fresh(o), CLARIFICATION_LINE);
    ClarificationLineParses(o, 1);
    LineOnCore(o, Fresh(o), CLARIFICATION_LINE);
    ClarificationStep(o, FreshCore(o), ParseLine(CLARIFICATION_LINE, 1, o).value.event);
    CounterIsTrailingRun(o, lines);
  }

  lemma AfterSecondLine(o: Options, s: SessionState)
    requires o.version == Auto && TakesBothLines(o) && !s.core.detected && !s.finished
    ensures RunFrom(o, s, [CONTEST_LINE]).core.profile == V2026
  {
    hide ParseLine, Consume, CoreStep, TakesBothLines, VersionHint;
    assert [CONTEST_LINE][..0] == [];
    var n := s.cursor.lineNo + 1;
    ContestLineParses(o, n);
    LineOnCore(o, s, CONTEST_LINE);
    var p := ParseLine(CONTEST_LINE, n, o).value;
    PenaltyTimeGivesVersion();
    ContestStep(o, s.core, p.event, p.data);
  }

  /** With automatic version choice a feed of two lines, with a checkpoint between them, is enough: replay through the
      rolled-back session gives other objects than were there. */
  lemma SameSessionReplayCanDiffer(o: Options)
    requires o.version == Auto && o.keepEventLog && TakesBothLines(o)
    ensures
      var saved, now := Run(o, [CLARIFICATION_LINE]), Run(o, [CLARIFICATION_LINE, CONTEST_LINE]);
      && |LogOf(saved)| <= |LogOf(now)|
      && !SameContents(Replay(o, RolledBack(now, |LogOf(saved)|), LogOf(saved)).core, saved.core)
  {
    hide Consume, Decode.ObjectOf, Clarifications, Replay, TakesBothLines, SameContents;
    var saved, now := Run(o, [CLARIFICATION_LINE]), Run(o, [CLARIFICATION_LINE, CONTEST_LINE]);
    assert [CONTEST_LINE][..0] == [] && [CLARIFICATION_LINE, CONTEST_LINE][..1] == [CLARIFICATION_LINE];
    assert now == RunFrom(o, saved, [CONTEST_LINE]);
    AfterFirstLine(o);
    AfterSecondLine(o, saved);
    GroupsAreReadDifferently();
    SameSessionReplay(o, [CLARIFICATION_LINE], [CONTEST_LINE]);
  }

  lemma GroupsAreReadDifferently()
    ensures
      var x := Decode.ObjectOf(ClarificationsType, GROUP_CLARIFICATION, V2023);
      Recast(x) != x
  {
    Decode.VersionMatters(ClarificationsType, GROUP_CLARIFICATION);
  }
}
