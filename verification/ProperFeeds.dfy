/** Which feeds leave every object stored under its own id. A single upsert stores under the id of the event, so a
    feed can break this; the standings are proved for stores where it holds. */
module ProperFeeds {
  import opened Types
  import opened Store
  import opened LineParser
  import opened SessionSpec
  import opened EventSourcing
  import opened ErrorRun
  import opened FeedOrder
  import Decode

  /** If the line upserts a single object, the id of the event is the id in its data. */
  predicate ProperLine(o: Options, line: RawLine) {
    match ParseLine(line, 0, o)
    case Ok(Parsed(e, data)) =>
      e.shape == SingleObject && data.Obj? && !IsSingleton(e.objectType) && e.objectType != UnknownType ==>
        e.id == Some(Decode.IdOf(e.objectType, data.fields))
    case _ => true
  }

  lemma ProperLineEffect(o: Options, c: Core, line: RawLine)
    requires ProperLine(o, line)
    ensures ProperEffect(LineEffect(o, c, line))
  {
    hide ParseLine, Detect, Decode.BodyOf, Decode.DiagnosticsOf, Decode.DecodeCollection;
    var p := ParseLine(line, 0, o);
    if p.Ok? && p.value.Parsed? {
      ParsedIsWellShaped(line, 0, o);
    }
  }

  /** A feed of such lines leaves every object under its own id. */
  lemma {:induction false} ProperLinesKeepKeys(o: Options, lines: seq<RawLine>)
    requires forall i | 0 <= i < |lines| :: ProperLine(o, lines[i])
    ensures ProperKeys(Run(o, lines).core.store.objects)
  {
    hide ProperLine, Consume, LineEffect, Perform, ProperEffect;
    if lines != [] {
      var prefix, line := lines[..|lines| - 1], lines[|lines| - 1];
      var s := Run(o, prefix);
      ProperLinesKeepKeys(o, prefix);
      ProperLineEffect(o, s.core, line);
      CounterIsTrailingRun(o, prefix);
      LinePerforms(o, s, line);
      PerformKeepsProperKeys(s.core.store.objects, LineEffect(o, s.core, line));
    }
  }

  /** Exactly when a feed does: whenever the last successful event that touches a key leaves an object there, the object
      has the id of the key. */
  lemma KeysAreProper(o: Options, lines: seq<RawLine>)
    ensures ProperKeys(Run(o, lines).core.store.objects) <==>
            forall t, id | !IsSingleton(t) && LastWrite(Effects(o, lines), t, id).Some? ::
              LastWrite(Effects(o, lines), t, id).value.id == id
  {
    hide Run, Effects, LastWrite;
    var objects := Run(o, lines).core.store.objects;
    if ProperKeys(objects) {
      forall t, id | !IsSingleton(t) && LastWrite(Effects(o, lines), t, id).Some?
        ensures LastWrite(Effects(o, lines), t, id).value.id == id
      {
        LastWriterWins(o, lines, t, id);
        assert id in CollectionOf(objects, t);
      }
    } else {
      var t, id :| !IsSingleton(t) && id in CollectionOf(objects, t) && CollectionOf(objects, t)[id].id != id;
      LastWriterWins(o, lines, t, id);
      assert LastWrite(Effects(o, lines), t, id).Some?;
    }
  }

  // ---- A feed that breaks it ----

  const MISFILED_TEAM := RawLine(
    "{\"type\":\"teams\",\"id\":\"a\",\"data\":{\"id\":\"b\"}}",
    Some(Obj(map["type" := Str("teams"), "id" := Str("a"), "data" := Obj(map["id" := Str("b")])])))

  lemma MisfiledTeamParses(o: Options)
    requires |MISFILED_TEAM.text| <= o.maxLineBytes
    ensures
      var p := ParseLine(MISFILED_TEAM, 0, o);
      && p.Ok? && p.value.Parsed? && p.value.data == Obj(map["id" := Str("b")])
      && p.value.event.objectType == TeamsType && p.value.event.shape == SingleObject && p.value.event.id == Some("a")
  {
    hide ParseLine;
    UpsertLineParses(o, MISFILED_TEAM, "teams", "a", map["id" := Str("b")], 0);
  }

  lemma MisfiledTeamEffect(o: Options, c: Core)
    requires |MISFILED_TEAM.text| <= o.maxLineBytes
    ensures
      var e := LineEffect(o, c, MISFILED_TEAM);
      e.Put? && e.t == TeamsType && e.id == "a" && e.obj.id == "b"
  {
    hide ParseLine, Detect, Decode.BodyOf, Decode.DiagnosticsOf;
    MisfiledTeamParses(o);
  }

  /** One line that names a team differently in the event and in the data. */
  lemma MisfiledTeamBreaksKeys(o: Options)
    requires |MISFILED_TEAM.text| <= o.maxLineBytes
    ensures !ProperKeys(Run(o, [MISFILED_TEAM]).core.store.objects)
  {
    hide Consume, LineEffect;
    var lines := [MISFILED_TEAM];
    assert lines[..0] == [];
    MisfiledTeamEffect(o, FreshCore(o));
    LinePerforms(o, Fresh(o), MISFILED_TEAM);
    var objects := Run(o, lines).core.store.objects;
    assert Run(o, []) == Fresh(o);
    assert "a" in CollectionOf(objects, TeamsType);
  }
}
