/** The event log as the source of truth: replaying it rebuilds the store, also after a rollback. */
module EventSourcing {
  import opened Types
  import opened Store
  import opened LineParser
  import opened SessionSpec
  import opened ErrorRun

  function LogOf(s: SessionState): seq<RawEvent> {
    s.core.store.eventLog
  }

  /** Replay as far as the core is concerned. */
  function CoreReplay(o: Options, c: Core, log: seq<RawEvent>): Core {
    if log == [] then c
    else
      var last := log[|log| - 1];
      CoreStep(o, CoreReplay(o, c, log[..|log| - 1]), last, last.data.GetOr(Null))
  }

  lemma {:induction false} ReplayOnCore(o: Options, s: SessionState, log: seq<RawEvent>)
    ensures Replay(o, s, log).core == CoreReplay(o, s.core, log)
  {
    if log != [] {
      ReplayOnCore(o, s, log[..|log| - 1]);
    }
  }

  // ---- One line on the core ----

  lemma EventOnCore(o: Options, s: SessionState, line: RawLine, e: RawEvent, data: Json)
    ensures ConsumeEvent(o, s, line, e, data).core == CoreStep(o, s.core, e, data)
  {
  }

  lemma ParsedDataIsSet(line: RawLine, n: nat, o: Options)
    ensures
      var p := ParseLine(line, n, o);
      p.Ok? && p.value.Parsed? ==> p.value.event.data.None? && !p.value.data.Null?
  {
  }

  lemma ParseOnCore(o: Options, s: SessionState, line: RawLine, p: Result<LineParse, LineError>)
    ensures ConsumeParse(o, s, line, p).core ==
            if p.Ok? && p.value.Parsed? then CoreStep(o, s.core, p.value.event, p.value.data) else s.core
  {
    if p.Ok? && p.value.Parsed? {
      EventOnCore(o, s, line, p.value.event, p.value.data);
    }
  }

  /** What a line does to the core: nothing, or one step with the event it carries, whether or not the event fails. */
  lemma LineOnCore(o: Options, s: SessionState, line: RawLine)
    ensures
      var p := ParseLine(line, s.cursor.lineNo + 1, o);
      Consume(o, s, line).core ==
        if !s.finished && p.Ok? && p.value.Parsed? then CoreStep(o, s.core, p.value.event, p.value.data) else s.core
    ensures
      var p := ParseLine(line, s.cursor.lineNo + 1, o);
      p.Ok? && p.value.Parsed? ==> p.value.event.data.None? && !p.value.data.Null?
  {
    hide ParseLine, CoreStep, ConsumeParse;
    var n := s.cursor.lineNo + 1;
    var p := ParseLine(line, n, o);
    ParsedDataIsSet(line, n, o);
    if !s.finished {
      ParseOnCore(o, s.(cursor := s.cursor.(lineNo := n)), line, p);
    }
  }

  /** A logged event stands for the event it was made from. */
  lemma LoggedEventRepeats(o: Options, c: Core, e: RawEvent, data: Json)
    requires e.data.None? && !data.Null?
    ensures Logged(e, data).data == Some(data)
    ensures CoreStep(o, c, Logged(e, data), data) == CoreStep(o, c, e, data)
  {
    if e.objectType != UnknownType {
      SameEffectWhenLogged(Detect(o, c, e, data).profile, e, data);
    }
  }

  lemma SameEffectWhenLogged(version: ApiVersion, e: RawEvent, data: Json)
    ensures EffectOf(version, Logged(e, data), data) == EffectOf(version, e, data)
  {
  }

  lemma StepExtendsLog(o: Options, c: Core, e: RawEvent, data: Json)
    ensures CoreStep(o, c, e, data).store.eventLog ==
            c.store.eventLog + if o.keepEventLog && e.objectType != UnknownType then [Logged(e, data)] else []
    ensures e.objectType == UnknownType ==> CoreStep(o, c, e, data) == c
  {
  }

  // ---- Event sourcing ----

  lemma ReplayOneMore(o: Options, c: Core, log: seq<RawEvent>, e: RawEvent)
    ensures CoreReplay(o, c, log + [e]) == CoreStep(o, CoreReplay(o, c, log), e, e.data.GetOr(Null))
  {
    assert (log + [e])[..|log|] == log;
  }

  /** At every point of every run that keeps its log, replaying the log from a fresh session rebuilds the whole core:
      objects, event count, version and the log itself, although the log holds failed events and no unknown ones. */
  lemma {:induction false} LogRebuildsCore(o: Options, lines: seq<RawLine>)
    requires o.keepEventLog
    ensures Replay(o, Fresh(o), LogOf(Run(o, lines))).core == Run(o, lines).core
  {
    ReplayOnCore(o, Fresh(o), LogOf(Run(o, lines)));
    if lines != [] {
      var before, line := Run(o, lines[..|lines| - 1]), lines[|lines| - 1];
      LogRebuildsCore(o, lines[..|lines| - 1]);
      ReplayOnCore(o, Fresh(o), LogOf(before));
      LineRebuilds(o, before, line);
    }
  }

  lemma LineRebuilds(o: Options, s: SessionState, line: RawLine)
    requires o.keepEventLog && CoreReplay(o, FreshCore(o), LogOf(s)) == s.core
    ensures CoreReplay(o, FreshCore(o), LogOf(Consume(o, s, line))) == Consume(o, s, line).core
  {
    LineOnCore(o, s, line);
    var p := ParseLine(line, s.cursor.lineNo + 1, o);
    if !s.finished && p.Ok? && p.value.Parsed? {
      StepRebuilds(o, s.core, p.value.event, p.value.data);
    }
  }

  lemma StepRebuilds(o: Options, c: Core, e: RawEvent, data: Json)
    requires o.keepEventLog && CoreReplay(o, FreshCore(o), c.store.eventLog) == c
    requires e.data.None? && !data.Null?
    ensures CoreReplay(o, FreshCore(o), CoreStep(o, c, e, data).store.eventLog) == CoreStep(o, c, e, data)
  {
    StepExtendsLog(o, c, e, data);
    if e.objectType != UnknownType {
      ReplayOneMore(o, FreshCore(o), c.store.eventLog, Logged(e, data));
      LoggedEventRepeats(o, c, e, data);
    }
  }

  // ---- Rollback ----

  /** The session after `Rollback` to a checkpoint: objects cleared, log cut, everything else kept. */
  function RolledBack(s: SessionState, index: nat): SessionState
    requires index <= |LogOf(s)|
  {
    s.(core := s.core.(store := StoreValue(NO_OBJECTS, LogOf(s)[..index], 0)))
  }

  lemma {:induction false} LogOnlyGrows(o: Options, s: SessionState, lines: seq<RawLine>)
    ensures LogOf(s) <= LogOf(RunFrom(o, s, lines))
  {
    if lines != [] {
      var before, line := RunFrom(o, s, lines[..|lines| - 1]), lines[|lines| - 1];
      LogOnlyGrows(o, s, lines[..|lines| - 1]);
      LineOnCore(o, before, line);
      var p := ParseLine(line, before.cursor.lineNo + 1, o);
      if p.Ok? && p.value.Parsed? {
        StepExtendsLog(o, before.core, p.value.event, p.value.data);
      }
    }
  }

  /** A checkpoint taken after `earlier` lines stays valid while `later` lines are fed; rolling back to it leaves the
      log it was taken with, and replaying that log in a fresh session gives back the core held at the checkpoint. */
  lemma RollbackThenFreshReplay(o: Options, earlier: seq<RawLine>, later: seq<RawLine>)
    requires o.keepEventLog
    ensures
      var saved, now := Run(o, earlier), RunFrom(o, Run(o, earlier), later);
      && |LogOf(saved)| <= |LogOf(now)|
      && Replay(o, Fresh(o), LogOf(RolledBack(now, |LogOf(saved)|))).core == saved.core
  {
    var saved, now := Run(o, earlier), RunFrom(o, Run(o, earlier), later);
    LogOnlyGrows(o, saved, later);
    LogRebuildsCore(o, earlier);
    assert LogOf(RolledBack(now, |LogOf(saved)|)) == LogOf(saved);
  }

  lemma {:induction false} ExplicitVersionIsFixed(o: Options, s: SessionState, lines: seq<RawLine>)
    requires o.version != Auto
    ensures RunFrom(o, s, lines).core.profile == s.core.profile
  {
    if lines != [] {
      ExplicitVersionIsFixed(o, s, lines[..|lines| - 1]);
      LineOnCore(o, RunFrom(o, s, lines[..|lines| - 1]), lines[|lines| - 1]);
    }
  }
}
