/** Failing lines: which lines fail, that they change nothing, how they are counted, and where the driver stops. */
module ErrorRun {
  import opened Types
  import opened Store
  import opened LineParser
  import opened SessionSpec
  import opened Session
  import Decode

  // ---- Which lines fail ----

  /** Whether applying an event fails: an unknown type under the error policy, or an array with a bad element. */
  predicate EventFails(o: Options, e: RawEvent, data: Json) {
    if e.objectType == UnknownType then o.unknownTypePolicy == Error
    else e.shape == CollectionReplace && !(data.Arr? && Decode.AllDecodable(e.objectType, data.elems))
  }

  /** Whether a line fails. It depends on the line and the options alone, not on what came before. */
  predicate Fails(o: Options, line: RawLine) {
    match ParseLine(line, 0, o)
    case Err(_) => true
    case Ok(Keepalive) => false
    case Ok(Parsed(e, data)) => EventFails(o, e, data)
  }

  lemma EffectFails(o: Options, version: ApiVersion, e: RawEvent, data: Json)
    requires WellShaped(e, data) && e.objectType != UnknownType
    ensures EffectOf(version, e, data).Err? <==> EventFails(o, e, data)
    ensures EffectOf(version, e, data).Err? ==> EffectOf(version, e, data).error == ParseError
  {
  }

  lemma EventStatusFails(o: Options, version: ApiVersion, e: RawEvent, data: Json)
    requires WellShaped(e, data)
    ensures EventStatus(o, version, e, data) == if EventFails(o, e, data) then ParseError else Good
  {
    if e.objectType != UnknownType {
      EffectFails(o, version, e, data);
    }
  }

  // ---- Atomic failure ----

  /** What a reader of the store and the cursor sees of an event. */
  predicate SameObservations(s: SessionState, s': SessionState) {
    && s'.core.store.objects == s.core.store.objects
    && s'.core.store.eventCount == s.core.store.eventCount
    && s'.cursor.endOfUpdates == s.cursor.endOfUpdates
  }

  lemma FailingEventIsAtomic(o: Options, s: SessionState, e: RawEvent, data: Json)
    requires WellShaped(e, data) && EventFails(o, e, data)
    ensures SameObservations(s, ApplyEvent(o, s, e, data))
  {
    if e.objectType != UnknownType {
      EffectFails(o, Detect(o, s.core, e, data).profile, e, data);
    }
  }

  /** What a session knows about a line once it is parsed under its own number. */
  lemma ParsedLine(o: Options, c: Core, line: RawLine, n: nat)
    ensures
      var p := ParseLine(line, n, o);
      match p
      case Err(_) => Fails(o, line)
      case Ok(Keepalive) => !Fails(o, line)
      case Ok(Parsed(e, data)) =>
        && WellShaped(e, data) && e.lineNo == n
        && (Fails(o, line) <==> EventFails(o, e, data))
        && ApplyStatus(o, c, e, data) == if Fails(o, line) then ParseError else Good
  {
    LineNumberIsALabel(line, 0, n, o);
    var p := ParseLine(line, n, o);
    if p.Ok? && p.value.Parsed? {
      ParsedIsWellShaped(line, n, o);
      EventStatusFails(o, Detect(o, c, p.value.event, p.value.data).profile, p.value.event, p.value.data);
    }
  }

  /** A failing line leaves both singletons, all collections, the event count and the end-of-updates mark as they were,
      in any state, although it may be logged and may fix the version. */
  lemma FailingLineIsAtomic(o: Options, s: SessionState, line: RawLine)
    requires Fails(o, line)
    ensures SameObservations(s, Consume(o, s, line))
  {
    hide ParseLine, Fails, ApplyStatus, ApplyEvent, EventFails;
    var n := s.cursor.lineNo + 1;
    ParsedLine(o, s.core, line, n);
    var p := ParseLine(line, n, o);
    if !s.finished && p.Ok? && p.value.Parsed? {
      FailingEventIsAtomic(o, s.(cursor := s.cursor.(lineNo := n)), p.value.event, p.value.data);
    }
  }

  /** An array replaces its collection if every element decodes, and changes nothing otherwise, whatever its length. */
  lemma ReplaceIsAllOrNothing(o: Options, c: Core, e: RawEvent, data: Json)
    requires WellShaped(e, data) && e.shape == CollectionReplace && e.objectType != UnknownType
    ensures
      var version := Detect(o, c, e, data).profile;
      CoreStep(o, c, e, data).store.objects ==
        if Decode.AllDecodable(e.objectType, data.elems)
        then Perform(c.store.objects, Replace(e.objectType, Decode.ObjectsOf(e.objectType, data.elems, version)))
        else c.store.objects
  {
  }

  // ---- Counting failures ----

  /** The length of the run of failing lines at the end of a feed. */
  function Trailing(o: Options, lines: seq<RawLine>): nat {
    if lines == [] || !Fails(o, lines[|lines| - 1]) then 0 else 1 + Trailing(o, lines[..|lines| - 1])
  }

  /** The last n lines fail and the one before them, if any, does not: that is what the trailing run is. */
  lemma {:induction false} TrailingIsTheLastRun(o: Options, lines: seq<RawLine>, n: nat)
    requires n <= |lines|
    requires forall i | |lines| - n <= i < |lines| :: Fails(o, lines[i])
    requires n < |lines| ==> !Fails(o, lines[|lines| - n - 1])
    ensures Trailing(o, lines) == n
  {
    if n > 0 {
      TrailingIsTheLastRun(o, lines[..|lines| - 1], n - 1);
    }
  }

  lemma ConsumeEventCounts(o: Options, s: SessionState, line: RawLine, e: RawEvent, data: Json)
    ensures ConsumeEvent(o, s, line, e, data).consecutiveErrors ==
            if ApplyStatus(o, s.core, e, data) == Good then 0 else s.consecutiveErrors + 1
    ensures ConsumeEvent(o, s, line, e, data).finished == s.finished
    ensures ConsumeEvent(o, s, line, e, data).cursor.lineNo == e.lineNo
  {
  }

  lemma ConsumeCounts(o: Options, s: SessionState, line: RawLine)
    requires !s.finished
    ensures Consume(o, s, line).consecutiveErrors == if Fails(o, line) then s.consecutiveErrors + 1 else 0
    ensures !Consume(o, s, line).finished && Consume(o, s, line).cursor.lineNo == s.cursor.lineNo + 1
  {
    hide ParseLine, Fails, ApplyStatus, ConsumeEvent;
    var n := s.cursor.lineNo + 1;
    ParsedLine(o, s.core, line, n);
    var p := ParseLine(line, n, o);
    if p.Ok? && p.value.Parsed? {
      ConsumeEventCounts(o, s.(cursor := s.cursor.(lineNo := n)), line, p.value.event, p.value.data);
    }
  }

  /** After any feed the error counter is the length of its trailing run of failing lines, and the line number is the
      number of lines. */
  lemma {:induction false} CounterIsTrailingRun(o: Options, lines: seq<RawLine>)
    ensures Run(o, lines).consecutiveErrors == Trailing(o, lines)
    ensures !Run(o, lines).finished && Run(o, lines).cursor.lineNo == |lines|
  {
    if lines != [] {
      CounterIsTrailingRun(o, lines[..|lines| - 1]);
      ConsumeCounts(o, Run(o, lines[..|lines| - 1]), lines[|lines| - 1]);
    }
  }

  lemma StatusOfLine(o: Options, s: SessionState, line: RawLine)
    requires !s.finished
    ensures ConsumeStatus(o, s, line) ==
            if !Fails(o, line) then Good else FailureStatus(o, s.consecutiveErrors + 1)
  {
    hide ParseLine, Fails, ApplyStatus;
    ParsedLine(o, s.core, line, s.cursor.lineNo + 1);
  }

  // ---- The driver ----

  datatype ParseResult = ParseResult(resolved: ApiVersion, store: StoreValue, cursor: EventCursor,
                                     diagnostics: seq<Diagnostic>)

  function ResultOf(s: SessionState): ParseResult {
    ParseResult(s.core.resolved, s.core.store, s.cursor, s.diagnostics)
  }

  /** The feed ends in a run of failing lines that reaches the limit; a limit of 0 acts like 1. */
  predicate AtLimit(o: Options, lines: seq<RawLine>) {
    Trailing(o, lines) >= if o.maxConsecutiveErrors == 0 then 1 else o.maxConsecutiveErrors
  }

  /** `n` is the length of the shortest prefix at the limit, or of the whole input if there is none. */
  ghost predicate ConsumesExactly(o: Options, lines: seq<RawLine>, n: nat) {
    && n <= |lines|
    && (forall m | 0 <= m < n :: !AtLimit(o, lines[..m]))
    && (n < |lines| ==> AtLimit(o, lines[..n]))
  }

  lemma StopsHere(o: Options, lines: seq<RawLine>, n: nat)
    requires n < |lines|
    ensures ConsumeStatus(o, Run(o, lines[..n]), lines[n]) == LimitExceeded <==> AtLimit(o, lines[..n + 1])
    ensures ConsumeStatus(o, Run(o, lines[..n]), lines[n]) ==
            if !Fails(o, lines[n]) then Good else FailureStatus(o, Trailing(o, lines[..n + 1]))
    ensures Run(o, lines[..n + 1]) == Consume(o, Run(o, lines[..n]), lines[n])
  {
    assert lines[..n + 1][..n] == lines[..n];
    CounterIsTrailingRun(o, lines[..n]);
    StatusOfLine(o, Run(o, lines[..n]), lines[n]);
  }

  /** How far the read loop got, and what the lines it read were like. */
  ghost predicate Progress(o: Options, lines: seq<RawLine>, n: nat) {
    && n <= |lines|
    && (forall m | 0 <= m <= n :: !AtLimit(o, lines[..m]))
    && (o.errorPolicy == FailFast ==> forall i | 0 <= i < n :: !Fails(o, lines[i]))
  }

  lemma ProgressStep(o: Options, lines: seq<RawLine>, n: nat)
    requires n < |lines| && Progress(o, lines, n) && !AtLimit(o, lines[..n + 1])
    requires o.errorPolicy == FailFast ==> !Fails(o, lines[n])
    ensures Progress(o, lines, n + 1)
  {
  }

  /** One line of the loop. A status other than Good names the reason to stop. */
  method FeedOne(session: StreamingParseSession, o: Options, lines: seq<RawLine>, n: nat) returns (status: Status)
    requires n < |lines| && session.options == o && session.State() == Run(o, lines[..n]) && Progress(o, lines, n)
    modifies session, session.store
    ensures session.State() == Run(o, lines[..n + 1])
    ensures status == Good || status == LimitExceeded || (status == ParseError && o.errorPolicy == FailFast)
    ensures status == Good ==> Progress(o, lines, n + 1)
    ensures status != Good ==> Fails(o, lines[n]) && (status == LimitExceeded <==> AtLimit(o, lines[..n + 1]))
  {
    StopsHere(o, lines, n);
    status := session.ConsumeLine(lines[n]);
    if status == Good {
      ProgressStep(o, lines, n);
    }
  }

  lemma StartOfRun(o: Options, lines: seq<RawLine>)
    ensures Progress(o, lines, 0)
  {
    assert lines[..0] == [];
  }

  /** The read loop: feeds lines until the limit, or until a failing line under fail-fast. */
  method FeedLines(session: StreamingParseSession, o: Options, lines: seq<RawLine>) returns (status: Status, n: nat)
    requires session.options == o && session.State() == Run(o, [])
    modifies session, session.store
    ensures n <= |lines| && session.State() == Run(o, lines[..n])
    ensures status == Good ==> n == |lines| && Progress(o, lines, n)
    ensures status != Good ==> n > 0 && Progress(o, lines, n - 1) && Fails(o, lines[n - 1])
    ensures status == Good || status == LimitExceeded || status == ParseError
    ensures status == LimitExceeded ==> AtLimit(o, lines[..n])
    ensures status == ParseError ==> o.errorPolicy == FailFast && !AtLimit(o, lines[..n])
  {
    hide Run, Progress, Fails, AtLimit;
    n := 0;
    assert lines[..0] == [];
    StartOfRun(o, lines);
    while n < |lines|
      invariant 0 <= n <= |lines|
      invariant session.State() == Run(o, lines[..n])
      invariant Progress(o, lines, n)
    {
      status := FeedOne(session, o, lines, n);
      n := n + 1;
      if status != Good {
        if status == LimitExceeded {
          return;
        }
        if o.errorPolicy == FailFast {
          return;
        }
      }
    }
    status := Good;
  }

  /** The shortest failing prefix: fail-fast with a limit of at least 2 stops at the first failing line. */
  lemma OneFailureIsBelowTheLimit(o: Options, lines: seq<RawLine>, n: nat)
    requires 0 < n <= |lines| && Fails(o, lines[n - 1]) && forall i | 0 <= i < n - 1 :: !Fails(o, lines[i])
    ensures AtLimit(o, lines[..n]) <==> o.maxConsecutiveErrors <= 1
  {
    TrailingIsTheLastRun(o, lines[..n], 1);
  }

  /** Reading a stream succeeds with the result of feeding exactly the shortest prefix at the limit (or everything); it
      fails exactly under fail-fast with a limit of at least 2 and some failing line. */
  method ParseStream(o: Options, lines: seq<RawLine>) returns (r: Result<ParseResult, Status>, ghost n: nat)
    ensures r.Ok? ==> ConsumesExactly(o, lines, n) && r.value == ResultOf(Run(o, lines[..n]))
    ensures r.Err? <==> o.errorPolicy == FailFast && o.maxConsecutiveErrors >= 2 &&
                        exists i | 0 <= i < |lines| :: Fails(o, lines[i])
    ensures r.Err? ==> r.error == ParseError
  {
    var session := new StreamingParseSession(o);
    var status, consumed := FeedLines(session, o, lines);
    n := consumed;
    if status == ParseError {
      OneFailureIsBelowTheLimit(o, lines, n);
      return Err(status), n;
    }
    if status == LimitExceeded && o.errorPolicy == FailFast {
      assert Trailing(o, lines[..n]) > 0;
      assert Fails(o, lines[n - 1]);
      OneFailureIsBelowTheLimit(o, lines, n);
    }
    session.Finish();
    var s := session.State();
    r := Ok(ResultOf(s));
  }
}
