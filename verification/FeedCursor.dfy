/** What the cursor and the diagnostics of a session are after a whole feed. */
module FeedCursor {
  import opened Types
  import opened LineParser
  import opened SessionSpec
  import opened ErrorRun
  import Decode

  // ---- Events of a feed ----

  /** The event a line carries, if the line parser accepts it; whether it can be applied does not matter. */
  function EventIn(o: Options, line: RawLine): Option<RawEvent> {
    match ParseLine(line, 0, o)
    case Ok(Parsed(e, _)) => Some(e)
    case _ => None
  }

  /** The line is a state object without an id whose end of updates is a time. */
  predicate AnnouncesEnd(o: Options, line: RawLine) {
    match ParseLine(line, 0, o)
    case Ok(Parsed(e, data)) =>
      && e.objectType == StateType && e.shape == SingletonUpdate && data.Obj?
      && "end_of_updates" in data.fields && data.fields["end_of_updates"].Str?
      && Decode.OptAbsTime(data.fields, "end_of_updates").Some?
    case _ => false
  }

  function EventCount(o: Options, lines: seq<RawLine>): nat {
    if lines == [] then 0
    else EventCount(o, lines[..|lines| - 1]) + if EventIn(o, lines[|lines| - 1]).Some? then 1 else 0
  }

  /** `x` is the value that `get` last gives on an event of the feed, None if it never gives one. */
  ghost predicate IsLastOf(o: Options, lines: seq<RawLine>, get: RawEvent -> Option<string>, x: Option<string>) {
    if x.None?
    then forall i | 0 <= i < |lines| && EventIn(o, lines[i]).Some? :: get(EventIn(o, lines[i]).value) == None
    else exists i | 0 <= i < |lines| :: GivesLast(o, lines, get, i, x)
  }

  ghost predicate GivesLast(o: Options, lines: seq<RawLine>, get: RawEvent -> Option<string>, i: int, x: Option<string>)
    requires 0 <= i < |lines|
  {
    && EventIn(o, lines[i]).Some? && get(EventIn(o, lines[i]).value) == x
    && forall j | i < j < |lines| && EventIn(o, lines[j]).Some? :: get(EventIn(o, lines[j]).value) == None
  }

  lemma LastOfMore(o: Options, lines: seq<RawLine>, get: RawEvent -> Option<string>, x: Option<string>)
    requires lines != [] && IsLastOf(o, lines[..|lines| - 1], get, x)
    ensures
      var e := EventIn(o, lines[|lines| - 1]);
      IsLastOf(o, lines, get, if e.Some? && get(e.value).Some? then get(e.value) else x)
  {
    hide EventIn;
    var last := |lines| - 1;
    var e := EventIn(o, lines[last]);
    if e.Some? && get(e.value).Some? {
      assert GivesLast(o, lines, get, last, get(e.value));
    } else if x.Some? {
      var i :| 0 <= i < last && GivesLast(o, lines[..last], get, i, x);
      forall j | i < j < |lines| && EventIn(o, lines[j]).Some?
        ensures get(EventIn(o, lines[j]).value) == None
      {
        assert j == last || lines[..last][j] == lines[j];
      }
      assert lines[..last][i] == lines[i];
      assert GivesLast(o, lines, get, i, x);
    } else {
      forall j | 0 <= j < |lines| && EventIn(o, lines[j]).Some?
        ensures get(EventIn(o, lines[j]).value) == None
      {
        assert j == last || lines[..last][j] == lines[j];
      }
    }
  }

  // ---- One line on the cursor ----

  lemma EventOnCursor(o: Options, s: SessionState, line: RawLine, e: RawEvent, data: Json)
    requires e.shape == SingletonUpdate ==> data.Obj?
    ensures
      var c := ConsumeEvent(o, s, line, e, data).cursor;
      && c.eventCount == s.cursor.eventCount + 1
      && c.lastToken == (if e.token.Some? then e.token else s.cursor.lastToken)
      && c.lastEventId == (if e.id.Some? then e.id else s.cursor.lastEventId)
      && (c.endOfUpdates <==>
          s.cursor.endOfUpdates ||
          (e.objectType == StateType && e.shape == SingletonUpdate
           && "end_of_updates" in data.fields && data.fields["end_of_updates"].Str?
           && Decode.OptAbsTime(data.fields, "end_of_updates").Some?))
  {
    hide CoreStep, EventDiagnostics, EventStatus, Detect, AddDiagnostics;
  }

  lemma LineOnCursor(o: Options, s: SessionState, line: RawLine)
    requires !s.finished
    ensures
      var c, e := Consume(o, s, line).cursor, EventIn(o, line);
      && c.eventCount == s.cursor.eventCount + (if e.Some? then 1 else 0)
      && c.lastToken == (if e.Some? && e.value.token.Some? then e.value.token else s.cursor.lastToken)
      && c.lastEventId == (if e.Some? && e.value.id.Some? then e.value.id else s.cursor.lastEventId)
      && (c.endOfUpdates <==> s.cursor.endOfUpdates || AnnouncesEnd(o, line))
  {
    hide ParseLine, ConsumeEvent, Decode.OptAbsTime;
    var n := s.cursor.lineNo + 1;
    LineNumberIsALabel(line, 0, n, o);
    var p := ParseLine(line, n, o);
    if p.Ok? && p.value.Parsed? {
      ParsedIsWellShaped(line, n, o);
      EventOnCursor(o, s.(cursor := s.cursor.(lineNo := n)), line, p.value.event, p.value.data);
    }
  }

  /** After any feed, whatever fails in it: the event count is the number of lines that carry an event, the last
      token and the last id are those of the last such line that has one, and the end of updates is marked exactly if
      a state object without an id announced it. */
  lemma {:induction false} CursorOfFeed(o: Options, lines: seq<RawLine>)
    ensures
      var c := Run(o, lines).cursor;
      && c.lineNo == |lines|
      && c.eventCount == EventCount(o, lines)
      && IsLastOf(o, lines, (e: RawEvent) => e.token, c.lastToken)
      && IsLastOf(o, lines, (e: RawEvent) => e.id, c.lastEventId)
      && (c.endOfUpdates <==> exists i | 0 <= i < |lines| :: AnnouncesEnd(o, lines[i]))
  {
    hide Consume, EventIn, AnnouncesEnd, IsLastOf;
    CounterIsTrailingRun(o, lines);
    if lines == [] {
      NothingLast(o, (e: RawEvent) => e.token);
      NothingLast(o, (e: RawEvent) => e.id);
    } else {
      var prefix, line := lines[..|lines| - 1], lines[|lines| - 1];
      CursorOfFeed(o, prefix);
      CounterIsTrailingRun(o, prefix);
      LineOnCursor(o, Run(o, prefix), line);
      LastOfMore(o, lines, (e: RawEvent) => e.token, Run(o, prefix).cursor.lastToken);
      LastOfMore(o, lines, (e: RawEvent) => e.id, Run(o, prefix).cursor.lastEventId);
      forall i | 0 <= i < |prefix|
        ensures prefix[i] == lines[i]
      {
      }
    }
  }

  lemma NothingLast(o: Options, get: RawEvent -> Option<string>)
    ensures IsLastOf(o, [], get, None)
  {
  }

  // ---- Diagnostics ----

  /** A line the parser rejects is reported with a code of its own and its number, and once more if the limit of
      consecutive errors is reached. */
  lemma ErrorsAreReported(o: Options, s: SessionState, line: RawLine, code: DiagnosticCode)
    requires !s.finished && ParseLine(line, s.cursor.lineNo + 1, o).Err?
    requires
      match ParseLine(line, s.cursor.lineNo + 1, o).error
      case TooLong => code == LineTooLong
      case Malformed => code == MalformedJson
      case NotAnObject => code == NonObjectRoot
      case NoType => code == MissingType
      case BadType => code == InvalidTypeField
      case NoData => code == MissingData
      case BadToken => code == InvalidTokenType
      case BadId => code == InvalidIdType
      case BadShape => code == MalformedJson
    ensures
      var n, raw := s.cursor.lineNo + 1, if o.keepRawJson then Some(line.text) else None;
      var first := Diagnostic(Severe, code, n, raw, None, None);
      var limit := Diagnostic(Severe, MaxConsecutiveErrorsExceeded, n, None, None, None);
      Consume(o, s, line).diagnostics ==
        AddDiagnostics(o, s.diagnostics,
                       if s.consecutiveErrors + 1 >= o.maxConsecutiveErrors then [first, limit] else [first])
  {
    hide ParseLine, AddDiagnostics;
  }

  /** Of several diagnostics the first are kept, up to the limit. */
  lemma {:induction false} DiagnosticsAreCut(o: Options, ds: seq<Diagnostic>, more: seq<Diagnostic>)
    requires |ds| <= o.maxDiagnostics
    ensures
      var all := ds + more;
      AddDiagnostics(o, ds, more) == if |all| <= o.maxDiagnostics then all else all[..o.maxDiagnostics]
  {
    if more == [] {
      assert ds + more == ds;
    } else {
      var last := |more| - 1;
      DiagnosticsAreCut(o, ds, more[..last]);
      assert ds + more == (ds + more[..last]) + [more[last]];
    }
  }
}
