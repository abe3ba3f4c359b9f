/** What the line parser makes of a document, condition by condition on the document itself. */
module LineMeaning {
  import opened Types
  import opened LineParser

  // ---- Lines without an event ----

  predicate IsBlankText(s: string) {
    forall i | 0 <= i < |s| :: s[i] == '\r' || s[i] == '\n' || s[i] == ' ' || s[i] == '\t'
  }

  /** The text up to its last character that is not blank. */
  ghost predicate IsContent(s: string, text: string) {
    && text != "" && text <= s && IsBlankText(s[|text|..])
    && text[|text| - 1] != '\r' && text[|text| - 1] != '\n' && text[|text| - 1] != ' ' && text[|text| - 1] != '\t'
  }

  lemma ContentIsTrimmed(s: string, text: string)
    requires IsContent(s, text)
    ensures Trim(s) == text
  {
    forall i | |text| <= i < |s|
      ensures IsBlank(s[i])
    {
      assert s[i] == s[|text|..][i - |text|];
    }
    TrimIsUnique(s, |text|);
  }

  /** A line is a keepalive exactly if it is blank. */
  lemma KeepaliveIsBlank(o: Options, line: RawLine, n: nat)
    ensures ParseLine(line, n, o) == Ok(Keepalive) <==> IsBlankText(line.text)
  {
    hide SkeletonError, EventOf;
    if IsBlankText(line.text) {
      TrimIsUnique(line.text, 0);
    } else {
      var i :| 0 <= i < |line.text| && !IsBlank(line.text[i]);
      assert i < |Trim(line.text)|;
      EventsAreParsed(o, line, n);
    }
  }

  lemma EventsAreParsed(o: Options, line: RawLine, n: nat)
    ensures Trim(line.text) != "" ==> ParseLine(line, n, o) != Ok(Keepalive)
  {
  }

  /** Content over the limit and content that is not JSON are errors, in this order. */
  lemma UnreadableLines(o: Options, line: RawLine, text: string, n: nat)
    requires IsContent(line.text, text)
    ensures |text| > o.maxLineBytes ==> ParseLine(line, n, o) == Err(TooLong)
    ensures |text| <= o.maxLineBytes && line.parsed.None? ==> ParseLine(line, n, o) == Err(Malformed)
    ensures |text| <= o.maxLineBytes && line.parsed.Some? && !line.parsed.value.Obj? ==>
            ParseLine(line, n, o) == Err(NotAnObject)
  {
    ContentIsTrimmed(line.text, text);
  }

  // ---- Documents ----

  /** The line holds the JSON object `f` within the limit. */
  ghost predicate IsDocument(o: Options, line: RawLine, text: string, f: map<string, Json>) {
    IsContent(line.text, text) && |text| <= o.maxLineBytes && line.parsed == Some(Obj(f))
  }

  /** Without a type, with one that is no string, without data, with a token that is neither a string nor null:
      errors, in this order. */
  lemma SkeletonErrors(o: Options, line: RawLine, text: string, f: map<string, Json>, n: nat)
    requires IsDocument(o, line, text, f)
    ensures "type" !in f ==> ParseLine(line, n, o) == Err(NoType)
    ensures "type" in f && !f["type"].Str? ==> ParseLine(line, n, o) == Err(BadType)
    ensures "type" in f && f["type"].Str? && "data" !in f ==> ParseLine(line, n, o) == Err(NoData)
    ensures "type" in f && f["type"].Str? && "data" in f && "token" in f && !f["token"].Str? && !f["token"].Null? ==>
            ParseLine(line, n, o) == Err(BadToken)
  {
    ContentIsTrimmed(line.text, text);
  }

  /** A document with a type, data, and a token that is a string, null or absent. */
  predicate HasSkeleton(f: map<string, Json>) {
    && "type" in f && f["type"].Str? && "data" in f
    && ("token" in f ==> f["token"].Str? || f["token"].Null?)
  }

  predicate NoId(f: map<string, Json>) {
    "id" in f ==> f["id"].Null?
  }

  predicate HasStringId(f: map<string, Json>) {
    "id" in f && f["id"].Str?
  }

  /** The shape and data of the event for each form of a document. */
  lemma ShapeOfDocument(o: Options, line: RawLine, text: string, f: map<string, Json>, n: nat)
    requires IsDocument(o, line, text, f) && HasSkeleton(f)
    ensures
      var p, data := ParseLine(line, n, o), f["data"];
      && (HasStringId(f) && data.Null? ==> IsEvent(p, Delete, Obj(map[])))
      && (HasStringId(f) && data.Obj? ==> IsEvent(p, SingleObject, data))
      && (NoId(f) && data.Arr? ==> IsEvent(p, CollectionReplace, data))
      && (NoId(f) && data.Obj? ==> IsEvent(p, SingletonUpdate, data))
      && (NoId(f) && data.Null? ==> IsEvent(p, SingletonUpdate, Obj(map[])))
      && (!NoId(f) && !HasStringId(f) ==> p == Err(BadId))
      && (HasStringId(f) && !data.Null? && !data.Obj? ==> p == Err(BadShape))
      && (NoId(f) && (data.Bool? || data.Int? || data.Real? || data.Str?) ==> p == Err(BadShape))
  {
    hide ObjectTypeFromString;
    ContentIsTrimmed(line.text, text);
  }

  predicate IsEvent(p: Result<LineParse, LineError>, shape: EventShape, data: Json)
  {
    p.Ok? && p.value.Parsed? && p.value.event.shape == shape && p.value.data == data
  }

  /** The other fields of the event. */
  lemma FieldsOfEvent(o: Options, line: RawLine, text: string, f: map<string, Json>, n: nat)
    requires IsDocument(o, line, text, f) && HasSkeleton(f)
    requires ParseLine(line, n, o).Ok?
    ensures ParseLine(line, n, o).value.Parsed?
    ensures
      var e := ParseLine(line, n, o).value.event;
      && e.typeStr == f["type"].s && e.objectType == ObjectTypeFromString(f["type"].s) && e.lineNo == n
      && e.id == (if "id" in f && f["id"].Str? then Some(f["id"].s) else None)
      && e.token == (if "token" in f && f["token"].Str? then Some(f["token"].s) else None)
      && e.data == None && e.rawLine == (if o.keepRawJson then Some(text) else None)
  {
    hide ObjectTypeFromString;
    ContentIsTrimmed(line.text, text);
  }
}
