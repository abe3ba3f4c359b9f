/** One line of an NDJSON event feed: trimming, skeleton checks, and the shape of the event.

    JSON parsing is a library call; a line carries what it gives for the trimmed text. */
module LineParser {
  import opened Types

  /** `parsed` is the JSON document of the trimmed text, None if the library reports a parse error. */
  datatype RawLine = RawLine(text: string, parsed: Option<Json>)

  datatype LineError =
    | TooLong | Malformed | NotAnObject | NoType | BadType | NoData | BadToken | BadId | BadShape

  /** The diagnostic code of a parse error; a bad data shape is filed under malformed JSON. */
  function CodeOf(e: LineError): DiagnosticCode {
    match e
    case TooLong => LineTooLong
    case Malformed => MalformedJson
    case NotAnObject => NonObjectRoot
    case NoType => MissingType
    case BadType => InvalidTypeField
    case NoData => MissingData
    case BadToken => InvalidTokenType
    case BadId => InvalidIdType
    case BadShape => MalformedJson
  }

  datatype LineParse = Keepalive | Parsed(event: RawEvent, data: Json)

  predicate IsBlank(c: char) {
    c == '\r' || c == '\n' || c == ' ' || c == '\t'
  }

  /** The text without trailing blanks. */
  function Trim(s: string): (r: string)
    ensures |r| <= |s| && r == s[..|r|]
    ensures r != "" ==> !IsBlank(r[|r| - 1])
    ensures forall i | |r| <= i < |s| :: IsBlank(s[i])
  {
    if s != "" && IsBlank(s[|s| - 1]) then Trim(s[..|s| - 1]) else s
  }

  /** There is only one way to cut a text so that blanks, and nothing else, go. */
  lemma TrimIsUnique(s: string, n: nat)
    requires n <= |s| && (n > 0 ==> !IsBlank(s[n - 1])) && forall i | n <= i < |s| :: IsBlank(s[i])
    ensures Trim(s) == s[..n]
  {
    var r := Trim(s);
    assert |r| <= n by {
      assert |r| > 0 ==> r[|r| - 1] == s[|r| - 1];
    }
  }

  /** The shape of an event by whether it has an id and what its data is; None if the combination is not allowed. */
  function ShapeOf(hasId: bool, data: Json): Option<EventShape> {
    if hasId then
      if data.Null? then Some(Delete) else if data.Obj? then Some(SingleObject) else None
    else
      if data.Arr? then Some(CollectionReplace)
      else if data.Obj? || data.Null? then Some(SingletonUpdate)
      else None
  }

  predicate Present(f: map<string, Json>, key: string) {
    key in f && !f[key].Null?
  }

  /** Checks of the document, in the order of the program. */
  function SkeletonError(doc: Json): Option<LineError> {
    if !doc.Obj? then Some(NotAnObject)
    else
      var f := doc.fields;
      if "type" !in f then Some(NoType)
      else if !f["type"].Str? then Some(BadType)
      else if "data" !in f then Some(NoData)
      else if Present(f, "token") && !f["token"].Str? then Some(BadToken)
      else if Present(f, "id") && !f["id"].Str? then Some(BadId)
      else if ShapeOf(Present(f, "id"), f["data"]).None? then Some(BadShape)
      else None
  }

  function EventOf(f: map<string, Json>, text: string, lineNo: nat, o: Options): LineParse
    requires SkeletonError(Obj(f)).None?
  {
    var event := RawEvent(
      f["type"].s, ObjectTypeFromString(f["type"].s), OptString(f, "id"), ShapeOf(Present(f, "id"), f["data"]).value,
      OptString(f, "token"), lineNo, None, if o.keepRawJson then Some(text) else None);
    Parsed(event, if f["data"].Null? then Obj(map[]) else f["data"])
  }

  function ParseLine(line: RawLine, lineNo: nat, o: Options): Result<LineParse, LineError> {
    var text := Trim(line.text);
    if text == "" then Ok(Keepalive)
    else if |text| > o.maxLineBytes then Err(TooLong)
    else if line.parsed.None? then Err(Malformed)
    else
      var e := SkeletonError(line.parsed.value);
      if e.Some? then Err(e.value) else Ok(EventOf(line.parsed.value.fields, text, lineNo, o))
  }

  /** The program's parser: a loop trims the text, then branches fill the event field by field. */
  method ParseNdjsonLine(line: RawLine, lineNo: nat, o: Options) returns (r: Result<LineParse, LineError>)
    ensures r == ParseLine(line, lineNo, o)
  {
    var text := line.text;
    while text != "" && IsBlank(text[|text| - 1])
      invariant Trim(text) == Trim(line.text)
      decreases |text|
    {
      text := text[..|text| - 1];
    }
    if text == "" {
      return Ok(Keepalive);
    }
    if |text| > o.maxLineBytes {
      return Err(TooLong);
    }
    if line.parsed.None? {
      return Err(Malformed);
    }
    r := ReadSkeleton(line.parsed.value, text, lineNo, o);
  }

  method ReadSkeleton(doc: Json, text: string, lineNo: nat, o: Options) returns (r: Result<LineParse, LineError>)
    ensures r == var e := SkeletonError(doc); if e.Some? then Err(e.value) else Ok(EventOf(doc.fields, text, lineNo, o))
  {
    if !doc.Obj? {
      return Err(NotAnObject);
    }
    var f := doc.fields;
    if "type" !in f {
      return Err(NoType);
    }
    if !f["type"].Str? {
      return Err(BadType);
    }
    if "data" !in f {
      return Err(NoData);
    }
    var data := f["data"];
    var event := RawEvent(f["type"].s, ObjectTypeFromString(f["type"].s), None, SingleObject, None, lineNo, None, None);
    if "token" in f {
      if f["token"].Str? {
        event := event.(token := Some(f["token"].s));
      } else if !f["token"].Null? {
        return Err(BadToken);
      }
    }
    if o.keepRawJson {
      event := event.(rawLine := Some(text));
    }
    if "id" in f && !f["id"].Null? {
      if !f["id"].Str? {
        return Err(BadId);
      }
      event := event.(id := Some(f["id"].s));
      if data.Null? {
        event := event.(shape := Delete);
      } else if data.Obj? {
        event := event.(shape := SingleObject);
      } else {
        return Err(BadShape);
      }
    } else {
      if data.Arr? {
        event := event.(shape := CollectionReplace);
      } else if data.Obj? {
        event := event.(shape := SingletonUpdate);
      } else if data.Null? {
        event := event.(shape := SingletonUpdate);
      } else {
        return Err(BadShape);
      }
    }
    return Ok(Parsed(event, if data.Null? then Obj(map[]) else data));
  }

  /** What later stages rely on: deletes and single objects have an id, and the data has the form of the shape. */
  ghost predicate WellShaped(e: RawEvent, data: Json) {
    && (e.shape == Delete || e.shape == SingleObject <==> e.id.Some?)
    && (e.shape == CollectionReplace <==> data.Arr?)
    && (e.shape != CollectionReplace <==> data.Obj?)
    && e.objectType == ObjectTypeFromString(e.typeStr)
  }

  lemma ParsedIsWellShaped(line: RawLine, lineNo: nat, o: Options)
    requires ParseLine(line, lineNo, o).Ok? && ParseLine(line, lineNo, o).value.Parsed?
    ensures WellShaped(ParseLine(line, lineNo, o).value.event, ParseLine(line, lineNo, o).value.data)
  {
  }

  /** The line number only labels the event. */
  lemma LineNumberIsALabel(line: RawLine, n: nat, m: nat, o: Options)
    ensures
      var a, b := ParseLine(line, n, o), ParseLine(line, m, o);
      && (a.Ok? <==> b.Ok?)
      && (a.Ok? ==> (a.value.Parsed? <==> b.value.Parsed?))
      && (a.Ok? && a.value.Parsed? ==> b.value == Parsed(a.value.event.(lineNo := m), a.value.data))
  {
  }

  /** The line of an upsert: type, id and an object as data. */
  predicate IsUpsertLine(o: Options, line: RawLine, typeName: string, id: string, data: map<string, Json>) {
    && line.text != "" && !IsBlank(line.text[|line.text| - 1]) && |line.text| <= o.maxLineBytes
    && line.parsed == Some(Obj(map["type" := Str(typeName), "id" := Str(id), "data" := Obj(data)]))
  }

  lemma UpsertLineParses(o: Options, line: RawLine, typeName: string, id: string, data: map<string, Json>, n: nat)
    requires IsUpsertLine(o, line, typeName, id, data)
    ensures
      var p := ParseLine(line, n, o);
      && p.Ok? && p.value.Parsed? && p.value.data == Obj(data)
      && p.value.event.objectType == ObjectTypeFromString(typeName) && p.value.event.shape == SingleObject
      && p.value.event.id == Some(id)
  {
    hide ObjectTypeFromString;
    assert Trim(line.text) == line.text;
  }
}
