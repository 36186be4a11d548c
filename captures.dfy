/**
 * What the parser reports for one resource declaration in a program file
 * (parser.CaptureInfo), and the data a diagnostic carries so that a code action can be
 * resolved later (lsp.CodeActionResolveData): the capture, flattened, and the file's URI.
 *
 * The data goes through encoding/json: the struct fields become the keys ResourceName,
 * ResourceTypeName, Text, StartPoint and EndPoint (each point with Row and Column) and
 * "uri". Decoding ignores other keys, leaves a missing or null field at its zero value
 * and fails on a value of the wrong JSON type.
 */
module Captures {
  import opened Wrappers
  import opened Errors
  import opened Json
  import Strconv

  /** tree_sitter.Point: a zero-based row and column. */
  datatype Point = Point(row: nat, column: nat)

  datatype Capture = Capture(resourceName: string, resourceTypeName: string, text: string,
                             startPoint: Point, endPoint: Point)

  datatype ResolveData = ResolveData(capture: Capture, uri: string)

  const ZeroPoint := Point(0, 0)
  const ZeroCapture := Capture("", "", "", ZeroPoint, ZeroPoint)

  /** Row and Column are Go uints. */
  predicate ValidPoint(p: Point)
  {
    p.row <= Strconv.MaxUint64 && p.column <= Strconv.MaxUint64
  }

  predicate ValidCapture(c: Capture)
  {
    ValidPoint(c.startPoint) && ValidPoint(c.endPoint)
  }

  /** The exact text of encoding/json's type errors is not modelled. */
  const UnmarshalTypeError := Error(Plain, "json: cannot unmarshal capture info")

  function EncodePoint(p: Point): Json
  {
    JObj(map["Row" := JNumber(Strconv.FormatNat(p.row)), "Column" := JNumber(Strconv.FormatNat(p.column))])
  }

  function EncodeResolveData(d: ResolveData): Json
  {
    JObj(map["ResourceName" := JStr(d.capture.resourceName),
             "ResourceTypeName" := JStr(d.capture.resourceTypeName),
             "Text" := JStr(d.capture.text),
             "StartPoint" := EncodePoint(d.capture.startPoint),
             "EndPoint" := EncodePoint(d.capture.endPoint),
             "uri" := JStr(d.uri)])
  }

  /** A string field: missing or null is "", a string is itself, anything else fails. */
  function DecodeString(fields: map<string, Json>, key: string): (r: Result<string, Error>)
    ensures key !in fields ==> r == Ok("")
    ensures key in fields && fields[key].JStr? ==> r == Ok(fields[key].s)
  {
    match StringField(fields, key)
    case None => Err(UnmarshalTypeError)
    case Some(s) => Ok(s)
  }

  /** A uint field: missing or null is 0, a number must be unsigned decimal digits within range. */
  function DecodeUint(fields: map<string, Json>, key: string): (r: Result<nat, Error>)
    ensures r.Ok? ==> r.value <= Strconv.MaxUint64
    ensures key !in fields ==> r == Ok(0)
  {
    if key !in fields || fields[key].JNull? then Ok(0)
    else if fields[key].JNumber? && Strconv.ParseUint64(fields[key].literal).Some? then
      Ok(Strconv.ParseUint64(fields[key].literal).value)
    else Err(UnmarshalTypeError)
  }

  function DecodePoint(fields: map<string, Json>, key: string): (r: Result<Point, Error>)
    ensures r.Ok? ==> ValidPoint(r.value)
  {
    if key !in fields || fields[key].JNull? then Ok(ZeroPoint)
    else if !fields[key].JObj? then Err(UnmarshalTypeError)
    else
      var f := fields[key].fields;
      var row := DecodeUint(f, "Row");
      var column := DecodeUint(f, "Column");
      if row.Err? then Err(row.error)
      else if column.Err? then Err(column.error)
      else Ok(Point(row.value, column.value))
  }

  /** json.Unmarshal into a CodeActionResolveData: null leaves the zero value, an object
      is decoded field by field, anything else fails. */
  function DecodeResolveData(j: Json): (r: Result<ResolveData, Error>)
    ensures r.Ok? ==> ValidCapture(r.value.capture)
    ensures !j.JNull? && !j.JObj? ==> r == Err(UnmarshalTypeError)
  {
    if j.JNull? then Ok(ResolveData(ZeroCapture, ""))
    else if !j.JObj? then Err(UnmarshalTypeError)
    else
      var f := j.fields;
      var name := DecodeString(f, "ResourceName");
      var typeName := DecodeString(f, "ResourceTypeName");
      var text := DecodeString(f, "Text");
      var start := DecodePoint(f, "StartPoint");
      var end := DecodePoint(f, "EndPoint");
      var uri := DecodeString(f, "uri");
      if name.Err? then Err(name.error)
      else if typeName.Err? then Err(typeName.error)
      else if text.Err? then Err(text.error)
      else if start.Err? then Err(start.error)
      else if end.Err? then Err(end.error)
      else if uri.Err? then Err(uri.error)
      else Ok(ResolveData(Capture(name.value, typeName.value, text.value, start.value, end.value), uri.value))
  }

  lemma DecodeEncodePoint(p: Point)
    requires ValidPoint(p)
    ensures DecodePoint(map["P" := EncodePoint(p)], "P") == Ok(p)
  {
    Strconv.ParseFormatUint(p.row);
    Strconv.ParseFormatUint(p.column);
  }

  /** Decoding the data a diagnostic was given gives back its capture and URI. */
  lemma DecodeEncode(d: ResolveData)
    requires ValidCapture(d.capture)
    ensures DecodeResolveData(EncodeResolveData(d)) == Ok(d)
  {
    var f := EncodeResolveData(d).fields;
    DecodeEncodePoint(d.capture.startPoint);
    DecodeEncodePoint(d.capture.endPoint);
    assert DecodePoint(f, "StartPoint") == DecodePoint(map["P" := EncodePoint(d.capture.startPoint)], "P");
    assert DecodePoint(f, "EndPoint") == DecodePoint(map["P" := EncodePoint(d.capture.endPoint)], "P");
  }

  /** A member json.Unmarshal leaves at its zero value: absent, or null. */
  predicate Unset(fields: map<string, Json>, key: string)
  {
    key !in fields || fields[key].JNull?
  }

  /** null, or an object that sets none of the resolve data's members (the empty object
      among them), decodes to the zero capture with no URI. */
  lemma DecodeUnset(j: Json)
    requires j.JNull? || j.JObj?
    requires j.JObj? ==>
      && Unset(j.fields, "ResourceName") && Unset(j.fields, "ResourceTypeName") && Unset(j.fields, "Text")
      && Unset(j.fields, "StartPoint") && Unset(j.fields, "EndPoint") && Unset(j.fields, "uri")
    ensures DecodeResolveData(j) == Ok(ResolveData(ZeroCapture, ""))
  {
  }
}
