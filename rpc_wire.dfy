/**
 * The JSON-RPC 2.0 envelope of rpc/wire.go: request identifiers, the version tag
 * and the three wire shapes, with the rules encoding/json applies to their fields.
 *
 * Field rules: a pointer field (`id`, `params`, `result`) that is absent or null is nil;
 * a string field that is absent or null stays ""; the `jsonrpc` tag is checked only when
 * the member is present, because encoding/json calls an Unmarshaler only for present
 * members; the root must be an object, or null (which decodes nothing and succeeds).
 */
module RpcWire {
  import opened Wrappers
  import opened Json
  import opened Errors
  import Strconv

  type Int64 = x: int | Strconv.MinInt64 <= x <= Strconv.MaxInt64

  /** A request identifier: a name, or else a number. */
  datatype ID = ID(name: string, number: Int64)

  const ZeroID := ID("", 0)

  /** The identifiers ID.MarshalJSON writes without losing anything. */
  predicate Encodable(id: ID)
  {
    id.name == "" || id.number == 0
  }

  /** ID.MarshalJSON: the name as a string when it is set, otherwise the number. */
  function EncodeID(id: ID): (j: Json)
    ensures j.JStr? <==> id.name != ""
    ensures j.JNumber? <==> id.name == ""
  {
    if id.name != "" then JStr(id.name) else JNumber(Strconv.FormatInt(id.number))
  }

  /**
   * ID.UnmarshalJSON: the receiver is reset to the zero ID, the data is read as a 64-bit
   * integer and, failing that, as a string. Gives the new receiver and whether it succeeded.
   * Reading null into an integer succeeds and changes nothing.
   */
  function UnmarshalID(data: Json): (r: (ID, bool))
    ensures !r.1 ==> r.0 == ZeroID
    ensures r.1 && r.0.name != "" ==> data == JStr(r.0.name)
    ensures r.1 <==> (data.JNull? || data.JStr? ||
                      (data.JNumber? && Strconv.ParseInt64(data.literal).Some?))
  {
    match data
    case JNull => (ZeroID, true)
    case JNumber(lit) =>
      var n := Strconv.ParseInt64(lit);
      if n.Some? then (ID("", n.value), true) else (ZeroID, false)
    case JStr(s) => (ID(s, 0), true)
    case _ => (ZeroID, false)
  }

  /** Every identifier MarshalJSON writes faithfully reads back as itself. */
  lemma UnmarshalEncodeID(id: ID)
    requires Encodable(id)
    ensures UnmarshalID(EncodeID(id)) == (id, true)
  {
    if id.name == "" {
      Strconv.ParseFormatInt(id.number, Strconv.MinInt64, Strconv.MaxInt64);
    }
  }

  /** A named identifier loses its number on the wire. */
  lemma NamedIDLosesNumber(id: ID)
    requires id.name != "" && id.number != 0
    ensures UnmarshalID(EncodeID(id)) == (ID(id.name, 0), true)
  {
  }

  /** The empty string and the number zero are the same identifier once decoded. */
  lemma EmptyNameIsZero()
    ensures UnmarshalID(JStr("")) == UnmarshalID(JNumber("0")) == (ZeroID, true)
  {
    assert Strconv.AllDigits("0");
    assert Strconv.DigitsValue("0") == 0 by {
      assert "0"[..0] == [];
    }
  }

  /** wireVersionTag.MarshalJSON. */
  const VersionTag := JStr("2.0")

  /**
   * wireVersionTag.UnmarshalJSON: the value is read as a string (null reads as "") and
   * must be "2.0".
   */
  function DecodeVersionTag(data: Json): (ok: bool)
    ensures ok <==> data == VersionTag
  {
    var version := match data
      case JNull => Some("")
      case JStr(s) => Some(s)
      case _ => None;
    version == Some("2.0")
  }

  /** The error encoding/json reports for a message it cannot decode. */
  const DecodeFailure := Error(Plain, "json: cannot unmarshal message")

  /** A `*ID` member: nil when absent or null, otherwise ID.UnmarshalJSON. */
  function IdMember(m: map<string, Json>, key: string): (r: Result<Option<ID>, Error>)
    ensures (key !in m || m[key] == JNull) ==> r == Ok(None)
    ensures key in m && m[key] != JNull ==>
      (r.Ok? <==> UnmarshalID(m[key]).1) && (r.Ok? ==> r.value == Some(UnmarshalID(m[key]).0))
  {
    if key !in m || m[key] == JNull then Ok(None)
    else
      var (id, ok) := UnmarshalID(m[key]);
      if ok then Ok(Some(id)) else Err(DecodeFailure)
  }

  /** A `*json.RawMessage` member: nil when absent or null, otherwise the value itself. */
  function RawMember(m: map<string, Json>, key: string): (r: Option<Json>)
    ensures r.None? <==> key !in m || m[key] == JNull
    ensures r.Some? ==> r.value == m[key]
  {
    if key !in m || m[key] == JNull then None else Some(m[key])
  }

  /** A `string` member: "" when absent or null, a type error for anything but a string. */
  function StringMember(m: map<string, Json>, key: string): (r: Result<string, Error>)
    ensures r.Ok? <==> key !in m || m[key].JNull? || m[key].JStr?
    ensures r.Ok? && key in m && m[key].JStr? ==> r.value == m[key].s
    ensures r.Ok? && (key !in m || m[key].JNull?) ==> r.value == ""
  {
    if key !in m || m[key] == JNull then Ok("")
    else if m[key].JStr? then Ok(m[key].s)
    else Err(DecodeFailure)
  }

  /** The `jsonrpc` member: accepted when absent, otherwise it must be "2.0". */
  predicate VersionMemberOk(m: map<string, Json>)
  {
    "jsonrpc" !in m || DecodeVersionTag(m["jsonrpc"])
  }

  /** wireRequest: sent for a Call (with an id) or a Notification (without). */
  datatype WireRequest = WireRequest(methodName: string, params: Option<Json>, id: Option<ID>)

  /** wireResponse. The error is a Go error value. */
  datatype WireResponse = WireResponse(result: Option<Json>, error: Option<Error>, id: Option<ID>)

  /** wireCombined: every member of both shapes, decoded before the kind is known. */
  datatype WireCombined = WireCombined(
    id: Option<ID>, methodName: string, params: Option<Json>, result: Option<Json>, error: Option<Error>)

  /** An object holding `key: v` when the option is set and nothing otherwise (omitempty). */
  function OmitEmpty(key: string, v: Option<Json>): map<string, Json>
  {
    if v.Some? then map[key := v.value] else map[]
  }

  function EncodeOptionalID(id: Option<ID>): Option<Json>
  {
    if id.Some? then Some(EncodeID(id.value)) else None
  }

  /**
   * JSON of a Go error value. encoding/json writes a struct's exported fields, and the
   * error values this program builds have none, so every error is written as `{}`.
   */
  function EncodeError(e: Error): Json
  {
    EmptyObject
  }

  /** json.Marshal of a wireRequest. */
  function EncodeRequest(w: WireRequest): (j: Json)
    ensures j.JObj? && "jsonrpc" in j.fields && "method" in j.fields
    ensures j.fields["jsonrpc"] == VersionTag && j.fields["method"] == JStr(w.methodName)
    ensures ("params" in j.fields <==> w.params.Some?) && ("id" in j.fields <==> w.id.Some?)
  {
    JObj(map["jsonrpc" := VersionTag, "method" := JStr(w.methodName)]
         + OmitEmpty("params", w.params) + OmitEmpty("id", EncodeOptionalID(w.id)))
  }

  /** json.Marshal of a wireResponse. */
  function EncodeResponse(w: WireResponse): (j: Json)
    ensures j.JObj? && "jsonrpc" in j.fields && j.fields["jsonrpc"] == VersionTag
    ensures "method" !in j.fields && "params" !in j.fields
    ensures ("result" in j.fields <==> w.result.Some?) && ("error" in j.fields <==> w.error.Some?)
    ensures "id" in j.fields <==> w.id.Some?
  {
    var err := if w.error.Some? then Some(EncodeError(w.error.value)) else None;
    JObj(map["jsonrpc" := VersionTag]
         + OmitEmpty("result", w.result) + OmitEmpty("error", err) + OmitEmpty("id", EncodeOptionalID(w.id)))
  }

  /**
   * The `error` member as the Go code reads it. The field's type is the interface
   * `error`, which has a method, so encoding/json can store only null into it: any other
   * value is an UnmarshalTypeError.
   */
  function ErrorMemberAsWritten(m: map<string, Json>): (r: Result<Option<Error>, Error>)
    ensures r.Ok? <==> "error" !in m || m["error"] == JNull
  {
    if "error" !in m || m["error"] == JNull then Ok(None) else Err(DecodeFailure)
  }

  /**
   * The `error` member as a response decoder needs it: an error object is received as
   * a remote error carrying its `message` text when that is a string.
   */
  function ErrorMember(m: map<string, Json>): (r: Result<Option<Error>, Error>)
    ensures r.Ok? <==> "error" !in m || m["error"] == JNull || m["error"].JObj?
    ensures r.Ok? && r.value.Some? ==> r.value.value.kind == RemoteError
    ensures "error" in m && m["error"].JObj? ==> r.Ok? && r.value.Some?
  {
    if "error" !in m || m["error"] == JNull then Ok(None)
    else if m["error"].JObj? then
      var fields := m["error"].fields;
      var text := if "message" in fields && fields["message"].JStr? then fields["message"].s else "";
      Ok(Some(Error(RemoteError, text)))
    else Err(DecodeFailure)
  }

  /** json.Unmarshal into a wireRequest (Call.UnmarshalJSON, Notification.UnmarshalJSON). */
  function DecodeRequest(data: Json): (r: Result<WireRequest, Error>)
    ensures data.JNull? ==> r == Ok(WireRequest("", None, None))
    ensures !data.JNull? && !data.JObj? ==> r.Err?
  {
    match data
    case JNull => Ok(WireRequest("", None, None))
    case JObj(m) =>
      if !VersionMemberOk(m) then Err(DecodeFailure)
      else
        var methodName := StringMember(m, "method");
        var id := IdMember(m, "id");
        if methodName.Err? then Err(methodName.error)
        else if id.Err? then Err(id.error)
        else Ok(WireRequest(methodName.value, RawMember(m, "params"), id.value))
    case _ => Err(DecodeFailure)
  }

  /** json.Unmarshal into a wireCombined, reading `error` the way the Go code does. */
  function DecodeCombinedAsWritten(data: Json): Result<WireCombined, Error>
  {
    DecodeCombinedWith(data, ErrorMemberAsWritten)
  }

  /** json.Unmarshal into a wireCombined whose `error` member can hold an error object. */
  function DecodeCombined(data: Json): Result<WireCombined, Error>
  {
    DecodeCombinedWith(data, ErrorMember)
  }

  function DecodeCombinedWith(data: Json, errorMember: map<string, Json> -> Result<Option<Error>, Error>)
    : (r: Result<WireCombined, Error>)
    ensures data.JNull? ==> r == Ok(WireCombined(None, "", None, None, None))
    ensures !data.JNull? && !data.JObj? ==> r.Err?
    ensures data.JObj? ==>
      var m := data.fields;
      (r.Ok? <==> VersionMemberOk(m) && StringMember(m, "method").Ok? && IdMember(m, "id").Ok?
                  && errorMember(m).Ok?)
      && (r.Ok? ==> r.value == WireCombined(IdMember(m, "id").value, StringMember(m, "method").value,
                                            RawMember(m, "params"), RawMember(m, "result"),
                                            errorMember(m).value))
  {
    match data
    case JNull => Ok(WireCombined(None, "", None, None, None))
    case JObj(m) =>
      var methodName := StringMember(m, "method");
      var id := IdMember(m, "id");
      var err := errorMember(m);
      if !VersionMemberOk(m) || methodName.Err? || id.Err? || err.Err? then Err(DecodeFailure)
      else Ok(WireCombined(id.value, methodName.value, RawMember(m, "params"), RawMember(m, "result"), err.value))
    case _ => Err(DecodeFailure)
  }
}
