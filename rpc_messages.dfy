/**
 * The three JSON-RPC message kinds of rpc/messages.go, their JSON encodings, the
 * receivers' UnmarshalJSON methods and DecodeMessage, which tells the kinds apart by
 * whether a method name and an id are present.
 */
module RpcMessages {
  import opened Wrappers
  import opened Json
  import opened Errors
  import opened RpcWire

  /** json.RawMessage: already-encoded JSON. None is the empty (nil) message. */
  type Raw = Option<Json>

  /** json.RawMessage.MarshalJSON: a nil message is written as null. */
  function RawValue(r: Raw): Json
  {
    if r.None? then JNull else r.value
  }

  /** What a raw message becomes after a trip through a pointer field: null reads as nil. */
  function NormalRaw(r: Raw): (n: Raw)
    ensures n.None? <==> r.None? || r == Some(JNull)
    ensures n.Some? ==> n == r
  {
    if r == Some(JNull) then None else r
  }

  datatype Call = Call(methodName: string, params: Raw, id: ID)

  datatype Notification = Notification(methodName: string, params: Raw)

  /** A reply to a Call; `err` is set only when the call failed. */
  datatype Response = Response(result: Raw, err: Option<Error>, id: ID)

  datatype Message =
    | CallMsg(call: Call)
    | NotificationMsg(notification: Notification)
    | ResponseMsg(response: Response)
  {
    /** The Request interface: Call and Notification. */
    predicate IsRequest() { !ResponseMsg? }

    function MethodName(): string
      requires IsRequest()
    {
      if CallMsg? then call.methodName else notification.methodName
    }

    function Params(): Raw
      requires IsRequest()
    {
      if CallMsg? then call.params else notification.params
    }
  }

  /** marshalToRaw: the encoding of a parameter or result value (null for Go's nil). */
  function MarshalToRaw(value: Json): (r: Raw)
    ensures r == Some(value)
  {
    Some(value)
  }

  function NewCall(id: ID, methodName: string, params: Json): (c: Call)
    ensures c.id == id && c.methodName == methodName && RawValue(c.params) == params
  {
    Call(methodName, MarshalToRaw(params), id)
  }

  function NewNotification(methodName: string, params: Json): (n: Notification)
    ensures n.methodName == methodName && RawValue(n.params) == params
  {
    Notification(methodName, MarshalToRaw(params))
  }

  function NewResponse(id: ID, result: Json, err: Option<Error>): (r: Response)
    ensures r.id == id && r.err == err && RawValue(r.result) == result
  {
    Response(MarshalToRaw(result), err, id)
  }

  /** Call.MarshalJSON: method, params (null when empty) and the id. */
  function MarshalCall(c: Call): Json
  {
    EncodeRequest(WireRequest(c.methodName, Some(RawValue(c.params)), Some(c.id)))
  }

  /** Notification.MarshalJSON: method and params, never an id. */
  function MarshalNotification(n: Notification): Json
  {
    EncodeRequest(WireRequest(n.methodName, Some(RawValue(n.params)), None))
  }

  /** Response.MarshalJSON: the id, and the result only when there is no error. */
  function MarshalResponse(r: Response): Json
  {
    var result := if r.err.None? then Some(RawValue(r.result)) else None;
    EncodeResponse(WireResponse(result, r.err, Some(r.id)))
  }

  function MarshalMessage(m: Message): Json
  {
    match m
    case CallMsg(c) => MarshalCall(c)
    case NotificationMsg(n) => MarshalNotification(n)
    case ResponseMsg(r) => MarshalResponse(r)
  }

  /** The members that mark each encoding: a call has an id, a notification none, and a
      response carries a result exactly when it carries no error. */
  lemma MarshalShapes(c: Call, n: Notification, r: Response)
    ensures MarshalCall(c).JObj? && "id" in MarshalCall(c).fields && "method" in MarshalCall(c).fields
    ensures MarshalNotification(n).JObj? && "id" !in MarshalNotification(n).fields
    ensures MarshalResponse(r).JObj? && "method" !in MarshalResponse(r).fields && "id" in MarshalResponse(r).fields
    ensures "result" in MarshalResponse(r).fields <==> r.err.None?
    ensures "error" in MarshalResponse(r).fields <==> r.err.Some?
  {
  }

  /**
   * Call.UnmarshalJSON into receiver `c`. On failure the receiver is unchanged; on success
   * the method is replaced, and params and id are replaced only when the data holds them.
   */
  function UnmarshalCall(c: Call, data: Json): (r: (Call, Option<Error>))
    ensures r.1.Some? <==> DecodeRequest(data).Err?
    ensures r.1.Some? ==> r.0 == c
    ensures r.1.None? ==>
      var w := DecodeRequest(data).value;
      r.0.methodName == w.methodName
      && r.0.params == (if w.params.Some? then w.params else c.params)
      && r.0.id == (if w.id.Some? then w.id.value else c.id)
  {
    match DecodeRequest(data)
    case Err(e) => (c, Some(Error(e.kind, "unmarshaling call: " + e.message)))
    case Ok(w) =>
      var params := if w.params.Some? then w.params else c.params;
      var id := if w.id.Some? then w.id.value else c.id;
      (Call(w.methodName, params, id), None)
  }

  /** Notification.UnmarshalJSON into receiver `n`: an id in the data is ignored. */
  function UnmarshalNotification(n: Notification, data: Json): (r: (Notification, Option<Error>))
    ensures r.1.Some? <==> DecodeRequest(data).Err?
    ensures r.1.Some? ==> r.0 == n
    ensures r.1.None? ==>
      var w := DecodeRequest(data).value;
      r.0.methodName == w.methodName && r.0.params == (if w.params.Some? then w.params else n.params)
  {
    match DecodeRequest(data)
    case Err(e) => (n, Some(Error(e.kind, "unmarshaling notification: " + e.message)))
    case Ok(w) => (Notification(w.methodName, if w.params.Some? then w.params else n.params), None)
  }

  /** A call decoded into an existing receiver keeps the receiver's params when its own
      params were empty or null, because null in a pointer member reads as absent. */
  lemma UnmarshalMarshalledCall(into: Call, c: Call)
    requires Encodable(c.id)
    ensures UnmarshalCall(into, MarshalCall(c)) ==
      (Call(c.methodName, if NormalRaw(c.params).Some? then c.params else into.params, c.id), None)
  {
    UnmarshalEncodeID(c.id);
    var m := MarshalCall(c).fields;
    assert "jsonrpc" in m && m["jsonrpc"] == VersionTag;
    assert m["method"] == JStr(c.methodName);
    assert m["id"] == EncodeID(c.id);
  }

  lemma UnmarshalMarshalledNotification(into: Notification, n: Notification)
    ensures UnmarshalNotification(into, MarshalNotification(n)) ==
      (Notification(n.methodName, if NormalRaw(n.params).Some? then n.params else into.params), None)
  {
    var m := MarshalNotification(n).fields;
    assert "jsonrpc" in m && m["jsonrpc"] == VersionTag;
    assert m["method"] == JStr(n.methodName);
  }

  /** The classification of DecodeMessage once the envelope has decoded. */
  function Classify(w: WireCombined): (r: Result<Message, Error>)
  {
    if w.methodName == "" then
      if w.id.None? then Err(Error(InvalidRequest, ErrInvalidRequestText))
      else Ok(ResponseMsg(Response(w.result, w.error, w.id.value)))
    else if w.id.None? then Ok(NotificationMsg(Notification(w.methodName, w.params)))
    else Ok(CallMsg(Call(w.methodName, w.params, w.id.value)))
  }

  /**
   * DecodeMessage as written: the `error` member can only be null, so every response
   * that carries an error object fails to decode.
   */
  function DecodeMessageAsWritten(data: Json): Result<Message, Error>
  {
    match DecodeCombinedAsWritten(data)
    case Err(e) => Err(Error(e.kind, "unmarshaling jsonrpc message: " + e.message))
    case Ok(w) => Classify(w)
  }

  /**
   * DecodeMessage with an `error` member that holds an error object: no method means a
   * response (which needs an id); a method without an id is a notification; a method
   * with an id is a call.
   */
  function DecodeMessage(data: Json): Result<Message, Error>
  {
    match DecodeCombined(data)
    case Err(e) => Err(Error(e.kind, "unmarshaling jsonrpc message: " + e.message))
    case Ok(w) => Classify(w)
  }

  /** The members an envelope needs in order to decode at all. */
  predicate WellFormedEnvelope(m: map<string, Json>)
  {
    VersionMemberOk(m) && StringMember(m, "method").Ok? && IdMember(m, "id").Ok? && ErrorMember(m).Ok?
  }

  /** Which kind of message each decodable object is, stated over its members. */
  lemma DecodeMessageKinds(m: map<string, Json>)
    requires WellFormedEnvelope(m)
    ensures var r := DecodeMessage(JObj(m));
      var name := StringMember(m, "method").value;
      var id := IdMember(m, "id").value;
      && (name == "" && id.None? ==> r == Err(Error(InvalidRequest, ErrInvalidRequestText)))
      && (name == "" && id.Some? ==>
            r == Ok(ResponseMsg(Response(RawMember(m, "result"), ErrorMember(m).value, id.value))))
      && (name != "" && id.None? ==> r == Ok(NotificationMsg(Notification(name, RawMember(m, "params")))))
      && (name != "" && id.Some? ==> r == Ok(CallMsg(Call(name, RawMember(m, "params"), id.value))))
  {
  }

  /** Anything but an object or null fails to decode, and null alone is an invalid request. */
  lemma DecodeMessageNonObject(data: Json)
    requires !data.JObj?
    ensures DecodeMessage(data).Err?
    ensures data.JNull? ==> DecodeMessage(data) == Err(Error(InvalidRequest, ErrInvalidRequestText))
  {
  }

  /** A call with a method name reads back as itself, empty params becoming nil. */
  lemma DecodeMarshalCall(c: Call)
    requires c.methodName != "" && Encodable(c.id)
    ensures DecodeMessage(MarshalCall(c)) == Ok(CallMsg(Call(c.methodName, NormalRaw(c.params), c.id)))
  {
    UnmarshalEncodeID(c.id);
    var m := MarshalCall(c).fields;
    assert "jsonrpc" in m && m["jsonrpc"] == VersionTag;
    assert m["method"] == JStr(c.methodName);
    assert m["id"] == EncodeID(c.id);
  }

  /** A call without a method name reads back as an empty response with its id. */
  lemma DecodeNamelessCall(c: Call)
    requires c.methodName == "" && Encodable(c.id)
    ensures DecodeMessage(MarshalCall(c)) == Ok(ResponseMsg(Response(None, None, c.id)))
  {
    UnmarshalEncodeID(c.id);
    var m := MarshalCall(c).fields;
    assert "jsonrpc" in m && m["jsonrpc"] == VersionTag;
    assert m["method"] == JStr("");
    assert m["id"] == EncodeID(c.id);
    assert WellFormedEnvelope(m);
    DecodeMessageKinds(m);
  }

  /** A notification reads back as itself when it has a method name, else it is invalid. */
  lemma DecodeMarshalNotification(n: Notification)
    ensures n.methodName != "" ==>
      DecodeMessage(MarshalNotification(n)) == Ok(NotificationMsg(Notification(n.methodName, NormalRaw(n.params))))
    ensures n.methodName == "" ==>
      DecodeMessage(MarshalNotification(n)) == Err(Error(InvalidRequest, ErrInvalidRequestText))
  {
    var m := MarshalNotification(n).fields;
    assert "jsonrpc" in m && m["jsonrpc"] == VersionTag;
    assert m["method"] == JStr(n.methodName);
  }

  /**
   * A successful response reads back as itself. A failed one reads back as a failed
   * response with the same id, but its message text is lost, since errors are written as `{}`.
   */
  lemma DecodeMarshalResponse(r: Response)
    requires Encodable(r.id)
    ensures r.err.None? ==>
      DecodeMessage(MarshalResponse(r)) == Ok(ResponseMsg(Response(NormalRaw(r.result), None, r.id)))
    ensures r.err.Some? ==>
      DecodeMessage(MarshalResponse(r)) == Ok(ResponseMsg(Response(None, Some(Error(RemoteError, "")), r.id)))
  {
    UnmarshalEncodeID(r.id);
    var m := MarshalResponse(r).fields;
    assert "jsonrpc" in m && m["jsonrpc"] == VersionTag;
    assert "method" !in m;
    assert m["id"] == EncodeID(r.id);
    if r.err.Some? {
      assert m["error"] == EmptyObject;
    }
    assert WellFormedEnvelope(m);
    DecodeMessageKinds(m);
  }

  /** As written, a failed response does not decode: the reader reports an error instead. */
  lemma ErrorResponseUndecodableAsWritten(r: Response)
    requires r.err.Some?
    ensures DecodeMessageAsWritten(MarshalResponse(r)).Err?
  {
    var m := MarshalResponse(r).fields;
    assert m["error"] == EmptyObject;
  }

  /** The two decoders agree on everything except responses carrying an error object. */
  lemma DecodersAgreeWithoutErrorMember(data: Json)
    requires !data.JObj? || "error" !in data.fields || data.fields["error"] == JNull
    ensures DecodeMessageAsWritten(data) == DecodeMessage(data)
  {
  }
}
