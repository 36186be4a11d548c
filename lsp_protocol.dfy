/**
 * The client side of lsp/protocol.go: decoding optional params, and a call to the
 * client that, when its context ends, tells the client to cancel it with a
 * `$/cancelRequest` notification (section "Cancellation Support" of the Language Server
 * Protocol 3.17).
 */
module LspProtocol {
  import opened Wrappers
  import opened Json
  import opened Errors
  import opened RpcWire
  import opened RpcMessages
  import opened RpcConn
  import Strconv

  /**
   * UnmarshalJSON: empty params and the literal null leave the target as it is;
   * anything else is json.Unmarshal into it (`decode`, given the old target).
   */
  function UnmarshalJSON<T>(msg: Raw, target: T, decode: (Json, T) -> Result<T, Error>): Result<T, Error>
  {
    if msg.None? || msg == Some(JNull) then Ok(target) else decode(msg.value, target)
  }

  /** Decoding optional params never fails when there are none, and leaves the target
      untouched; any other params are decoded into it. */
  lemma AbsentParamsDecode<T>(msg: Raw, target: T, decode: (Json, T) -> Result<T, Error>)
    ensures msg.None? || msg == Some(JNull) ==> UnmarshalJSON(msg, target, decode) == Ok(target)
    ensures msg.Some? && msg != Some(JNull) ==> UnmarshalJSON(msg, target, decode) == decode(msg.value, target)
  {
  }

  const CancelRequest := "$/cancelRequest"

  /**
   * The params cancelCall sends, as written: `&CancelParams{ID: &id}` stores a pointer to
   * an interface holding an rpc.ID value. encoding/json reaches the ID through the
   * interface, where it is not addressable, so ID's pointer-receiver MarshalJSON is not
   * used and the ID's unexported fields encode as an empty object.
   */
  function CancelParamsAsWritten(id: ID): (j: Json)
    ensures j.JObj? && j.fields.Keys == {"id"} && j.fields["id"] == EmptyObject
  {
    JObj(map["id" := EmptyObject])
  }

  /** The params as the protocol defines them: the id of the request to cancel. */
  function CancelParams(id: ID): (j: Json)
    ensures j.JObj? && j.fields.Keys == {"id"} && j.fields["id"] == EncodeID(id)
  {
    JObj(map["id" := EncodeID(id)])
  }

  /** As written, the peer cannot read back which request is cancelled: for every id. */
  lemma CancelIdLostAsWritten(id: ID)
    ensures var j := CancelParamsAsWritten(id); !UnmarshalID(j.fields["id"]).1
  {
  }

  /** The corrected params carry the id of the call, which reads back as itself. */
  lemma CancelIdReadsBack(id: ID)
    requires Encodable(id)
    ensures var j := CancelParams(id); UnmarshalID(j.fields["id"]) == (id, true)
  {
    UnmarshalEncodeID(id);
  }

  /** The notification cancelCall sends for a call. */
  function CancelMessage(id: ID): Message
  {
    NotificationMsg(Notification(CancelRequest, Some(CancelParams(id))))
  }

  /**
   * clientConn.Call: the connection's Call, whose error is returned unchanged; when the
   * context has ended at any point, a `$/cancelRequest` for the call's id follows on a
   * detached, uncancelled context, whatever the call's outcome. A broken writer sends
   * neither, and its error is the call's unless the context ended before the send.
   */
  method ClientCall(conn: Conn, cancelledBeforeSend: bool, cancelledWhileWaiting: bool, methodName: string,
                    params: Json, answer: Option<Reply>, wantResult: bool, accepts: Json -> bool)
    returns (err: Option<Error>)
    requires conn.Valid() && conn.seqNum < Strconv.MaxInt64
    requires cancelledBeforeSend || cancelledWhileWaiting || answer.Some? || conn.writeError.Some?
    modifies conn`seqNum, conn`pending, conn`sent, conn`log
    ensures var id := ID("", old(conn.seqNum) + 1);
      var failed := conn.writeError.Some?;
      var sentCall := if cancelledBeforeSend || failed then [] else [CallMsg(RpcMessages.Call(methodName, Some(params), id))];
      var cancel := if (cancelledBeforeSend || cancelledWhileWaiting) && !failed then [CancelMessage(id)] else [];
      conn.sent == old(conn.sent) + sentCall + cancel
      && conn.pending == old(conn.pending) && conn.Valid()
      && (cancelledBeforeSend ==> err == Some(Canceled))
      && (!cancelledBeforeSend && failed ==> err == conn.writeError)
      && (!cancelledBeforeSend && !failed && cancelledWhileWaiting ==> err == Some(Canceled))
      && (!cancelledBeforeSend && !failed && !cancelledWhileWaiting ==>
            err == ResponseError(Response(Some(answer.value.result), answer.value.err, id), wantResult, accepts))
  {
    var id;
    id, err := conn.Call(cancelledBeforeSend, cancelledWhileWaiting, methodName, params, answer, wantResult, accepts);
    if cancelledBeforeSend || cancelledWhileWaiting {
      var _ := conn.Notify(false, CancelRequest, CancelParams(id));
    }
  }
}
