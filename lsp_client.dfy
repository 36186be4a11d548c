/**
 * The client dispatcher of lsp/client.go: each request the server makes of the editor
 * goes out under a fixed method name, either as a notification or as a call.
 */
module LspClient {
  import opened Wrappers
  import opened Json
  import opened Errors
  import opened RpcWire
  import opened RpcMessages
  import opened RpcConn
  import LspProtocol
  import Strconv

  /** The requests of the Client interface, with their params as JSON. */
  datatype ClientRequest =
    | PublishDiagnostics(params: Json)
    | WorkDoneProgressCreate(params: Json)
    | ProgressBegin(params: Json)
    | ProgressEnd(params: Json)
    | ShowMessage(params: Json)
    | LogMessage(params: Json)
    | Configuration(params: Json)

  function WireMethod(r: ClientRequest): string
  {
    match r
    case PublishDiagnostics(_) => "textDocument/publishDiagnostics"
    case WorkDoneProgressCreate(_) => "window/workDoneProgress/create"
    case ProgressBegin(_) | ProgressEnd(_) => "$/progress"
    case ShowMessage(_) => "window/showMessage"
    case LogMessage(_) => "window/logMessage"
    case Configuration(_) => "workspace/configuration"
  }

  /** Whether the request waits for an answer. */
  predicate IsCall(r: ClientRequest)
  {
    r.WorkDoneProgressCreate? || r.Configuration?
  }

  /** The result type each call decodes into: none for workDoneProgress/create, and a
      list (or null) for configuration. */
  function ResultType(r: ClientRequest): (accepts: Option<Json -> bool>)
    requires IsCall(r)
  {
    if r.Configuration? then Some((j: Json) => j.JArr? || j.JNull?) else None
  }

  /** The table: publishDiagnostics, progress, showMessage and logMessage are notifications;
      workDoneProgress/create and configuration are calls, and only configuration decodes a
      result. Both progress requests share `$/progress`; the other names are distinct. */
  lemma ClientTable(r: ClientRequest, s: ClientRequest)
    ensures IsCall(r) <==> WireMethod(r) in {"window/workDoneProgress/create", "workspace/configuration"}
    ensures IsCall(r) ==> (ResultType(r).Some? <==> r.Configuration?)
    ensures WireMethod(r) == WireMethod(s) && r.params == s.params ==>
      r == s || ({r, s} == {ProgressBegin(r.params), ProgressEnd(r.params)})
  {
  }

  /**
   * clientDispatcher: a notification is one Notify; a call is clientConn.Call, which may
   * be followed by `$/cancelRequest`. Gives the error and, for configuration, the list the
   * result decoded into (None for nil).
   */
  method Send(conn: Conn, r: ClientRequest, cancelledBeforeSend: bool, cancelledWhileWaiting: bool,
              answer: Option<Reply>)
    returns (items: Option<seq<Json>>, err: Option<Error>)
    requires conn.Valid() && conn.seqNum < Strconv.MaxInt64
    requires IsCall(r) ==> cancelledBeforeSend || cancelledWhileWaiting || answer.Some? || conn.writeError.Some?
    modifies conn`seqNum, conn`pending, conn`sent, conn`log
    ensures conn.pending == old(conn.pending) && conn.Valid()
    ensures !IsCall(r) ==> items.None? && conn.seqNum == old(conn.seqNum)
    ensures !IsCall(r) && cancelledBeforeSend ==> err == Some(Canceled) && conn.sent == old(conn.sent)
    ensures !IsCall(r) && !cancelledBeforeSend && conn.writeError.Some? ==>
      err == conn.writeError && conn.sent == old(conn.sent)
    ensures !IsCall(r) && !cancelledBeforeSend && conn.writeError.None? ==>
      err == None && conn.sent == old(conn.sent) + [NotificationMsg(Notification(WireMethod(r), Some(r.params)))]
    ensures IsCall(r) ==>
      var id := ID("", old(conn.seqNum) + 1);
      var failed := conn.writeError.Some?;
      var call := if cancelledBeforeSend || failed then [] else [CallMsg(RpcMessages.Call(WireMethod(r), Some(r.params), id))];
      var cancel := if (cancelledBeforeSend || cancelledWhileWaiting) && !failed then [LspProtocol.CancelMessage(id)] else [];
      conn.sent == old(conn.sent) + call + cancel
    ensures IsCall(r) && !cancelledBeforeSend && conn.writeError.Some? ==> err == conn.writeError && items.None?
    ensures err.Some? ==> items.None?
    ensures items.Some? ==> r.Configuration? && answer.Some? && answer.value.result == JArr(items.value)
    ensures r.Configuration? && !cancelledBeforeSend && !cancelledWhileWaiting && conn.writeError.None? &&
            answer.value.err.None? ==>
      && (answer.value.result.JArr? ==> err == None && items == Some(answer.value.result.items))
      && (answer.value.result.JNull? ==> err == None && items == None)
      && (!answer.value.result.JArr? && !answer.value.result.JNull? ==> err.Some? && items == None)
    ensures r.Configuration? && !cancelledBeforeSend && !cancelledWhileWaiting && conn.writeError.None? &&
            answer.value.err.Some? ==>
      err == answer.value.err && items == None
  {
    if !IsCall(r) {
      items := None;
      err := conn.Notify(cancelledBeforeSend, WireMethod(r), r.params);
      return;
    }
    var accepts := ResultType(r);
    err := LspProtocol.ClientCall(conn, cancelledBeforeSend, cancelledWhileWaiting, WireMethod(r), r.params,
                                  answer, accepts.Some?, if accepts.Some? then accepts.value else _ => true);
    if err.None? && r.Configuration? && answer.Some? && answer.value.result.JArr? {
      items := Some(answer.value.result.items);
    } else {
      items := None;
    }
  }
}
