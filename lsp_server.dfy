/**
 * The server side of the lsp package (lsp/server.go and ServerHandler of
 * lsp/protocol.go): document URIs, and the routing of each inbound request to one
 * server operation with exactly one reply.
 *
 * The server operations, the params decoders and the replier are parameters:
 * `decode(route, json)` is json.Unmarshal into that route's params type (the decoded value
 * as JSON), `op(route, params)` is the operation's result, and `reply(answer)` is what
 * the replier returns when called with that answer.
 */
module LspServer {
  import opened Wrappers
  import opened Json
  import opened Errors
  import opened RpcMessages
  import LspProtocol
  import Strs

  const FileScheme := "file://"

  /** DocumentURI.Path: the part after `file://`; any other URI fails the assertion,
      which is None here. Paths are slash-separated, so FromSlash changes nothing. */
  function Path(uri: string): (p: Option<string>)
  {
    if Strs.HasPrefix(uri, FileScheme) then Some(uri[7..]) else None
  }

  /** URIFromPath: "" for "", otherwise `file://` and the path. */
  function URIFromPath(path: string): (uri: string)
  {
    if path == "" then "" else FileScheme + path
  }

  /** Path takes back what URIFromPath builds, for every non-empty path. */
  lemma PathOfURIFromPath(path: string)
    requires path != ""
    ensures Path(URIFromPath(path)) == Some(path)
  {
    assert (FileScheme + path)[..7] == FileScheme;
    assert (FileScheme + path)[7..] == path;
  }

  /** URIFromPath gives back every file URI with a non-empty path; only those have a Path. */
  lemma URIFromPathOfPath(uri: string)
    ensures Path(uri).Some? <==> Strs.HasPrefix(uri, FileScheme)
    ensures Path(uri).Some? && |uri| > 7 ==> URIFromPath(Path(uri).value) == uri
  {
    if Path(uri).Some? && |uri| > 7 {
      assert uri == uri[..7] + uri[7..];
    }
  }

  /** The server operations serverDispatch knows. */
  datatype Route =
    | Exit | Shutdown | Initialize | Initialized | DidOpen | DidSave | CodeAction | ResolveCodeAction

  function RouteOf(methodName: string): (r: Option<Route>)
  {
    match methodName
    case "exit" => Some(Exit)
    case "shutdown" => Some(Shutdown)
    case "initialize" => Some(Initialize)
    case "initialized" => Some(Initialized)
    case "textDocument/didOpen" => Some(DidOpen)
    case "textDocument/didSave" => Some(DidSave)
    case "textDocument/codeAction" => Some(CodeAction)
    case "codeAction/resolve" => Some(ResolveCodeAction)
    case _ => None
  }

  /** The method name each route answers to. */
  function MethodOf(r: Route): string
  {
    match r
    case Exit => "exit"
    case Shutdown => "shutdown"
    case Initialize => "initialize"
    case Initialized => "initialized"
    case DidOpen => "textDocument/didOpen"
    case DidSave => "textDocument/didSave"
    case CodeAction => "textDocument/codeAction"
    case ResolveCodeAction => "codeAction/resolve"
  }

  /** The routing table is one-to-one: each known method has exactly one route. */
  lemma RouteOfMethod(r: Route, methodName: string)
    ensures RouteOf(MethodOf(r)) == Some(r)
    ensures RouteOf(methodName).Some? ==> MethodOf(RouteOf(methodName).value) == methodName
  {
  }

  /** exit and shutdown take no params. */
  predicate TakesParams(r: Route) { r != Exit && r != Shutdown }

  /** The result and error a server operation returns. */
  datatype OpResult = OpResult(value: Option<Json>, err: Option<Error>)

  /** What a replier is called with. */
  datatype Answer = Answer(result: Option<Json>, err: Option<Error>)

  /** The outcome of serverDispatch: whether it handled the request, which operation it
      called with which params (None for the zero value), its reply and the error it returns. */
  datatype Dispatch = Dispatch(handled: bool, invoked: Option<(Route, Option<Json>)>, answer: Option<Answer>,
                               err: Option<Error>)

  /**
   * sendParseError as written: `%w` is given rpc.ErrParse, which is a string and not an
   * error, so fmt.Errorf wraps nothing and prints the operand as a bad verb.
   */
  function ParseErrorAsWritten(e: Error): (r: Error)
    ensures r.kind == Plain
  {
    Error(Plain, "%!w(string=" + ErrParseText + "): " + e.message)
  }

  /** sendParseError as intended: an error wrapping errors.New(ErrParse), as the other
      uses of the rpc error texts are built. */
  function ParseError(e: Error): (r: Error)
    ensures r.kind == ErrorKind.ParseError
    ensures Strs.HasPrefix(r.message, ErrParseText)
  {
    Error(ErrorKind.ParseError, ErrParseText + ": " + e.message)
  }

  /** How the reply to an operation's outcome is formed for each route. */
  function AnswerFor(r: Route, res: OpResult): (a: Answer)
  {
    match r
    case Initialize => Answer(res.value, res.err)
    case CodeAction | ResolveCodeAction =>
      if res.err.Some? then Answer(None, res.err) else Answer(res.value, None)
    case _ => Answer(None, res.err)
  }

  /** Only initialize replies with both a result and an error; codeAction and resolve reply
      with one or the other; the rest reply with the error alone. */
  lemma AnswerShapes(r: Route, res: OpResult)
    ensures r == Initialize ==> AnswerFor(r, res) == Answer(res.value, res.err)
    ensures r in {CodeAction, ResolveCodeAction} ==>
      (res.err.Some? ==> AnswerFor(r, res) == Answer(None, res.err))
      && (res.err.None? ==> AnswerFor(r, res) == Answer(res.value, None))
    ensures r !in {Initialize, CodeAction, ResolveCodeAction} ==> AnswerFor(r, res) == Answer(None, res.err)
  {
  }

  /** serverDispatch: route by method name, decode the params, call the operation, reply once.
      An unknown method is reported handled with no reply. */
  function ServerDispatch(methodName: string, params: Raw, decode: (Route, Json) -> Result<Json, Error>,
                          op: (Route, Option<Json>) -> OpResult, reply: Answer -> Option<Error>): Dispatch
  {
    match RouteOf(methodName)
    case None => Dispatch(true, None, None, None)
    case Some(r) =>
      var decoded :=
        if TakesParams(r) then LspProtocol.UnmarshalJSON(params, None, (j, _) => match decode(r, j)
                                                                       case Ok(v) => Ok(Some(v))
                                                                       case Err(e) => Err(e))
        else Ok(None);
      match decoded
      case Err(e) =>
        var a := Answer(None, Some(ParseError(e)));
        Dispatch(true, None, Some(a), reply(a))
      case Ok(p) =>
        var a := AnswerFor(r, op(r, p));
        Dispatch(true, Some((r, p)), Some(a), reply(a))
  }

  /** Each known method calls its own operation, or replies with a parse error when its params
      do not decode; exactly one reply is sent, and its error is what dispatch returns. */
  lemma DispatchKnownMethod(r: Route, params: Raw, decode: (Route, Json) -> Result<Json, Error>,
                            op: (Route, Option<Json>) -> OpResult, reply: Answer -> Option<Error>)
    ensures var d := ServerDispatch(MethodOf(r), params, decode, op, reply);
      d.handled && d.answer.Some? && d.err == reply(d.answer.value)
      && (d.invoked.Some? ==> d.invoked.value.0 == r && d.answer.value == AnswerFor(r, op(r, d.invoked.value.1)))
      && (d.invoked.None? <==>
            TakesParams(r) && params.Some? && params != Some(JNull) && decode(r, params.value).Err?)
      && (d.invoked.None? ==> d.answer.value == Answer(None, Some(ParseError(decode(r, params.value).error))))
  {
    RouteOfMethod(r, MethodOf(r));
  }

  /** Params are passed on as decoded; absent or null params are the zero value; exit and
      shutdown never look at theirs. */
  lemma DispatchParams(r: Route, params: Raw, decode: (Route, Json) -> Result<Json, Error>,
                       op: (Route, Option<Json>) -> OpResult, reply: Answer -> Option<Error>)
    ensures var d := ServerDispatch(MethodOf(r), params, decode, op, reply);
      (!TakesParams(r) ==> d.invoked == Some((r, None)))
      && (TakesParams(r) && (params.None? || params == Some(JNull)) ==> d.invoked == Some((r, None)))
      && (TakesParams(r) && params.Some? && params != Some(JNull) && decode(r, params.value).Ok? ==>
            d.invoked == Some((r, Some(decode(r, params.value).value))))
  {
    RouteOfMethod(r, MethodOf(r));
  }

  /** An unknown method is reported handled, with no operation and no reply. */
  lemma DispatchUnknownMethod(methodName: string, params: Raw, decode: (Route, Json) -> Result<Json, Error>,
                              op: (Route, Option<Json>) -> OpResult, reply: Answer -> Option<Error>)
    requires RouteOf(methodName).None?
    ensures ServerDispatch(methodName, params, decode, op, reply) == Dispatch(true, None, None, None)
  {
  }

  /** The outcome of ServerHandler: the dispatch it made (None when it refused a cancelled
      request), its reply, whether the fallback handler ran, and the error it returns. */
  datatype Handled = Handled(dispatched: Option<Dispatch>, answer: Option<Answer>, fallback: bool, err: Option<Error>)

  /**
   * ServerHandler: a request whose context has already ended is answered with
   * RequestCancelledError (on a detached context) and not dispatched. Otherwise the
   * fallback handler runs only when dispatch neither handled the request nor failed.
   */
  function ServerHandler(cancelled: bool, req: Message, decode: (Route, Json) -> Result<Json, Error>,
                         op: (Route, Option<Json>) -> OpResult, reply: Answer -> Option<Error>,
                         fallback: Option<Error>): Handled
    requires req.IsRequest()
  {
    if cancelled then
      var a := Answer(None, Some(RequestCancelledError));
      Handled(None, Some(a), false, reply(a))
    else
      var d := ServerDispatch(req.MethodName(), req.Params(), decode, op, reply);
      if d.handled || d.err.Some? then Handled(Some(d), d.answer, false, d.err)
      else Handled(Some(d), None, true, fallback)
  }

  /** A cancelled request gets exactly the cancellation reply and reaches no operation; an
      uncancelled one is dispatched and never reaches the fallback, since dispatch reports
      every request handled. */
  lemma ServerHandlerOutcome(cancelled: bool, req: Message, decode: (Route, Json) -> Result<Json, Error>,
                             op: (Route, Option<Json>) -> OpResult, reply: Answer -> Option<Error>,
                             fallback: Option<Error>)
    requires req.IsRequest()
    ensures var h := ServerHandler(cancelled, req, decode, op, reply, fallback);
      !h.fallback
      && (cancelled ==> h.dispatched.None? && h.answer == Some(Answer(None, Some(RequestCancelledError))))
      && (!cancelled ==> h.dispatched == Some(ServerDispatch(req.MethodName(), req.Params(), decode, op, reply))
                         && h.answer == h.dispatched.value.answer && h.err == h.dispatched.value.err)
  {
  }
}
