/**
 * Go error values, reduced to what callers can tell apart: where an error came from
 * and its message text. The rpc package's ErrParse, ErrInvalidRequest and
 * ErrMethodNotFound are strings, not error values: each use builds a fresh error from
 * one with errors.New, so `errors.Is` cannot match them, and a kind here records
 * which text an error was built from.
 */
module Errors {
  datatype ErrorKind =
    | Plain             // built by fmt.Errorf or errors.New from no rpc error text
    | InvalidRequest    // built from rpc.ErrInvalidRequest's text
    | ParseError        // built from rpc.ErrParse's text
    | MethodNotFound    // built from rpc.ErrMethodNotFound's text
    | RequestCancelled  // lsp.RequestCancelledError
    | ContextCanceled   // ctx.Err() of a cancelled context
    | RemoteError       // an error object received from the peer in a response

  datatype Error = Error(kind: ErrorKind, message: string)

  const ErrInvalidRequestText := "JSON RPC invalid request"
  const ErrParseText := "JSON RPC parse error"
  const ErrMethodNotFoundText := "JSON RPC method not found"

  const Canceled := Error(ContextCanceled, "context canceled")

  /** lsp.RequestCancelledError */
  const RequestCancelledError := Error(RequestCancelled, "JSON RPC cancelled")
}
