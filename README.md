# pulumilsp, modelled in Dafny

pulumilsp is a small Language Server Protocol (LSP 3.17) server for Pulumi programs written in
TypeScript. When a file is saved, it runs a Pulumi preview with the user's policy packs and turns
each policy violation into a diagnostic on the resource's source line. It can also offer a
quick fix for a diagnostic and ask GitHub Copilot's Pulumi skill, or OpenAI, for the fixed code.

This project is a Dafny model of that server's core, organised like the Go packages:

- **JSON-RPC transport** (`rpc_stream`, `rpc_wire`, `rpc_messages`, `rpc_conn`):
  - the header framing of the LSP base protocol (`Content-Length: N`, a blank line, then N bytes);
  - the JSON-RPC 2.0 wire shapes with their number-or-string ids and the `"jsonrpc":"2.0"` tag;
  - the sorting of a decoded object into a call, a notification or a response;
  - the connection, with its call counter, its table of pending calls, delivery of responses by id, and replies written only for calls.

  JSON is a small datatype (`json`). The byte syntax of JSON text is left to a parser and serialiser given as parameters.
- **LSP layer** (`lsp_protocol`, `lsp_server`, `lsp_client`):
  - file URIs;
  - the routing of the eight handled methods to server operations, with exactly one reply each;
  - the parse-error reply;
  - the client's method table;
  - the `$/cancelRequest` notification;
  - the handler that answers cancelled requests.
- **Session state** (`snapshots`, `views`, `session`, `initialization`, `text_document`, `progress`):
  - reference-counted snapshots of the workspace, with copy-on-write file maps and an at-most-once initialization latch;
  - the view that owns the current snapshot;
  - the server's lifecycle (created, initializing, initialized, shut down);
  - the handling of `didOpen` and `didSave`;
  - the critical-error status;
  - the work-done progress registry.

  Objects whose fields the Go code updates are Dafny classes with `modifies` frames.
- **Diagnostics** (`pulumi_run`, `captures`, `diagnostics`, `publishing`):
  - the store of resources that folds the preview's engine events;
  - the capture records produced by the source parser;
  - the grouping of a run's policy diagnostics by file, with enforcement levels mapped to LSP severities;
  - the per-file publish table, in which every file is published exactly once per update.
- **Code actions and AI fixers** (`code_actions`, `ai_copilot`, `ai_openai`, `lines`):
  - one quick fix per diagnostic, and the checks made when the client resolves one;
  - the Copilot and OpenAI request builders and response checks;
  - the line filters that strip imports, exports, comments and code fences from generated code.
- **Small helpers** (`file`, `file_kind`, `strs`, `strconv`, `errors`, `wrappers`):
  - file actions and the in-place XOR of file hashes;
  - file kinds;
  - the few pieces of Go's `strings` and `strconv` that the code relies on, including int32 and uint64 wrap-around.

Concurrency is modelled as sequential calls:

- A context is a cancelled flag. A detached context is a fresh, uncancelled flag.
- A goroutine is a method called at the point where it takes effect.
- Disk reads, the Pulumi preview, the parser, random progress tokens and HTTP exchanges are parameters of the operations that use them.

## Model

| member | source | states |
|---|---|---|
| RpcStream.HeaderStream.constructor | rpc/stream.go:29-34 | a new stream has the given input unread, has written nothing, and has a writer that takes the given number of bytes before it fails (none: it never fails) |
| RpcStream.HeaderStream.Read | rpc/stream.go:41-87 | a cancelled read fails with nothing consumed; otherwise the bytes consumed, the count and the message (or error) are those of the header framing followed by decoding the body |
| RpcStream.HeaderStream.ReadWith | rpc/stream.go:49-86 | the header loop, proved by a loop invariant to give the framing function's count, rest of input and body for any meaning of header lines |
| RpcStream.HeaderStream.Write | rpc/stream.go:89-106 | a cancelled write sends and counts nothing; otherwise the writer takes the first k bytes of `Content-Length: n` CR LF CR LF followed by the n encoded bytes, where k is all of them or as many as it still has room for; the count is k, and the write fails with the writer's error exactly when k falls short |
| RpcStream.HeaderStream.Put | rpc/stream.go:99-104 | one write to the writer appends and counts the bytes it has room for, reduces its room by that many, and fails exactly when it took fewer than it was given |
| RpcStream.DecodeBody | rpc/stream.go:85-86 | a framing error is passed on unchanged; a body is decoded as a message |
| RpcStream.StepIgnored | rpc/stream.go:73-75 | a header line with another name is consumed and counted and the loop goes on with the same length |
| RpcStream.StepLength | rpc/stream.go:66-72 | a Content-Length line with a positive 32-bit value is consumed and counted and sets the length |
| RpcStream.StepEnd | rpc/stream.go:55-59 | the line that is blank once trimmed ends the header, is counted, and the body read follows |
| RpcStream.LengthHeaderParses | rpc/stream.go:55-66 | a line `Content-Length: v` with trailing white space is a Content-Length header whose value is exactly v |
| RpcStream.TrimLengthLine | rpc/stream.go:55 | trimming removes only the trailing white space of such a line |
| RpcStream.ColonOfLengthLine | rpc/stream.go:60 | the first colon of a Content-Length line is right after the header name |
| RpcStream.TrimLengthValue | rpc/stream.go:64 | the trimmed text after that colon is the value |
| RpcStream.LengthLineSplits | rpc/stream.go:50 | reading a line from a Content-Length line followed by more input stops at its own newline |
| RpcStream.LengthLineParses | rpc/stream.go:66-67 | the header line written for n is read as a Content-Length value that parses back to n |
| RpcStream.ReadLengthLine | rpc/stream.go:66-72 | a well-formed Content-Length line sets the length to its value and is counted whole |
| RpcStream.ReadLengthLineWith | rpc/stream.go:66-72 | the same for any reading of header lines that reads that line as a Content-Length |
| RpcStream.ReadOtherHeader | rpc/stream.go:73-75 | a line with another header name is counted and otherwise ignored |
| RpcStream.ReadLineSplit | rpc/stream.go:50 | reading a line stops at the first newline and keeps it |
| RpcStream.TrimNewline | rpc/stream.go:55 | the kept newline does not change the trimmed line |
| RpcStream.TrimLeftAppend | rpc/stream.go:55 | left trimming is unaffected by a character appended after a non-blank text |
| RpcStream.ReadLineWithoutColon | rpc/stream.go:60-63 | a non-blank header line without a colon ends the read with an invalid-header error naming the trimmed line, after counting it |
| RpcStream.ReadBadLength | rpc/stream.go:67-72 | a Content-Length value that is not a positive 32-bit decimal ends the read with the parse or the invalid-length error |
| RpcStream.ReadWithoutLength | rpc/stream.go:77-79 | an empty line before any Content-Length ends the read with the missing-length error |
| RpcStream.ReadUnterminatedLine | rpc/stream.go:50-54 | input that ends inside a header line fails the read with every remaining byte counted |
| RpcStream.LastLengthWins | rpc/stream.go:65-72 | of two Content-Length lines the last one decides the length |
| RpcStream.LastLengthWinsWith | rpc/stream.go:65-72 | the same for any reading of header lines that reads both lines as Content-Length |
| RpcStream.ReadFramed | rpc/stream.go:41-106 | what Write frames, Read takes back: exactly the body, every byte counted, and the input after it left unread |
| RpcStream.WriteThenRead | rpc/stream.go:85-106 | a message written and then read over the same bytes is the decoding of its own encoding, and nothing after it is consumed |
| RpcWire.EncodeID | rpc/wire.go:75-80 | an identifier is written as a string exactly when it has a name, otherwise as a number |
| RpcWire.UnmarshalID | rpc/wire.go:82-88 | the receiver is reset; reading succeeds exactly for null, a string, or a literal that parses as a 64-bit integer, and a named result came from that very string |
| RpcWire.UnmarshalEncodeID | rpc/wire.go:75-88 | every identifier that has only a name or only a number reads back as itself |
| RpcWire.NamedIDLosesNumber | rpc/wire.go:75-80 | an identifier with both a name and a number loses the number on the wire |
| RpcWire.EmptyNameIsZero | rpc/wire.go:82-88 | the empty string and the number 0 decode to the same identifier |
| RpcWire.DecodeVersionTag | rpc/wire.go:64-73 | the version tag is accepted exactly when it is the string "2.0" |
| RpcWire.IdMember | rpc/wire.go:25 | an absent or null `id` is nil; any other value must decode as an identifier |
| RpcWire.RawMember | rpc/wire.go:21 | an absent or null raw member is nil; otherwise it is the value itself |
| RpcWire.StringMember | rpc/wire.go:19 | a string member is "" when absent or null, the string when it is one, and a type error otherwise |
| RpcWire.EncodeRequest | rpc/wire.go:15-26 | the encoding carries the version tag and the method, and carries params and id exactly when they are set |
| RpcWire.EncodeResponse | rpc/wire.go:32-41 | the encoding carries the version tag, no method or params, and result, error and id exactly when they are set |
| RpcWire.ErrorMemberAsWritten | rpc/wire.go:51 | an `error` member of interface type decodes only when absent or null |
| RpcWire.ErrorMember | rpc/wire.go:45-52 | an `error` member decodes when absent, null or an object, and an object gives a remote error |
| RpcWire.DecodeRequest | rpc/wire.go:15-26 | null decodes to the empty request; any value that is not an object or null fails |
| RpcWire.DecodeCombinedWith | rpc/wire.go:45-52 | an object decodes exactly when its version tag, method, id and error members do, and the result holds exactly those members |
| RpcMessages.NormalRaw | rpc/messages.go:83-85 | a raw value that is nil or null becomes nil, and any other value is kept |
| RpcMessages.MarshalToRaw | rpc/messages.go:150-156 | the raw form of a value is its encoding |
| RpcMessages.NewCall | rpc/messages.go:91-94 | the call has the given id and method, and params that encode the given value |
| RpcMessages.NewNotification | rpc/messages.go:58-61 | the notification has the given method, and params that encode the given value |
| RpcMessages.NewResponse | rpc/messages.go:128-131 | the response has the given id and error, and a result that encodes the given value |
| RpcMessages.MarshalShapes | rpc/messages.go:68-148 | a call is written with an id and a method, a notification without an id, a response with an id and no method, and with a result exactly when it has no error |
| RpcMessages.UnmarshalCall | rpc/messages.go:111-124 | on failure the receiver is unchanged; on success the method is replaced, and params and id only when the data holds them |
| RpcMessages.UnmarshalNotification | rpc/messages.go:77-87 | on failure the receiver is unchanged; on success the method is replaced, params only when present, and an id is ignored |
| RpcMessages.UnmarshalMarshalledCall | rpc/messages.go:102-124 | a written call read into any receiver gives its own method and id, and its own params unless they were empty or null |
| RpcMessages.UnmarshalMarshalledNotification | rpc/messages.go:68-87 | the same for a notification |
| RpcMessages.DecodeMessageKinds | rpc/messages.go:158-192 | no method and no id is an invalid request; no method with an id is a response; a method without an id is a notification; a method with an id is a call |
| RpcMessages.DecodeMessageNonObject | rpc/messages.go:158-167 | anything but an object fails, and null is an invalid request |
| RpcMessages.DecodeMarshalCall | rpc/messages.go:102-192 | a call with a method name reads back as itself, with empty params becoming nil |
| RpcMessages.DecodeNamelessCall | rpc/messages.go:163-176 | a written call without a method name reads back as an empty response with its id |
| RpcMessages.DecodeMarshalNotification | rpc/messages.go:68-185 | a notification reads back as itself when it has a method name, and as an invalid request otherwise |
| RpcMessages.DecodeMarshalResponse | rpc/messages.go:138-176 | a successful response reads back as itself; a failed one reads back as a failed response with the same id but no message text |
| RpcMessages.ErrorResponseUndecodableAsWritten | rpc/messages.go:158-162 | as written, every failed response fails to decode |
| RpcMessages.DecodersAgreeWithoutErrorMember | rpc/messages.go:158-192 | the written decoder and the corrected one agree on every input without an error object |
| RpcConn.ErrorResponseFails | rpc/conn.go:104-107 | a response that carries an error makes that error the call's error, whatever its result |
| RpcConn.ResponseErrorCases | rpc/conn.go:108-115 | without an error in the response, a call fails exactly when it wants a result, one arrived, and it does not decode into the result's type |
| RpcConn.RunRepliesOnlyToCalls | rpc/conn.go:120-161 | every reply Run writes is a response carrying the id of a call it read |
| RpcConn.RunDeliversById | rpc/conn.go:165-174 | Run never adds or removes pending calls; a slot is filled only by a response read with that slot's own id |
| RpcConn.RunNeverReturns | rpc/conn.go:146-157 | Run ends only by failing on cancellation, the end of input or an unreadable message from the stream, or by blocking on a full slot |
| RpcConn.Conn.constructor | rpc/conn.go:52-60 | a new connection has handed out no id, has nothing pending and has sent nothing, over a stream whose writer is broken or not as given |
| RpcConn.Conn.Write | rpc/conn.go:142-144 | a cancelled write sends nothing and fails; a broken writer sends nothing and gives its error; otherwise the message is appended to what was sent |
| RpcConn.Conn.Notify | rpc/conn.go:62-69 | exactly one notification with the method and params is sent, unless cancelled or the writer is broken, whose error is then the result |
| RpcConn.Conn.StartCall | rpc/conn.go:71-98 | the id is the next number, with wrap-around, and was not pending; the call is registered before it is sent, and a cancelled or refused send removes it again and is the error |
| RpcConn.Conn.Deliver | rpc/conn.go:165-174 | a response for an unknown id is dropped; one for an empty slot fills it; one for a full slot blocks with nothing changed |
| RpcConn.Conn.FinishCall | rpc/conn.go:99-118 | cancellation wins; otherwise a delivered response decides the error; either way the call leaves the pending table, and with neither nothing changes |
| RpcConn.Conn.Call | rpc/conn.go:71-119 | the id is the previous one plus 1; the pending table ends as it began; the call is sent unless cancelled first or refused by the writer, whose error is then returned without waiting; otherwise the error is the cancellation or that of the answer; the log begins with the registration and ends with the removal |
| RpcConn.Conn.Replier | rpc/conn.go:120-140 | nothing is sent for a notification; for a call, exactly one response with the call's id, unless cancelled or refused by the writer, whose error is returned |
| RpcConn.Conn.Read | rpc/stream.go:41-46 | a cancelled read fails and consumes nothing; otherwise it takes the next message, or reports the end of input |
| RpcConn.Conn.Run | rpc/conn.go:146-178 | the loop, proved by its invariant to send exactly the replies the run function gives (none when the writer is broken, since a refused reply is only logged), leave the pending table and end the way the run function says |
| RpcConn.Conn.RunStep | rpc/conn.go:148-177 | one turn of the loop either ends the run as the run function says, or consumes a message and leaves the rest of the run to the run function of what is left, after its replies |
| LspProtocol.AbsentParamsDecode | lsp/protocol.go:24-29 | absent or null params decode without error and leave the target untouched; any other params are decoded into it |
| LspProtocol.CancelParamsAsWritten | lsp/protocol.go:79-82 | as written, the cancellation params hold only an `id` member, and it is an empty object |
| LspProtocol.CancelParams | lsp/protocol.go:73-77 | the cancellation params hold only an `id` member, the encoding of the cancelled call's id |
| LspProtocol.CancelIdLostAsWritten | lsp/protocol.go:79-82 | as written, for every id the peer cannot read back which request is cancelled |
| LspProtocol.CancelIdReadsBack | lsp/protocol.go:73-82 | the corrected params read back as the cancelled call's id |
| LspProtocol.ClientCall | lsp/protocol.go:63-71 | the call is made with the next id; when its context ended at any point a `$/cancelRequest` for that id follows; a broken writer sends neither and its error is returned unless the context ended first; otherwise the call's error is returned unchanged; nothing is left pending |
| LspServer.PathOfURIFromPath | lsp/server.go:18-28 | the path of the URI built from a non-empty path is that path |
| LspServer.URIFromPathOfPath | lsp/server.go:18-28 | only `file://` URIs have a path, and building a URI from that path gives the URI back |
| LspServer.RouteOfMethod | lsp/server.go:66-147 | each of the eight known method names routes to exactly one operation, and each operation is reached by its own name only |
| LspServer.ParseErrorAsWritten | lsp/server.go:150-152 | as written, the reply's error is a plain error that does not wrap the parse error |
| LspServer.ParseError | lsp/server.go:150-152 | the reply's error is a parse error whose text starts with the parse-error text |
| LspServer.AnswerShapes | lsp/server.go:66-144 | initialize replies with its result and its error; codeAction and resolve reply with either the error or the result; the rest reply with the error alone |
| LspServer.DispatchKnownMethod | lsp/server.go:66-144 | a known method calls its own operation, or replies with a parse error exactly when it takes params, has some and they fail to decode; exactly one reply is sent, and dispatch returns what the replier returns |
| LspServer.DispatchParams | lsp/server.go:66-144 | the operation gets the decoded params; absent or null params give the zero value; exit and shutdown never look at theirs |
| LspServer.DispatchUnknownMethod | lsp/server.go:145-146 | an unknown method is reported handled, with no operation called and no reply |
| LspServer.ServerHandlerOutcome | lsp/protocol.go:84-96 | a cancelled request gets exactly the cancellation reply and reaches no operation; any other request is dispatched, and the fallback handler never runs |
| LspClient.ClientTable | lsp/client.go:24-54 | exactly workDoneProgress/create and configuration are calls, and only configuration decodes a result; two requests sharing a method name are the two progress reports |
| LspClient.Send | lsp/client.go:24-54 | a notification sends one message under its method name; a call sends the call and, when cancelled, the cancellation; a broken writer's error is returned with nothing sent; nothing is left pending; an answered configuration gives exactly the list its result holds, nothing for null, and an error for anything else |
| File.ActionNames | file/file.go:63-80 | a value prints "Unknown" exactly when it is not one of the six named actions, and no two named actions print alike |
| File.Xor | file/file.go:26-30 | the XOR of two hashes has their length and is their byte-by-byte XOR |
| File.XORWith | file/file.go:26-30 | the loop, proved by its invariant, leaves the hash equal to its XOR with the other hash, in place |
| File.XorTwice | file/file.go:26-30 | XORing with the same hash twice gives back the original |
| File.XorCommutes | file/file.go:26-30 | the order of two XORs into a hash does not matter |
| File.XorZero | file/file.go:26-30 | XORing with the all-zero hash changes nothing |
| FileKind.KindForLang | file/kind.go:33-40 | exactly the language id "typescript" selects TypeScript; every other id is the unknown kind |
| FileKind.KindForLangOfString | file/kind.go:21-40 | only TypeScript's name selects its kind again; the text printed for any other kind selects the unknown kind |
| FileKind.KindStringInjective | file/kind.go:21-28 | distinct kinds print distinctly, and every kind but TypeScript prints the internal-error prefix |
| PulumiRun.ResourceInfo.constructor | pulumicommand/run.go:33-36 | a new record has no source position and no diagnostics |
| PulumiRun.ResourceInfo.SetSourcePosition | pulumicommand/run.go:38-40 | only the source position changes, to the given one |
| PulumiRun.ResourceInfo.AddDiagnostic | pulumicommand/run.go:42-44 | the diagnostic is appended, starting a nil list, and the position is kept |
| PulumiRun.ResourceInfo.SetDiagnostics | pulumicommand/run.go:46-48 | only the diagnostics change, to the given list |
| PulumiRun.AddAllContents | pulumicommand/run.go:137-139 | after the AnalyzeStack fold a URN has a record exactly when it had one or a diagnostic names it; its position is kept and its list grows by exactly its own diagnostics, in order |
| PulumiRun.HandledEventTouches | pulumicommand/run.go:105-153 | RegisterResource changes only the response URN's position; Analyze replaces only the request URN's diagnostics; other methods, failed decodes and nil lists change nothing |
| PulumiRun.ResourceStore.constructor | pulumicommand/run.go:70 | a new store has no records |
| PulumiRun.ResourceStore.GetResourceInfo | pulumicommand/run.go:50-55 | the record is found exactly when the URN has one, and nothing is created |
| PulumiRun.ResourceStore.GetOrCreate | pulumicommand/run.go:57-67 | the URN's existing record is returned, or a fresh empty one is stored first; the other records do not change |
| PulumiRun.ResourceStore.HandleRegisterResource | pulumicommand/run.go:118-125 | the response URN's record gets the request's source position, and no other record changes |
| PulumiRun.ResourceStore.AddDiagnostic | pulumicommand/run.go:138 | the diagnostic is appended to the record of its own URN, and no other record changes |
| PulumiRun.ResourceStore.HandleAnalyzeStack | pulumicommand/run.go:127-140 | the loop, proved by its invariant, leaves the contents the fold of the response's diagnostics |
| PulumiRun.ResourceStore.HandleAnalyze | pulumicommand/run.go:142-153 | the request URN's record gets the response's diagnostics, and no other record changes |
| PulumiRun.ResourceStore.HandleGrpcEvent | pulumicommand/run.go:105-116 | the contents after the event are those the event function gives |
| Json.StringField | lsp/textdocument_codeaction.go:57-60 | a string field reads as "" when missing or null and as the string when it is one, and fails exactly for any other value |
| Captures.DecodeString | lsp/textdocument_codeaction.go:57-60 | a missing field is "", and a string field is that string |
| Captures.DecodeUint | parser/parse.go:48-54 | a decoded row or column fits a 64-bit unsigned integer, and a missing one is 0 |
| Captures.DecodePoint | parser/parse.go:52-53 | a decoded point has both coordinates within range |
| Captures.DecodeResolveData | server/textdocument_codeaction.go:39-44 | decoded data always holds a capture within range, and any value but an object or null is a type error |
| Captures.DecodeEncodePoint | parser/parse.go:52-53 | a point within range reads back as itself |
| Captures.DecodeEncode | server/diagnostics.go:227-236 | the data a diagnostic is given decodes back to its capture and its file's URI |
| Captures.DecodeUnset | lsp/textdocument_codeaction.go:57-60 | null, and any object whose resolve-data members are all absent or null, the empty object among them, decode to the zero capture with no URI |
| Diagnostics.EnforcementLevelToSeverity | server/diagnostics.go:279-293 | exactly the four known levels have a severity, each between 1 and 4; any other level panics |
| Diagnostics.SeverityBijection | server/diagnostics.go:279-293 | the mapping is a bijection between the four known levels and the severities 1 to 4 |
| Diagnostics.FirstCapture | server/diagnostics.go:270-277 | no capture is found exactly when none starts on the row; a found capture is one of them and starts on the row |
| Diagnostics.FindCaptureWithStartLine | server/diagnostics.go:270-277 | the scan, proved by its invariant, finds the first capture starting on the row the int32 line converts to as an unsigned integer |
| Diagnostics.ConvertAllMeaning | server/diagnostics.go:225-254 | converting a resource's policy diagnostics succeeds exactly when every level is known, and then converts each one in place over the capture's range with its message, policy name, severity and resolve data; otherwise it panics on the first unknown level |
| Diagnostics.ResolveDataRoundTrip | server/diagnostics.go:227-248 | the resolve data of every converted diagnostic decodes back to its capture and file |
| Diagnostics.FoldMeaning | server/diagnostics.go:201-265 | the grouping panics exactly when some resource does; otherwise a file has an entry exactly when some resource contributes to it, and the entry is all it is given, in iteration order |
| Diagnostics.ResourceDiagnosticsAbout | server/diagnostics.go:214-253 | every diagnostic a resource contributes is about the resource's own file |
| Diagnostics.PerUriAbout | server/diagnostics.go:255-264 | under a rule whose diagnostics are about the resource's file, everything filed under a URI is about that file |
| Diagnostics.GroupAbout | server/diagnostics.go:200-267 | in the grouping, every diagnostic filed under a URI is about that file |
| Diagnostics.FoldAgrees | server/diagnostics.go:201-265 | two per-resource rules that agree on every resource group alike |
| Diagnostics.AsWrittenAgreesWithoutNils | server/diagnostics.go:201-265 | where every resource has a source position and a capture on its line, the code as written groups exactly as the corrected one |
| Diagnostics.NilSourcePositionPanics | server/diagnostics.go:202-213 | as written, a resource without a source position makes diagnose panic; corrected, it is skipped |
| Diagnostics.MissingCapturePanics | server/diagnostics.go:225-228 | as written, a resource with a diagnostic on a line that starts no capture makes diagnose panic; corrected, it is skipped |
| Diagnostics.DiagnoseResource | server/diagnostics.go:210-254 | one resource's diagnostics are those the per-resource rule gives, and the captures cache only ever holds what the file's captures are |
| Diagnostics.DiagnoseResources | server/diagnostics.go:200-267 | the resource loop, proved by its invariant, gives the grouping function's result |
| Diagnostics.FoldStep | server/diagnostics.go:255-264 | one more resource either keeps a panic, panics, or appends its diagnostics to its file's entry |
| Diagnostics.ConvertAllPanicExtends | server/diagnostics.go:225-254 | once converting a prefix of the diagnostics panics, converting all of them panics the same way |
| Diagnostics.FoldPanicExtends | server/diagnostics.go:201-265 | once a prefix of the resources panics, the whole grouping panics the same way |
| Diagnostics.ToProtocol | server/diagnostics.go:91-97 | the published message is the diagnostic's message with surrounding ASCII white space trimmed, and the diagnostic's data is always present |
| Diagnostics.ToProtocolDiagnostics | server/diagnostics.go:88-101 | the loop gives one published diagnostic per diagnostic, in order |
| Diagnostics.ToProtocolMessage | server/diagnostics.go:88-101 | a published message has no surrounding ASCII white space, and range, severity and source are copied unchanged and data is carried over as present |
| Snapshots.Latch.constructor | server/server.go:178-213 | a new initial-load channel is open |
| Snapshots.Latch.Close | server/snapshot.go:89-93 | closing is allowed only on an open channel, since a second close panics, and leaves it closed |
| Snapshots.ClonedFiles | server/snapshot.go:180-202 | a changed URI whose handle has no content is removed, one with content is replaced by it, and every other URI keeps its entry |
| Snapshots.CloneFiles | server/snapshot.go:180-195 | the two loops, proved by their invariants, give the cloned file map |
| Snapshots.RefsRun | server/snapshot.go:153-173 | over any run of acquires and releases that never trips the positive-count assertion, the count moves by one per operation and done runs once exactly when the count ends at zero |
| Snapshots.PairsBalance | server/snapshot.go:153-173 | any number of acquire-then-release pairs from a positive count leave the count as it was and never run done |
| Snapshots.Snapshot.constructor | server/server.go:193-206 | a view's first snapshot has no files, sequence number 0, a count of 1, no runner and no error, and is not initialized |
| Snapshots.Snapshot.Acquire | server/snapshot.go:153-160 | a positive count goes up by one |
| Snapshots.Snapshot.Decref | server/snapshot.go:164-173 | a positive count goes down by one, and done runs exactly when it reaches zero |
| Snapshots.Snapshot.Cancel | server/snapshot.go:32 | the snapshot's background context is cancelled |
| Snapshots.Snapshot.Initialize | server/snapshot.go:71-109 | nothing happens when cancelled or already initialized; otherwise the workspace is set up only without a runner, the snapshot ends initialized with its error set exactly when that set-up failed, and a first attempt closes the initial-load channel |
| Snapshots.Snapshot.AwaitInitialized | server/snapshot.go:111-119 | a cancelled wait returns at once; an open initial-load channel blocks; otherwise a later attempt at initialization is made |
| Snapshots.Snapshot.ReadFile | server/snapshot.go:204-225 | a cached handle is returned; otherwise the read, which on success is cached and on failure changes nothing |
| Snapshots.Snapshot.Clone | server/snapshot.go:227-249 | the clone is fresh, with the next sequence number, a count of 1, the same runner and initialized flag, the files cloned with the changes, and the policy diagnostics overridden by the changed ones |
| Views.View.constructor | server/server.go:163-176 | a new view has its id, root and Pulumi.yaml, no snapshot yet, and an uncancelled initial load |
| Views.View.Snapshot | server/view.go:67-74 | the call fails exactly when the view is shut down and hands out no reference then; otherwise it returns the current snapshot with its count raised by one |
| Views.View.Shutdown | server/view.go:44-54 | the initial load is cancelled; a held snapshot is cancelled and released by one decref and forgotten, so a second shutdown releases nothing |
| Session.StateStringInjective | server/server.go:72-84 | two server states with the same printed name are the same state, for the four named states and every unknown value alike |
| Session.PulumiYamlInRoot | server/server.go:163-176 | the view's Pulumi.yaml URI is a file URI whose path is the root directory followed by "/Pulumi.yaml" |
| Session.ErrorStatusMessage | server/server.go:215-236 | the status message has no newline, and it is empty exactly when there is no error or the error's text is empty |
| Session.MarkedStep | server/diagnostics.go:35-43 | marking one more file gives that file an entry with mustPublish set, created empty when missing, and leaves every other entry alone |
| Session.ReadChanged | server/textdocument.go:64-68 | after the loop, the changed-files map holds every modified URI, each read from disk, and nothing else |
| Session.InitialWorkspaceLoad | server/server.go:207-211 | the background load releases its snapshot reference (Done runs when the count reaches zero); unless it was cancelled or the snapshot was already initialized, it initializes the snapshot, closes the load latch, and records either a runner or the workspace error |
| Session.Scope.Cancel | server/textdocument.go:86-90 | cancelling a diagnosis scope marks it cancelled |
| Session.Server.constructor | server/server.go:29-45 | a new server is Created, has no view, no status, no diagnostics and no progress, is at the info log level, and has both counters at zero |
| Session.Server.Initialize | server/initialize.go:21-71 | a repeated initialize fails with the state in its message; options that do not decode fail and change nothing; otherwise the server is Initializing, with the root, progress support and (when named) the log level recorded; every path releases stateMu |
| Session.Server.InitializeAsWritten | server/initialize.go:27-32 | the same answers as Initialize, but stateMu stays held exactly when the options fail to decode in the Created state |
| Session.Server.InitializedNotification | server/initialize.go:73-89 | initialized fails once the server is Initialized or later; otherwise the state becomes Initialized, even without a prior initialize |
| Session.Server.CreateView | server/server.go:178-213 | the new view takes the next index as its id and a fresh open load latch; its first snapshot is empty and uninitialized and holds three references |
| Session.Server.NewView | server/server.go:163-176 | the server's view becomes a fresh view of the root, whose Pulumi.yaml is the root directory's Pulumi.yaml |
| Session.Server.InvalidateViewLocked | server/server.go:238-263 | with no view it panics on the nil view, and with a view but no snapshot it panics with "called after shutdown", returning nothing; otherwise a save cancels the previous snapshot; while the initial load runs the call blocks; otherwise the view moves to a clone with the changed files and the next sequence id, which holds two references, and the old snapshot loses one |
| Session.Server.SwapSnapshot | server/server.go:259-262 | the view moves to a fresh clone with the changed files, the next sequence id, the same runner and no initialization error; the clone holds two references and the old snapshot one fewer |
| Session.Server.UpdateCriticalErrorStatus | server/server.go:215-236 | afterwards a status exists exactly when the error has a message; a new message starts an "Error loading workspace" report; a cleared error ends the status with "Done." and drops its token; otherwise no report is sent |
| Session.Server.Shutdown | server/server.go:267-279 | the first shutdown sets ShutDown, cancels the view's load and snapshot, releases the view's reference, drops the view and closes the parser; later shutdowns change nothing; a missing view is skipped |
| Session.Server.ShutdownAsWritten | server/server.go:267-279 | the result is a panic exactly when the first shutdown finds no view; the state is ShutDown by then and the parser is still open |
| Session.Server.Exit | server/server.go:281-288 | exit ends the process with status 1 exactly when the server was not shut down; otherwise the handler returns |
| Session.Server.MustPublishAll | server/textdocument.go:58-62 | every modified file gets an entry marked mustPublish, and no other entry changes; the changes list is the modified URIs in order |
| Session.Server.UpdateViewsToDiagnose | server/textdocument.go:83-95 | the previous diagnosis scope is cancelled; a fresh scope replaces it; the modification number advances by one, wrapping as a uint64, and is returned |
| Session.Server.DidModifyFiles | server/textdocument.go:55-81 | modified files are marked; the panics of invalidateViewLocked end the call, for no view and for no snapshot; a save cancels the previous snapshot; unless the call blocks, the view gets a new snapshot with the files as read from disk and the next sequence id, with one reference left, and the pending diagnosis holds a new scope with the next number, the modified URIs in order and the cause it was given |
| Session.Server.DidOpen | server/textdocument_didopen.go:10-18 | the opened document is marked; without a view the call panics; nothing is cancelled; the new snapshot holds the document as versioned disk contents; a pending diagnosis exists exactly when the call neither panics nor blocks, for the one URI and with the cause FromDidOpen |
| Session.Server.DidSave | server/textdocument_didsave.go:12-24 | the saved document is marked; without a view the call panics; the previous snapshot is cancelled; the new snapshot holds the document as read from disk; a pending diagnosis exists exactly when the call neither panics nor blocks, for the one URI and with the cause FromDidSave |
| Session.Server.Diagnose | server/diagnostics.go:162-267 | a cancelled context fails with Canceled and reports nothing; otherwise: the status follows the initialization error or the run error; no runner gives "no runner"; a failed run gives its error; a run gives its resources grouped by file |
| Session.Server.DiagnoseSnapshot | server/diagnostics.go:45-53 | fails exactly when cancelled, without a runner, or when the run fails; a grouping updates every file's entry from its disk version and the snapshot's sequence id, and publishes every such file; otherwise the table is unchanged |
| Session.Server.DiagnoseChangedView | server/diagnostics.go:55-74 | only a save with a live view is diagnosed, and it starts a "Running preview..." report first; the snapshot's reference count ends where it began; otherwise nothing is published or reported |
| Session.Server.DiagnoseSaved | server/diagnostics.go:71-73 | after a save, the diagnosis fails exactly when cancelled, without a runner or with a failed run, and otherwise gives the grouping of the run; the first new progress report is the "Running preview..." start |
| Session.Server.DidOpenThenDiagnose | server/textdocument.go:76-78 | the diagnosis a didOpen starts has cause FromDidOpen, so it runs no analysis, publishes nothing and reports no progress |
| Session.Server.DidSaveThenDiagnose | server/textdocument.go:76-78 | the diagnosis a didSave starts has cause FromDidSave, so it runs exactly when the save reached the view, fails exactly without a runner or with a failed run, otherwise gives the run's grouping, and reports progress |
| Session.Server.ResolveCodeAction | server/textdocument_codeaction.go:31-89 | the answer is CodeActions.Resolve; a failed check reports no progress; otherwise the fixer is asked between a "Fixing with Copilot..." Start and a "Done." End, and its token is dropped again |
| Session.ShutdownBeforeViewPanics | server/server.go:270-274 | a new server with no view panics on shutdown as written and shuts down cleanly once corrected |
| Session.BadOptionsLockServer | server/initialize.go:27-32 | after an initialize whose `initializationOptions` is the number 1, the initialized notification waits forever as written and is accepted once corrected |
| Session.SaveAfterShutdownPanics | server/server.go:238-242 | a didSave after shutdown panics on the missing view, whether or not a view had been made before the shutdown |
| Session.ShutdownThenExit | server/server.go:281-288 | exit before shutdown gives status 1; after shutdown the handler returns |
| CodeActions.CodeActionsFor | server/textdocument_codeaction.go:15-29 | one quick fix per diagnostic, in order, titled after the diagnostic's source, holding that diagnostic and its data, which is absent when the diagnostic has none |
| CodeActions.Checked | server/textdocument_codeaction.go:39-50 | the checks pass exactly when there is data, it decodes as resolve data, and one diagnostic is attached; each failure gives its error; missing data is the nil-dereference panic |
| CodeActions.Fix | server/textdocument_codeaction.go:53-58 | a title containing "Replication" asks Copilot, any other asks OpenAI, with the captured text and the diagnostic's message |
| CodeActions.Finish | server/textdocument_codeaction.go:60-88 | resolving succeeds exactly when the fixer returned a non-empty fix; failures wrap the fixer's error, or %!w(<nil>) for an empty fix |
| CodeActions.ResolveSucceeds | server/textdocument_codeaction.go:31-89 | resolving succeeds exactly when the checks pass and the chosen fixer gives a non-empty fix; the result keeps the title and kind, and its single edit, in the data's file, replaces the capture's range with the fix |
| CodeActions.ResolveUsesChosenFixer | server/textdocument_codeaction.go:54-58 | the fixer the title does not select has no effect on the result |
| CodeActions.OfferedActionChecks | server/textdocument_codeaction.go:15-50 | a quick fix offered for a diagnostic carrying encoded resolve data passes the checks with that data and that diagnostic |
| CodeActions.DatalessActionPanics | server/textdocument_codeaction.go:15-40 | a quick fix offered for a diagnostic without data reaches the nil dereference of its data when resolved, whatever the fixers |
| AiOpenAI.ProcessResult | ai/openai_client.go:139-150 | the result is the input's lines without the code-fence lines, in order, joined by newlines |
| AiOpenAI.ProcessResultIdempotent | ai/openai_client.go:139-150 | removing the fence lines twice is the same as removing them once |
| AiOpenAI.ProcessResultLines | ai/openai_client.go:139-150 | no line of the result starts with a fence; when any line is kept, the result's lines are exactly the kept lines |
| AiOpenAI.AcceptResponse | ai/openai_client.go:129-134 | a response is accepted exactly when it has one output with one content item; the fix is then that item's text without fences; anything else is "unexpected response format" |
| AiOpenAI.MissingKeySendsNothing | ai/openai_client.go:106-109 | without an API key the answer is the missing-key error, whatever sending the request would give |
| AiOpenAI.SendFailure | ai/openai_client.go:114-128 | a failed send is reported with its cause's kind, under "sending request: ", "reading response: " or "unmarshalling response: " exactly for the step that failed |
| AiOpenAI.SendFailureInjective | ai/openai_client.go:114-128 | two different send failures are never reported as the same error |
| AiOpenAI.FixWithOpenAIAnswer | ai/openai_client.go:37-135 | with a key, a send failure is reported through SendFailure, a response goes through the shape check, and no line of a fix is a fence |
| Lines.Filter | ai/openai_client.go:139-150 | the kept lines are no more than the input lines, and every one is accepted by the predicate |
| Lines.FilterAppend | ai/openai_client.go:139-150 | filtering one more line adds that line at the end exactly when the predicate accepts it |
| Lines.FilterSubset | ai/openai_client.go:139-150 | every kept line is one of the input lines |
| Lines.FilterMembers | ai/openai_client.go:139-150 | a line is kept exactly when it is an input line and the predicate accepts it |
| Lines.FilterKeepsAccepted | ai/openai_client.go:139-150 | lines that are all accepted are kept unchanged |
| Lines.FilterIdempotent | ai/openai_client.go:139-150 | filtering twice is the same as filtering once |
| Lines.FilterSplitNoNewline | ai/openai_client.go:139-150 | no kept line contains a newline |
| Lines.FilterTextLines | ai/openai_client.go:139-150 | when any line is kept, splitting the filtered text gives back exactly the kept lines |
| Lines.FilterTextIdempotent | ai/client.go:317-330 | filtering a text twice is the same as filtering it once |
| Lines.FilterTextAccepted | ai/client.go:317-330 | every line of a filtered text is accepted and is a line of the input |
| AiCopilot.CreateFixRequest2 | ai/client.go:180-217 | content longer than the limit is refused with "Content is too long"; otherwise the request's prompt carries the content and the problem, for the user's organisation at app.pulumi.com |
| AiCopilot.CreateFixRequest | ai/client.go:220-271 | content longer than the limit is refused; otherwise the content itself is the query, sent to the codeGen skill with the fix prompt as its custom instructions |
| AiCopilot.FixRequestsAgree | ai/client.go:180-271 | the two request builders accept the same contents, address the same organisation, and carry the same prompt |
| AiCopilot.DecodeCopilotMessage | ai/client.go:273-280 | a missing content does not decode, and a decoded message's code field was a string or null |
| AiCopilot.LastCodeEmpty | ai/client.go:284-303 | the last code of a thread is empty exactly when no message contributes code |
| AiCopilot.LastCodeIsLast | ai/client.go:284-303 | the last code comes from some message, and no later message contributes code |
| AiCopilot.ExtractSummaryFromResponse | ai/client.go:283-308 | the answer is the cleaned-up code of an assistant's last program message with code; it fails with "no assistant message found in response" exactly when no message has code |
| AiCopilot.ProcessCopilotResult | ai/client.go:317-330 | the result is the input's lines without imports, exports, comments and empty lines, in order, joined by newlines |
| AiCopilot.ProcessCopilotResultIdempotent | ai/client.go:317-330 | cleaning up twice is the same as cleaning up once |
| AiCopilot.ProcessCopilotResultLines | ai/client.go:317-330 | the result is empty exactly when no line is kept; otherwise its lines are exactly the kept ones, none of them empty or starting with import, export or // |
| AiCopilot.ExchangeFailure | ai/client.go:146-162 | a failed exchange is reported with its cause's kind, under "making request: " or "reading response body: " exactly for the step that failed |
| AiCopilot.ExchangeFailureInjective | ai/client.go:146-162 | two different exchange failures are never reported as the same error |
| AiCopilot.Answered | ai/client.go:146-176 | a failed exchange gives its prefixed error, a 204 No Content reply gives the empty fix, and a response without an API error gives the thread's summary |
| AiCopilot.FixWithCopilot | ai/client.go:116-125 | content over 4000 bytes fails with "error creating request: Content is too long" |
| AiCopilot.TooLongSendsNothing | ai/client.go:116-125 | for too-long content the answer does not depend on the exchange, so nothing is sent |
| AiCopilot.FixWithCopilotSends | ai/client.go:116-177 | for content within the limit the answer is the reply to exactly the codeGen request for that content, whose query is the content verbatim |
| Progress.StartThenEnd | server/progress.go:66-149 | a Start followed by its End sends a log and an info message without progress support, only a token creation when creating the token fails, and otherwise a token creation, a begin and an end on that token |
| Progress.Tracker.constructor | server/progress.go:27-32 | a new tracker has no progress support, nothing in progress, and has sent nothing |
| Progress.Tracker.SetSupportsWorkDoneProgress | server/progress.go:36-38 | progress support is set to the given value |
| Progress.Tracker.Start | server/progress.go:66-116 | without support, a log message and no registration; with support and no token, a token made from the random number is created, and a failed creation marks the work errored with nothing registered; otherwise the work is registered under its token and a begin is sent, cancellable exactly when a cancel function was given |
| Progress.Tracker.Cancel | server/progress.go:152-164 | an unknown token fails with "not found in progress"; work without a cancel function fails with "not cancellable"; otherwise the cancel function is called unless the work is marked cancelled; registrations are unchanged |
| Progress.WorkDone.constructor | server/progress.go:68-72 | new work holds its tracker, token and cancellability, with no error, no cleanup, and no cancel calls |
| Progress.WorkDone.DoCancel | server/progress.go:58-64 | the cancel function is called once more unless the work is marked cancelled |
| Progress.EndWork | server/progress.go:119-150 | on real work: nothing is sent after a prior error, an info message is sent without a token, and a progress end with one; any registration made by Start is then removed |
| Publishing.LookCached | server/snapshot.go:204-225 | reading a file through the snapshot's cache adds it only when the read succeeds, and never changes what any later read gives |
| Publishing.PublishedOnceStep | server/diagnostics.go:133-147 | publishing one more readable file, with its diagnostics and version, keeps every file of the set published exactly once |
| Publishing.PublishedOnceConcat | server/diagnostics.go:133-159 | the first loop over the result's files and the cleanup loop over the table's other files together publish their union once, since the second loop reads through a cache that gives the same handles |
| Publishing.Table.constructor | server/server.go:40 | the diagnostics table starts empty, with nothing published |
| Publishing.Table.MustPublish | server/diagnostics.go:35-43 | the file gets an entry (an empty one when missing) with mustPublish set; no other entry changes |
| Publishing.Table.UpdateAndPublish | server/diagnostics.go:119-131 | a file that cannot be read is left alone and not published; otherwise its entry records the snapshot's sequence id, the file version and the diagnostics, and one notification publishes exactly those diagnostics, converted, for that version |
| Publishing.Table.PublishOne | server/diagnostics.go:134-146 | a file without an entry gets one, then is updated and published as UpdateAndPublish says; later reads of any file are unchanged |
| Publishing.Table.PublishEach | server/diagnostics.go:133-159 | every file of the set gets an updated entry and, when readable, exactly one publication with the diagnostics the result has for it; other entries and earlier publications are untouched |
| Publishing.Table.Update | server/diagnostics.go:103-160 | a cancelled context changes nothing; otherwise the table gains the result's files, every entry is updated with the result's diagnostics for it (none for a file the result does not name), each readable file is published exactly once, and no entry is removed |
| TextDocument.MustReadFile | server/fs_overlay.go:12-20 | the handle always names the requested file and has version 0, whatever reading the disk gave |
| TextDocument.ChangedUris | server/textdocument.go:58-61 | the changes list has one URI per modification, in order, and holds exactly the modified URIs |
| TextDocument.UrisStep | server/textdocument.go:59-62 | one more modification adds exactly its URI to the modified files |
| TextDocument.ChangedFilesStep | server/textdocument.go:64-68 | one more modification adds its file, as read from disk, to the changed files |
| TextDocument.DidOpenChange | server/textdocument_didopen.go:10-18 | didOpen reports one open of the document, with its version and text; it is not a save |
| TextDocument.DidSaveChange | server/textdocument_didsave.go:12-24 | didSave reports one save of the document, which carries text exactly when the client sent it |
| TextDocument.ChangedFilesAbout | server/textdocument.go:64-68 | a file is among the changed files exactly when some modification names it, and it is then the disk's version-0 handle |
| Initialization.DecodeOptions | server/initialize.go:17-32 | decoding fails only with the options error; null decodes to no level; a non-object fails; a decoded level is the object's logLevel string |
| Initialization.DecodeEncodeOptions | server/initialize.go:17-32 | decoding the options a client writes gives back its log level, or none when it is omitted |
| Initialization.LevelOf | server/initialize.go:33-46 | every name selects one of slog's four levels |
| Initialization.LowerByteIdempotent | server/initialize.go:35 | lower-casing a character twice is lower-casing it once |
| Initialization.ToLowerIdempotent | server/initialize.go:35 | lower-casing a string twice is lower-casing it once |
| Initialization.LevelNames | server/initialize.go:33-46 | Debug, Warn and Error are each selected by exactly their own name, ignoring case, and a name selects the same level as its lower-case form |
| Strconv.WrapInt32 | server/diagnostics.go:240-245 | Go's int32 conversion: the result is in the int32 range, equals the input when it fits, and differs from it by a multiple of 2^32 |
| Strconv.UintOfInt32 | server/diagnostics.go:270-272 | Go's uint of an int32: non-negative values are unchanged and negative ones wrap above the int32 range |
| Strconv.IncUint64 | server/textdocument.go:91 | the uint64 increment adds one, and wraps to zero at the top |
| Strconv.ParseFormatInt | rpc/stream.go:67 | parsing a formatted integer within the bounds gives it back |
| Strconv.ParseFormatUint | parser/parse.go:48-54 | parsing a formatted uint64 gives it back |
| Strs.TrimSpace | rpc/stream.go:55 | the trimmed text neither starts nor ends with ASCII white space and is no longer than the input |
| Strs.TrimSpaceSlice | rpc/stream.go:55 | the trimmed text is the slice of the input between a prefix and a suffix made only of ASCII white space, and neither starts nor ends with it |
| Strs.TrimSpaceIdempotent | rpc/stream.go:55 | trimming twice is the same as trimming once |
| Strs.TrimSpaceOfPadded | rpc/stream.go:64 | trimming text that is padded with white space on both sides gives back the text |
| Strs.IndexOfAfter | rpc/stream.go:60 | the first colon of a line is found just after a prefix without one |
| Strs.Split | ai/client.go:318 | splitting gives at least one piece, and no piece contains the separator |
| Strs.JoinSplit | ai/client.go:318-329 | joining the pieces of a split gives back the text |
| Strs.SplitJoin | ai/client.go:318-329 | splitting the join of pieces that contain no separator gives back the pieces |
| Strs.ToLower | server/initialize.go:35 | each ASCII capital letter is lower-cased on its own and every other byte is kept, so the length is kept |

## Left out

- Concurrency: mutexes, the `diagnosticsSema`, `initializationSema` and `ioLimit` channel semaphores, `snapshotWG` (and the wait for it in Shutdown at server/server.go:275), and the goroutines. Each becomes a sequential call at the point where it takes effect. A held `stateMu` is a flag that makes later calls report that they block.
- Go's `select` between a cancelled context and a ready value may take either branch. Where both are ready, the model takes the cancellation branch.
- initializeView (server/server.go:134-161) is left out: it is the composition of NewView, InitialWorkspaceLoad and DiagnoseSnapshot under goroutines.
- GetCapturesFromURI (server/server.go:46-61) is the parser, reached through the snapshot. It is the `captures` parameter of the diagnosis. Its deferred call of a nil release, when the view is shut down, is not modelled.
- The tree-sitter parser (parser/parse.go) is not part of this model; its capture records are.
- The Pulumi preview, the log tailing and the event decoding in pulumicommand/run.go (`run`, `watchFile`, `tailLogs`, `processGrpcEvents`, `unmarshalTypedEntry`) are left out; events arrive already decoded. Two defects there are not modelled: `processGrpcEvents` handles one event only, and `watchFile` closes its receivers twice.
- pulumicommand/command.go is not part of this model. Its `Runner.Run` drops the run's error (pulumicommand/command.go:54-58), so the run result the diagnosis receives is a parameter that may still fail.
- Disk reads and the Pulumi workspace setup (server/fs_overlay.go, `initializeWorkspace`) are parameters. Session.DiskRead always succeeds, since mustReadFile turns a failure into a handle.
- HTTP exchanges are parameters: the Copilot request and its reply, and the OpenAI request. So are the `OPENAI_API_KEY` environment variable, the Copilot account lookup (`NewClient`) and the client's timeouts. An exchange fails at a named step (AiCopilot.ExchangeError, AiOpenAI.SendError), whose prefix the model adds; `http.NewRequestWithContext` on the fixed URLs (the "creating request: " errors) is taken to succeed.
- The wording of the prompts sent to Copilot and OpenAI is not modelled: a prompt is a datatype holding the snippet and the problem.
- The text of the "unexpected response format" error (which prints the whole response with %v) is not modelled, and neither are the texts of encoding/json's errors.
- encoding/json details not modelled: case-insensitive matching of object keys, and the decoding of an empty JSON list as nil.
- json.Marshal failures (rpc/stream.go:95-98, `marshalToRaw`, lsp/protocol.go:34-37) cannot occur for the types involved and are not modelled.
- `FromSlash` and `ToSlash` are the identity, as on a system whose separator is the slash, and `Path`'s assertion is modelled as a failure result.
- Session.Server.NewView: joins Pulumi.yaml to the root's path without the `filepath.Clean` that `filepath.Join` applies (server/server.go:167). For a root path that is not already clean, such as `/a/../b` or `/a//b`, the model's Pulumi.yaml URI keeps the `..` or the doubled slash, where Go gives `/b/Pulumi.yaml` or `/a/b/Pulumi.yaml`. Session.PulumiYamlURI and Session.PulumiYamlInRoot are about the same unclean join.
- The random progress token is a parameter. Two Start calls given the same number would collide in the registry; the model does not rule that out.
- The cleanup of a WorkDone removes its token's registration even if another work has registered the same token since.
- doCancel never sets `cancelled`, so the cancel function runs on every Cancel. This is modelled as written.
- mustPublish is set by mustPublishDiagnostics and read nowhere. It is modelled, but nothing depends on it.
- The modification number returned by updateViewsToDiagnose is only logged by the code; the model returns it unchanged.
- Publish errors are only logged (server/diagnostics.go:76-86); in Publishing and Session, sending a notification is modelled as always succeeding. The broken writer is modelled one layer down, in RpcConn.Conn and LspClient.Send.
- Session.Server.DidSave: the saved document's version is Go's zero value, since didSave's Modification leaves it unset.
- Snapshots.Snapshot.Clone: the clone's initialErr is nil, as in the code, which does not copy it (server/snapshot.go:235-246).
- Session.InitialWorkspaceLoad: a load cancelled before it takes the initialization slot leaves the load latch open, as in the code.
- Session.Server.DiagnoseChangedView requires the server to have a view; the code dereferences `s.view` unchecked, and a goroutine made by didModifyFiles only runs once a view exists.
- viewIndex is a package-level int64 counter; its wrap-around after 2^63 views is not modelled.
- Session.Server.Exit: process exit is modelled as a returned exit status.
- CodeActions.Checked: a nil Data is modelled as the NilDataPanic outcome rather than as a process crash.
- AiCopilot.FixWithCopilot: FixWithCopilot2 (ai/client.go:52-113) differs from it only in the request it builds (CreateFixRequest2) and shares Answered for the reply; it is not modelled as a separate function.
- AiCopilot.DecodeCopilotMessage: its contract states only that a missing content does not decode and that a decoded code field was a string or null. The field-by-field behaviour is used through ExtractSummaryFromResponse.
- Session.Server.DiagnoseChangedView: its contract pins down only the first progress report of a save and the diagnosis result, not every later report.
- Session.Server.DidOpen and Session.Server.DidSave state the marking, cancellation, new file map and pending diagnosis; the rest of their effect is DidModifyFiles' contract.
- Session.Server.DidOpenThenDiagnose: runs the diagnosis straight after the handler. Go runs it in a goroutine, and a later notification can cancel its scope before it starts; that interleaving is not modelled.
- Session.Server.DidSaveThenDiagnose: the same, for didSave: its diagnosis runs under a scope nothing has cancelled yet.
- RpcConn.Conn.Call: a call whose response never arrives and whose context is never cancelled waits forever; the model has no such run.
- RpcConn.Conn.Write: the connection sees its stream's writer as either working or broken for good, with one error for every write. A writer that refuses one message and takes the next is modelled only at the byte level, by RpcStream.HeaderStream.Write, and the partial message a failed write leaves on the wire is not part of `sent`.
- RpcStream.DecodeBody: decodes with the corrected DecodeMessage of the rpc/wire.go:51 finding. As written, a body with a non-null `error` member does not decode (RpcMessages.ErrorResponseUndecodableAsWritten). On every other body the two decoders agree (RpcMessages.DecodersAgreeWithoutErrorMember).
- RpcStream.HeaderStream.Read: its body goes through DecodeBody, so it reads an error response that the code as written rejects. The framing, the count and the input left are as written.
- RpcStream.HeaderStream.ReadWith: like Read, it decodes the body the corrected way, with the framing as written.
- RpcStream.WriteThenRead: ends in the corrected DecodeMessage. As written, an error response that Write frames cannot be read back.
- LspProtocol.ClientCall: its `$/cancelRequest` carries the corrected CancelParams(id). As written the params are `{"id":{}}` (LspProtocol.CancelParamsAsWritten, LspProtocol.CancelIdLostAsWritten).
- LspClient.Send: it sends ClientCall's cancellation, so it too uses the corrected params.
- LspServer.ServerDispatch: its parse-error reply is the corrected ParseError, which wraps an error made from ErrParse's text. As written, the text starts with `%!w(string=...)` and wraps nothing (LspServer.ParseErrorAsWritten).
- LspServer.DispatchKnownMethod: it states ServerDispatch's reply, so its parse error is the corrected one.
- Diagnostics.DiagnoseResource: computes the corrected ResourceDiagnostics, which skips a resource without a source position and a diagnostic line without a capture. As written, both panic (Diagnostics.NilSourcePositionPanics, Diagnostics.MissingCapturePanics).
- Diagnostics.DiagnoseResources: computes the corrected Group. As written (GroupAsWritten), it panics in the same two cases; with neither present, the two agree (Diagnostics.AsWrittenAgreesWithoutNils).
- Session.Server.Diagnose: groups with the corrected Group, so the panics at server/diagnostics.go:205 and :226-228 do not occur.
- Session.Server.DiagnoseSnapshot: publishes the corrected grouping, as Diagnose.
- Session.Server.DiagnoseChangedView: diagnoses with the corrected grouping, as Diagnose.
- Session.Server.DiagnoseSaved: diagnoses with the corrected grouping, as Diagnose.
- Strs.TrimSpace: white space is ASCII only (tab, newline, vertical tab, form feed, carriage return, space). Go's strings.TrimSpace also strips the UTF-8 encodings of Unicode white space, such as U+0085 and U+00A0, which the model keeps. The header parse trims with it too (rpc/stream.go:55 and :64), so a header line padded with such a character is read differently. Strs.TrimSpaceSlice states what the model does strip: only white space, from both ends.
- Diagnostics.ToProtocol: it trims with Strs.TrimSpace, so a message ending in a non-ASCII space such as U+00A0 is published with it.
- Diagnostics.ToProtocolMessage: "no surrounding white space" is about ASCII white space only, as Strs.TrimSpace.
- Strs.ToLower: lower-cases ASCII letters only. Go's strings.ToLower also lower-cases other Unicode letters and can change the byte length. The level names it is used for are ASCII, so LevelOf does not depend on the difference.
- Progress.Quote: models fmt's `%q` only for strings with no character that needs escaping. Tokens are the decimal strings Start makes, and lsp.ProgressToken, typed `any` at lsp/protocol.go:15, is modelled as a string.
- The mismatched file revisions are modelled as their definitions read: lsp/context.go is not part of this model, main.go's three-argument NewHeaderStream is not modelled, and the tracker follows the one-argument NewTracker of server/progress.go.
- The server's Diagnostic type is not among the files; its fields are inferred from their uses in server/diagnostics.go.
- Logging (debug/debug.go, logger/logger.go) is left out, and with it every debug.Log call. The log level Initialize selects is recorded as a number.
- Build and editor code (projenrc, editors/vscode) is not part of this model.

## Findings

| source | as written | input that shows it | evidently intended | confidence | as-written member | corrected member |
|---|---|---|---|---|---|---|
| rpc/wire.go:51 | the Error field of wireCombined has interface type `error`, which encoding/json cannot decode into, and Marshal writes any error as `{}` | a response with a non-null `"error"` member: DecodeMessage fails, so an error response can never be read | an error member decoded into a wire error object | not executed | RpcMessages.ErrorResponseUndecodableAsWritten | RpcMessages.DecodeMarshalResponse |
| lsp/protocol.go:79-82 | cancelCall sends `&CancelParams{ID: &id}`, a pointer to an interface holding an rpc.ID value; the value is not addressable there, so ID's pointer-receiver MarshalJSON is not used and the id marshals as `{}` | any call id: the peer cannot read back which request is cancelled | the cancelled call's id as a number or string | not executed | LspProtocol.CancelIdLostAsWritten | LspProtocol.CancelIdReadsBack |
| lsp/server.go:150-152 | sendParseError passes the string ErrParse to `%w` | any params decode failure: the reply's text starts with `%!w(string=...)` and wraps no parse error | an error wrapping `errors.New(ErrParse)`, as the other uses build theirs | not executed | LspServer.ParseErrorAsWritten | LspServer.ParseError |
| server/diagnostics.go:225-228 | the capture found for a diagnostic is dereferenced without a nil check | a resource at line 3 of a file with no capture starting on row 2 | the resource is skipped | not executed | Diagnostics.MissingCapturePanics | Diagnostics.AsWrittenAgreesWithoutNils |
| server/diagnostics.go:202-213 | the resource's SourcePosition is read for logging before it is checked for nil | a resource without a source position | the resource is skipped | not executed | Diagnostics.NilSourcePositionPanics | Diagnostics.GroupAbout |
| server/server.go:270-274 | Shutdown calls `s.view.shutdown()` without checking for a view | shutdown on a server that never created a view | the missing view is skipped | not executed | Session.ShutdownBeforeViewPanics | Session.Server.Shutdown |
| server/initialize.go:27-32 | the return for undecodable initialization options leaves stateMu locked | initialize with `initializationOptions` set to the number 1, then initialized | every return releases stateMu | not executed | Session.BadOptionsLockServer | Session.Server.Initialize |
