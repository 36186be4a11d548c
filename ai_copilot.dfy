/**
 * The Copilot side of the fixer (ai/client.go): the two request builders with their
 * length limit, the reading of the assistant's answer out of a thread of messages, and
 * the clean-up of the generated code. The HTTP exchange itself is a parameter.
 */
module AiCopilot {
  import opened Wrappers
  import opened Errors
  import opened Json
  import Strs
  import Lines

  /** At most this many bytes of program text are sent. */
  const MaxCopilotContentLength := 4000

  const AppURL := "https://app.pulumi.com"

  const ContentTooLong := Error(Plain, "Content is too long")

  const NoAssistantMessage := Error(Plain, "no assistant message found in response")

  /** A request text: either given verbatim, or the fixed fix-this-snippet instructions
      with the snippet and the failed policy check filled in. The wording of the
      instructions is not modelled. */
  datatype Query = Verbatim(text: string) | FixPrompt(content: string, problem: string)

  datatype CloudContext = CloudContext(orgID: string, url: string)

  /** CopilotRequest: the query and the organisation the user is viewing. */
  datatype CopilotRequest = CopilotRequest(query: Query, cloudContext: CloudContext)

  /** CopilotSkillParams. */
  datatype SkillParams = SkillParams(validateResult: bool, validationStopPhase: string,
                                     selfDebugMaxIterations: int, selfDebugMaxNumberOfErrors: int,
                                     selfDebugSupportedLanguages: seq<string>, getProjectFiles: bool,
                                     customInstructions: Query)

  /** CopilotCodeFixRequest: a request calling one skill directly. */
  datatype CodeFixRequest = CodeFixRequest(request: CopilotRequest, skill: string, params: SkillParams)

  /** createFixRequest2: the prompt carries the content and the problem. */
  function CreateFixRequest2(content: string, orgID: string, problem: string, maxLen: int): (r: Result<CopilotRequest, Error>)
    ensures r.Err? <==> |content| > maxLen
    ensures r.Err? ==> r.error == ContentTooLong
    ensures r.Ok? ==> r.value.query == FixPrompt(content, problem) && r.value.cloudContext == CloudContext(orgID, AppURL)
  {
    if |content| > maxLen then Err(ContentTooLong)
    else Ok(CopilotRequest(FixPrompt(content, problem), CloudContext(orgID, AppURL)))
  }

  /** createFixRequest: the content is the query, and the prompt goes to the codeGen
      skill as its custom instructions. */
  function CreateFixRequest(content: string, orgID: string, problem: string, maxLen: int): (r: Result<CodeFixRequest, Error>)
    ensures r.Err? <==> |content| > maxLen
    ensures r.Err? ==> r.error == ContentTooLong
    ensures r.Ok? ==>
      && r.value.request == CopilotRequest(Verbatim(content), CloudContext(orgID, AppURL))
      && r.value.skill == "codeGen"
      && r.value.params.customInstructions == FixPrompt(content, problem)
  {
    if |content| > maxLen then Err(ContentTooLong)
    else
      Ok(CodeFixRequest(CopilotRequest(Verbatim(content), CloudContext(orgID, AppURL)), "codeGen",
                        SkillParams(true, "typecheck", 2, 10, ["TypeScript"], false, FixPrompt(content, problem))))
  }

  /** The two builders accept the same contents and address the same organisation; they
      differ only in where the prompt goes. */
  lemma FixRequestsAgree(content: string, orgID: string, problem: string, maxLen: int)
    ensures CreateFixRequest(content, orgID, problem, maxLen).Ok? <==> CreateFixRequest2(content, orgID, problem, maxLen).Ok?
    ensures CreateFixRequest(content, orgID, problem, maxLen).Ok? ==>
      CreateFixRequest(content, orgID, problem, maxLen).value.request.cloudContext
        == CreateFixRequest2(content, orgID, problem, maxLen).value.cloudContext
      && CreateFixRequest(content, orgID, problem, maxLen).value.params.customInstructions
        == CreateFixRequest2(content, orgID, problem, maxLen).value.query
  {
  }

  /** A message of the thread; a missing content is None. */
  datatype ThreadMessage = ThreadMessage(role: string, kind: string, content: Option<Json>)

  datatype CopilotMessage = CopilotMessage(code: string, instructions: string, language: string)

  /**
   * json.Unmarshal of a message's content into a CopilotMessage: a missing content fails
   * (there is no JSON to read), null leaves the zero message, an object is read field by
   * field, and anything else fails, as does a field of the wrong type.
   */
  function DecodeCopilotMessage(content: Option<Json>): (r: Option<CopilotMessage>)
    ensures content.Some? && content.value.JObj? && "code" in content.value.fields && r.Some? ==>
      content.value.fields["code"].JStr? || content.value.fields["code"].JNull?
    ensures content.None? ==> r.None?
  {
    if content.None? then None
    else match content.value
      case JNull => Some(CopilotMessage("", "", ""))
      case JObj(f) =>
        var code := StringField(f, "code");
        var language := StringField(f, "language");
        var instructions :=
          if "plan" !in f || f["plan"].JNull? then Some("")
          else if f["plan"].JObj? then StringField(f["plan"].fields, "instructions")
          else None;
        if code.None? || language.None? || instructions.None? then None
        else Some(CopilotMessage(code.value, instructions.value, language.value))
      case _ => None
  }

  /** The code one message contributes: that of an assistant's program message whose
      content decodes, "" for every other message. */
  function CodeOf(m: ThreadMessage): string
  {
    if m.role != "assistant" || m.kind != "program" then ""
    else match DecodeCopilotMessage(m.content)
      case None => ""
      case Some(msg) => msg.code
  }

  /** The last non-empty code of the thread, or "" when there is none; `code` says what
      each message contributes, and extractSummaryFromResponse uses CodeOf. */
  function LastCode(messages: seq<ThreadMessage>, code: ThreadMessage -> string): string
  {
    if messages == [] then ""
    else if code(messages[|messages| - 1]) != "" then code(messages[|messages| - 1])
    else LastCode(messages[..|messages| - 1], code)
  }

  /** LastCode is "" exactly when no message has code. */
  lemma {:induction false} LastCodeEmpty(messages: seq<ThreadMessage>, code: ThreadMessage -> string)
    ensures LastCode(messages, code) == "" <==> forall i :: 0 <= i < |messages| ==> code(messages[i]) == ""
  {
    if messages != [] {
      var n := |messages| - 1;
      LastCodeEmpty(messages[..n], code);
      assert forall i :: 0 <= i < n ==> messages[i] == messages[..n][i];
    }
  }

  /** The last code wins: LastCode is the code of some message after which no message
      has code. */
  lemma {:induction false} LastCodeIsLast(messages: seq<ThreadMessage>, code: ThreadMessage -> string)
    requires LastCode(messages, code) != ""
    ensures exists i ::
      && 0 <= i < |messages| && code(messages[i]) == LastCode(messages, code)
      && (forall j :: i < j < |messages| ==> code(messages[j]) == "")
  {
    var n := |messages| - 1;
    if code(messages[n]) == "" {
      var init := messages[..n];
      LastCodeIsLast(init, code);
      var i :| 0 <= i < |init| && code(init[i]) == LastCode(init, code)
        && (forall j :: i < j < |init| ==> code(init[j]) == "");
      assert messages[i] == init[i];
      assert forall j :: i < j < n ==> messages[j] == init[j];
    }
  }

  /** What extractSummaryFromResponse returns for a thread. */
  function Summary(messages: seq<ThreadMessage>): Result<string, Error>
  {
    var code := LastCode(messages, CodeOf);
    if code != "" then Ok(ProcessedCopilotResult(code)) else Err(NoAssistantMessage)
  }

  /** extractSummaryFromResponse: keeps the last non-empty code of an assistant's program
      message and cleans it up; fails when there is none. */
  method ExtractSummaryFromResponse(messages: seq<ThreadMessage>) returns (r: Result<string, Error>)
    ensures r == Summary(messages)
    ensures r.Err? <==> forall i :: 0 <= i < |messages| ==> CodeOf(messages[i]) == ""
  {
    var finalMessage := "";
    for i := 0 to |messages|
      invariant finalMessage == LastCode(messages[..i], CodeOf)
    {
      assert messages[..i + 1][..i] == messages[..i];
      var msg := messages[i];
      if msg.role != "assistant" {
        continue;
      }
      if msg.kind == "program" {
        var message := DecodeCopilotMessage(msg.content);
        if message.None? {
          continue;
        }
        if message.value.code != "" {
          finalMessage := message.value.code;
        }
      }
    }
    assert messages[..|messages|] == messages;
    LastCodeEmpty(messages, CodeOf);
    if finalMessage != "" {
      var processed := ProcessCopilotResult(finalMessage);
      return Ok(processed);
    }
    return Err(NoAssistantMessage);
  }

  /** The lines processCopilotResult drops: imports, exports, comments and empty lines. */
  function KeepCopilotLine(line: string): bool
  {
    !(Strs.HasPrefix(line, "import") || Strs.HasPrefix(line, "export") || Strs.HasPrefix(line, "//") || line == "")
  }

  /** What processCopilotResult returns: the kept lines joined again. */
  function ProcessedCopilotResult(result: string): string
  {
    Lines.FilterText(result, KeepCopilotLine)
  }

  /** processCopilotResult: drops imports, exports, comments and empty lines. */
  method ProcessCopilotResult(result: string) returns (r: string)
    ensures r == ProcessedCopilotResult(result)
  {
    var lines := Strs.Split(result, '\n');
    var processedLines: seq<string> := [];
    for i := 0 to |lines|
      invariant processedLines == Lines.Filter(lines[..i], KeepCopilotLine)
    {
      var line := lines[i];
      Lines.FilterAppend(lines[..i], line, KeepCopilotLine);
      assert lines[..i + 1] == lines[..i] + [line];
      if Strs.HasPrefix(line, "import") || Strs.HasPrefix(line, "export") || Strs.HasPrefix(line, "//") || line == "" {
        continue;
      }
      processedLines := processedLines + [line];
    }
    assert lines[..|lines|] == lines;
    r := Strs.Join(processedLines, '\n');
  }

  /** Cleaning up twice is cleaning up once. */
  lemma ProcessCopilotResultIdempotent(result: string)
    ensures ProcessedCopilotResult(ProcessedCopilotResult(result)) == ProcessedCopilotResult(result)
  {
    Lines.FilterTextIdempotent(result, KeepCopilotLine);
  }

  /** The cleaned-up code consists of the kept lines, in order; none is empty or starts
      with import, export or //; and with no line kept it is empty. */
  lemma ProcessCopilotResultLines(result: string)
    ensures var kept := Lines.Filter(Strs.Split(result, '\n'), KeepCopilotLine);
      && (kept == [] <==> ProcessedCopilotResult(result) == "")
      && (kept != [] ==> Strs.Split(ProcessedCopilotResult(result), '\n') == kept)
      && forall k :: 0 <= k < |kept| ==>
           kept[k] != "" && !Strs.HasPrefix(kept[k], "import") && !Strs.HasPrefix(kept[k], "export")
           && !Strs.HasPrefix(kept[k], "//")
  {
    var kept := Lines.Filter(Strs.Split(result, '\n'), KeepCopilotLine);
    if kept != [] {
      Lines.FilterTextLines(result, KeepCopilotLine);
    }
  }

  /** What the Copilot API answers: no content (it declined), a body that is not a
      well-formed response, or a response with its thread and error. */
  datatype Reply =
    | NoContent
    | Unreadable(body: string)
    | Answer(messages: seq<ThreadMessage>, error: string, details: string)

  /** Where sending a request to the Copilot API can fail: making the request, or
      reading the response body. */
  datatype ExchangeError = MakingRequest(cause: Error) | ReadingBody(cause: Error)

  /** The error a failed exchange is reported as: its cause, wrapped by `%w` under the
      failing step's prefix. */
  function ExchangeFailure(e: ExchangeError): (r: Error)
    ensures r.kind == e.cause.kind
    ensures e.MakingRequest? <==> Strs.HasPrefix(r.message, "making request: ")
    ensures e.ReadingBody? <==> Strs.HasPrefix(r.message, "reading response body: ")
  {
    match e
    case MakingRequest(cause) =>
      var m := "making request: " + cause.message;
      assert m[0] != "reading response body: "[0];
      Error(cause.kind, m)
    case ReadingBody(cause) =>
      var m := "reading response body: " + cause.message;
      assert m[0] != "making request: "[0];
      Error(cause.kind, m)
  }

  /** Different exchange failures are reported as different errors. */
  lemma ExchangeFailureInjective(e1: ExchangeError, e2: ExchangeError)
    requires ExchangeFailure(e1) == ExchangeFailure(e2)
    ensures e1 == e2
  {
    var m := ExchangeFailure(e1).message;
    if e1.MakingRequest? {
      assert e2.MakingRequest?;
      assert e1.cause.message == m[|"making request: "|..] == e2.cause.message;
    } else {
      assert e2.ReadingBody?;
      assert e1.cause.message == m[|"reading response body: "|..] == e2.cause.message;
    }
  }

  /** FixWithCopilot and FixWithCopilot2 after the request is built: `exchange` stands for
      sending it and reading the body; its failures are reported through ExchangeFailure. */
  function Answered(reply: Result<Reply, ExchangeError>): (r: Result<string, Error>)
    ensures reply.Err? ==> r == Err(ExchangeFailure(reply.error))
    ensures reply.Ok? && reply.value.NoContent? ==> r == Ok("")
    ensures reply.Ok? && reply.value.Answer? && reply.value.error == "" ==> r == Summary(reply.value.messages)
  {
    if reply.Err? then Err(ExchangeFailure(reply.error))
    else match reply.value
      case NoContent => Ok("")
      case Unreadable(body) => Err(Error(Plain, "got non-JSON response from Copilot: " + body))
      case Answer(messages, error, details) =>
        if error != "" then Err(Error(Plain, "copilot API error: " + error + "\n" + details))
        else Summary(messages)
  }

  /** FixWithCopilot: content that is too long fails before anything is sent. */
  function FixWithCopilot(orgID: string, content: string, problem: string,
                          exchange: CodeFixRequest -> Result<Reply, ExchangeError>): (r: Result<string, Error>)
    ensures |content| > MaxCopilotContentLength ==>
      r == Err(Error(Plain, "error creating request: " + ContentTooLong.message))
  {
    match CreateFixRequest(content, orgID, problem, MaxCopilotContentLength)
    case Err(e) => Err(Error(e.kind, "error creating request: " + e.message))
    case Ok(request) => Answered(exchange(request))
  }

  /** A content that is too long is rejected whatever the exchange would have answered. */
  lemma TooLongSendsNothing(orgID: string, content: string, problem: string,
                            e1: CodeFixRequest -> Result<Reply, ExchangeError>, e2: CodeFixRequest -> Result<Reply, ExchangeError>)
    requires |content| > MaxCopilotContentLength
    ensures FixWithCopilot(orgID, content, problem, e1) == FixWithCopilot(orgID, content, problem, e2)
  {
  }

  /** Otherwise exactly the codeGen request for the content is sent. */
  lemma FixWithCopilotSends(orgID: string, content: string, problem: string,
                            exchange: CodeFixRequest -> Result<Reply, ExchangeError>)
    requires |content| <= MaxCopilotContentLength
    ensures FixWithCopilot(orgID, content, problem, exchange) ==
      Answered(exchange(CreateFixRequest(content, orgID, problem, MaxCopilotContentLength).value))
    ensures CreateFixRequest(content, orgID, problem, MaxCopilotContentLength).value.request.query == Verbatim(content)
  {
  }
}
