/**
 * The OpenAI side of the fixer (ai/openai_client.go): the request, the API-key check
 * made before anything is sent, the shape a response must have, and the removal of
 * the code fences around the generated code. Sending the request is a parameter.
 */
module AiOpenAI {
  import opened Wrappers
  import opened Errors
  import Strs
  import Lines

  const Model := "gpt-4o"

  const MissingAPIKey := Error(Plain, "missing OPENAI_API_KEY environment variable")

  /** The text of the error names the whole response (%v), which is not modelled. */
  const UnexpectedFormat := Error(Plain, "unexpected response format")

  /** The input is the fixed fix-this-snippet instructions with the snippet and the failed
      policy check filled in; their wording is not modelled. */
  datatype Prompt = FixPrompt(content: string, problem: string)

  datatype OpenAIRequest = OpenAIRequest(model: string, input: Prompt)

  datatype OpenAIContent = OpenAIContent(kind: string, text: string)

  datatype OpenAIOutput = OpenAIOutput(id: string, kind: string, role: string, content: seq<OpenAIContent>)

  datatype OpenAIResponse = OpenAIResponse(status: string, error: string, output: seq<OpenAIOutput>)

  /** processResult keeps every line that does not open or close a code fence. */
  function KeepResultLine(line: string): bool
  {
    !Strs.HasPrefix(line, "```")
  }

  /** What processResult returns: the lines outside the fences joined again. */
  function ProcessedResult(result: string): string
  {
    Lines.FilterText(result, KeepResultLine)
  }

  /** processResult: drops the lines that open or close a code fence. */
  method ProcessResult(result: string) returns (r: string)
    ensures r == ProcessedResult(result)
  {
    var lines := Strs.Split(result, '\n');
    var finalLines: seq<string> := [];
    for i := 0 to |lines|
      invariant finalLines == Lines.Filter(lines[..i], KeepResultLine)
    {
      var line := lines[i];
      Lines.FilterAppend(lines[..i], line, KeepResultLine);
      assert lines[..i + 1] == lines[..i] + [line];
      if Strs.HasPrefix(line, "```") {
        continue;
      }
      finalLines := finalLines + [line];
    }
    assert lines[..|lines|] == lines;
    r := Strs.Join(finalLines, '\n');
  }

  /** Removing the fences twice is removing them once. */
  lemma ProcessResultIdempotent(result: string)
    ensures ProcessedResult(ProcessedResult(result)) == ProcessedResult(result)
  {
    Lines.FilterTextIdempotent(result, KeepResultLine);
  }

  /** No line of the result starts with ```, and when any line is kept the result's lines
      are exactly the kept ones, in order. */
  lemma ProcessResultLines(result: string)
    ensures forall line :: line in Strs.Split(ProcessedResult(result), '\n') ==> !Strs.HasPrefix(line, "```")
    ensures var kept := Lines.Filter(Strs.Split(result, '\n'), KeepResultLine);
      kept != [] ==> Strs.Split(ProcessedResult(result), '\n') == kept
  {
    var kept := Lines.Filter(Strs.Split(result, '\n'), KeepResultLine);
    if kept == [] {
      assert ProcessedResult(result) == "";
      assert Strs.Split("", '\n') == [""];
    } else {
      Lines.FilterTextLines(result, KeepResultLine);
    }
  }

  /** The response check: exactly one output holding exactly one content item, whose
      text is the fix; anything else is an error. */
  function AcceptResponse(response: OpenAIResponse): (r: Result<string, Error>)
    ensures r.Ok? <==> |response.output| == 1 && |response.output[0].content| == 1
    ensures r.Ok? ==> r.value == ProcessedResult(response.output[0].content[0].text)
    ensures r.Err? ==> r.error == UnexpectedFormat
  {
    if |response.output| == 1 && |response.output[0].content| == 1 then
      Ok(ProcessedResult(response.output[0].content[0].text))
    else Err(UnexpectedFormat)
  }

  /** Where sending a request to the OpenAI API can fail: sending it, reading the
      response, or unmarshalling it. */
  datatype SendError = SendingRequest(cause: Error) | ReadingResponse(cause: Error) | Unmarshalling(cause: Error)

  /** The error a failed send is reported as: its cause, wrapped by `%w` under the
      failing step's prefix. */
  function SendFailure(e: SendError): (r: Error)
    ensures r.kind == e.cause.kind
    ensures e.SendingRequest? <==> Strs.HasPrefix(r.message, "sending request: ")
    ensures e.ReadingResponse? <==> Strs.HasPrefix(r.message, "reading response: ")
    ensures e.Unmarshalling? <==> Strs.HasPrefix(r.message, "unmarshalling response: ")
  {
    var prefix := match e
      case SendingRequest(_) => "sending request: "
      case ReadingResponse(_) => "reading response: "
      case Unmarshalling(_) => "unmarshalling response: ";
    var m := prefix + e.cause.message;
    assert m[0] == prefix[0];
    Error(e.cause.kind, m)
  }

  /** Different send failures are reported as different errors. */
  lemma SendFailureInjective(e1: SendError, e2: SendError)
    requires SendFailure(e1) == SendFailure(e2)
    ensures e1 == e2
  {
    var m := SendFailure(e1).message;
    var n := if e1.SendingRequest? then |"sending request: "|
             else if e1.ReadingResponse? then |"reading response: "|
             else |"unmarshalling response: "|;
    assert e1.cause.message == m[n..] == e2.cause.message;
  }

  /**
   * FixWithOpenAI: the request for the snippet and the problem; with no API key, an error
   * before the request is sent. `send` stands for sending it and reading and decoding
   * the answer; its failures are reported through SendFailure.
   */
  function FixWithOpenAI(content: string, problem: string, apiKey: string,
                         send: OpenAIRequest -> Result<OpenAIResponse, SendError>): Result<string, Error>
  {
    if apiKey == "" then Err(MissingAPIKey)
    else match send(OpenAIRequest(Model, FixPrompt(content, problem)))
      case Err(e) => Err(SendFailure(e))
      case Ok(response) => AcceptResponse(response)
  }

  /** Without an API key the answer is the same error whatever sending would give. */
  lemma MissingKeySendsNothing(content: string, problem: string,
                               send1: OpenAIRequest -> Result<OpenAIResponse, SendError>,
                               send2: OpenAIRequest -> Result<OpenAIResponse, SendError>)
    ensures FixWithOpenAI(content, problem, "", send1) == Err(MissingAPIKey)
    ensures FixWithOpenAI(content, problem, "", send1) == FixWithOpenAI(content, problem, "", send2)
  {
  }

  /** With a key, the fix is the fenced-off text of a well-shaped response, and no fix
      has a fence line left. */
  lemma FixWithOpenAIAnswer(content: string, problem: string, apiKey: string,
                            send: OpenAIRequest -> Result<OpenAIResponse, SendError>)
    requires apiKey != ""
    ensures var sent := send(OpenAIRequest(Model, FixPrompt(content, problem)));
      var r := FixWithOpenAI(content, problem, apiKey, send);
      && (sent.Err? ==> r == Err(SendFailure(sent.error)))
      && (sent.Ok? ==> r == AcceptResponse(sent.value))
      && (r.Ok? ==> forall line :: line in Strs.Split(r.value, '\n') ==> !Strs.HasPrefix(line, "```"))
  {
    var sent := send(OpenAIRequest(Model, FixPrompt(content, problem)));
    if sent.Ok? && AcceptResponse(sent.value).Ok? {
      ProcessResultLines(sent.value.output[0].content[0].text);
    }
  }
}
