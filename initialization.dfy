/**
 * The data of the initialize handshake (server/initialize.go): the parameters the
 * server reads, its initialization options, the log level they select and the result
 * it answers with.
 */
module Initialization {
  import opened Wrappers
  import opened Errors
  import opened Json
  import Strs

  /** The parts of lsp.InitializeRequestParams the server reads. The options are nil
      (None) when the client sends none or sends null. */
  datatype InitializeParams = InitializeParams(rootURI: string, initializationOptions: Option<Json>,
                                               workDoneProgress: bool)

  /** lsp.InitializeResult: full text synchronisation (1) and the server's name and version. */
  datatype InitializeResult = InitializeResult(textDocumentSync: int, serverName: string, serverVersion: string)

  const InitializeAnswer := InitializeResult(1, "pulumilsp", "0.0.1")

  /** slog's levels. */
  const LevelDebug := -4
  const LevelInfo := 0
  const LevelWarn := 4
  const LevelError := 8

  /** The exact text of encoding/json's error is not modelled. */
  const OptionsError := Error(Plain, "error unmarshalling initialization options: json: cannot unmarshal InitOptions")

  /** InitOptions as a client writes it: logLevel is omitted when it is nil. */
  function EncodeOptions(logLevel: Option<string>): Json
  {
    if logLevel.None? then EmptyObject else JObj(map["logLevel" := JStr(logLevel.value)])
  }

  /**
   * json.Unmarshal into InitOptions: null leaves it empty; an object yields the
   * logLevel it holds, which may be missing or null; anything else fails, and so does
   * a logLevel that is not a string.
   */
  function DecodeOptions(j: Json): (r: Result<Option<string>, Error>)
    ensures r.Err? ==> r.error == OptionsError
    ensures r.Ok? && r.value.Some? ==> j.JObj? && "logLevel" in j.fields && j.fields["logLevel"] == JStr(r.value.value)
    ensures !j.JNull? && !j.JObj? ==> r.Err?
  {
    if j.JNull? then Ok(None)
    else if !j.JObj? then Err(OptionsError)
    else if "logLevel" !in j.fields || j.fields["logLevel"].JNull? then Ok(None)
    else if j.fields["logLevel"].JStr? then Ok(Some(j.fields["logLevel"].s))
    else Err(OptionsError)
  }

  /** Decoding what a client wrote gives back its log level. */
  lemma DecodeEncodeOptions(logLevel: Option<string>)
    ensures DecodeOptions(EncodeOptions(logLevel)) == Ok(logLevel)
  {
  }

  /** The log level the request's options set, if any: none without options. */
  function LogLevelOption(p: InitializeParams): Result<Option<string>, Error>
  {
    if p.initializationOptions.None? then Ok(None) else DecodeOptions(p.initializationOptions.value)
  }

  /** The level a logLevel names, ignoring ASCII case; any other name gives the zero
      level, which is Info. */
  function LevelOf(name: string): (level: int)
    ensures level == LevelDebug || level == LevelInfo || level == LevelWarn || level == LevelError
  {
    var n := Strs.ToLower(name);
    if n == "debug" then LevelDebug
    else if n == "info" then LevelInfo
    else if n == "warn" then LevelWarn
    else if n == "error" then LevelError
    else LevelInfo
  }

  lemma LowerByteIdempotent(c: char)
    ensures Strs.LowerByte(Strs.LowerByte(c)) == Strs.LowerByte(c)
  {
  }

  lemma ToLowerIdempotent(s: string)
    ensures Strs.ToLower(Strs.ToLower(s)) == Strs.ToLower(s)
  {
    forall i | 0 <= i < |s|
      ensures Strs.ToLower(Strs.ToLower(s))[i] == Strs.ToLower(s)[i]
    {
      LowerByteIdempotent(s[i]);
    }
  }

  /** Each level is selected by exactly its own name, in any case. */
  lemma LevelNames(name: string)
    ensures LevelOf(name) == LevelDebug <==> Strs.ToLower(name) == "debug"
    ensures LevelOf(name) == LevelWarn <==> Strs.ToLower(name) == "warn"
    ensures LevelOf(name) == LevelError <==> Strs.ToLower(name) == "error"
    ensures LevelOf(name) == LevelOf(Strs.ToLower(name))
  {
    ToLowerIdempotent(name);
  }
}
