/**
 * Code actions (server/textdocument_codeaction.go): one quick fix offered per
 * diagnostic, and the checks and the edit made when the client resolves one. The two
 * fixers (Copilot and OpenAI) are parameters; the progress report around asking them
 * is part of the server (Session.Server.ResolveCodeAction).
 */
module CodeActions {
  import opened Wrappers
  import opened Errors
  import opened Json
  import Strs
  import Strconv
  import Captures
  import Diagnostics

  const QuickFix := "quickfix"

  datatype TextEdit = TextEdit(range: Diagnostics.Range, newText: string)

  datatype WorkspaceEdit = WorkspaceEdit(changes: map<string, seq<TextEdit>>)

  /** lsp.CodeAction; the data is None when the client sent none, or sent null. */
  datatype CodeAction = CodeAction(title: string, kind: string, edit: Option<WorkspaceEdit>,
                                   diagnostics: seq<Diagnostics.ProtocolDiagnostic>, data: Option<Json>)

  /** The quick fix offered for one diagnostic, carrying it and its data, which is None
      for a diagnostic without data. */
  function ActionFor(d: Diagnostics.ProtocolDiagnostic): CodeAction
  {
    CodeAction("Fix with Copilot (" + d.source + ")", QuickFix, None, [d], d.data)
  }

  /** CodeAction: one quick fix per diagnostic, in order; none without diagnostics. */
  method CodeActionsFor(diagnostics: seq<Diagnostics.ProtocolDiagnostic>) returns (actions: seq<CodeAction>)
    ensures |actions| == |diagnostics|
    ensures forall i :: 0 <= i < |diagnostics| ==>
      && actions[i] == ActionFor(diagnostics[i])
      && actions[i].title == "Fix with Copilot (" + diagnostics[i].source + ")"
      && actions[i].kind == QuickFix && actions[i].diagnostics == [diagnostics[i]]
      && actions[i].data == diagnostics[i].data
  {
    actions := [];
    for i := 0 to |diagnostics|
      invariant |actions| == i
      invariant forall k :: 0 <= k < i ==> actions[k] == ActionFor(diagnostics[k])
    {
      actions := actions + [ActionFor(diagnostics[i])];
    }
  }

  /** How resolving ends: the resolved action, an error, or the nil dereference of an
      action without data. */
  datatype Resolution = Resolved(action: CodeAction) | Failed(error: Error) | NilDataPanic

  /** The checks made before any fixer is asked: there is data, it decodes as resolve
      data, and exactly one diagnostic is attached. */
  function Checked(action: CodeAction): (r: Result<(Captures.ResolveData, Diagnostics.ProtocolDiagnostic), Resolution>)
    ensures r.Ok? <==> action.data.Some? && Captures.DecodeResolveData(action.data.value).Ok? && |action.diagnostics| == 1
    ensures r.Ok? ==> r.value == (Captures.DecodeResolveData(action.data.value).value, action.diagnostics[0])
    ensures r.Err? && action.data.Some? && Captures.DecodeResolveData(action.data.value).Ok? ==>
      r.error == Failed(Error(Plain, "expected 1 diagnostic, got " + Strconv.FormatInt(|action.diagnostics|)))
    ensures r.Err? ==> r.error.Failed? || (r.error.NilDataPanic? && action.data.None?)
  {
    if action.data.None? then Err(NilDataPanic)
    else match Captures.DecodeResolveData(action.data.value)
      case Err(e) => Err(Failed(Error(e.kind, "error unmarshalling capture info: " + e.message)))
      case Ok(data) =>
        if |action.diagnostics| != 1 then
          Err(Failed(Error(Plain, "expected 1 diagnostic, got " + Strconv.FormatInt(|action.diagnostics|))))
        else Ok((data, action.diagnostics[0]))
  }

  /** A title naming a replication policy goes to Copilot, any other to OpenAI. */
  predicate UsesCopilot(title: string)
  {
    Strs.Contains(title, "Replication")
  }

  /** The fixer chosen by the title, asked with the captured text and the diagnostic's message. */
  function Fix(title: string, data: Captures.ResolveData, diagnostic: Diagnostics.ProtocolDiagnostic,
               copilot: (string, string) -> Result<string, Error>,
               openai: (string, string) -> Result<string, Error>): (r: Result<string, Error>)
    ensures UsesCopilot(title) ==> r == copilot(data.capture.text, diagnostic.message)
    ensures !UsesCopilot(title) ==> r == openai(data.capture.text, diagnostic.message)
  {
    if UsesCopilot(title) then copilot(data.capture.text, diagnostic.message)
    else openai(data.capture.text, diagnostic.message)
  }

  /** The prefix of the error for a missing fix. With no error to wrap, %w prints
      "%!w(<nil>)". */
  const FixErrorPrefix := "error getting fix with copilot: "

  /** The edit that replaces the capture's range in the data's file by the fix. */
  function FixEdit(data: Captures.ResolveData, fix: string): WorkspaceEdit
  {
    WorkspaceEdit(map[data.uri := [TextEdit(Diagnostics.CaptureRange(data.capture), fix)]])
  }

  /** After the fixer: an error or an empty fix fails; a fix gives the action, with its
      title and kind, and the edit. */
  function Finish(action: CodeAction, data: Captures.ResolveData, fix: Result<string, Error>): (r: Resolution)
    ensures r.Resolved? <==> fix.Ok? && fix.value != ""
    ensures fix.Ok? && fix.value == "" ==> r == Failed(Error(Plain, FixErrorPrefix + "%!w(<nil>)"))
    ensures fix.Err? ==> r == Failed(Error(fix.error.kind, FixErrorPrefix + fix.error.message))
  {
    if fix.Err? then Failed(Error(fix.error.kind, FixErrorPrefix + fix.error.message))
    else if fix.value == "" then Failed(Error(Plain, FixErrorPrefix + "%!w(<nil>)"))
    else Resolved(CodeAction(action.title, action.kind, Some(FixEdit(data, fix.value)), [], None))
  }

  /** ResolveCodeAction, without its progress report. */
  function Resolve(action: CodeAction, copilot: (string, string) -> Result<string, Error>,
                   openai: (string, string) -> Result<string, Error>): Resolution
  {
    match Checked(action)
    case Err(r) => r
    case Ok((data, diagnostic)) => Finish(action, data, Fix(action.title, data, diagnostic, copilot, openai))
  }

  /**
   * Resolving succeeds exactly when the checks pass and the chosen fixer returns a
   * non-empty fix; the result keeps the title and kind and holds one edit, in the data's
   * file, replacing the capture's start..end range by the fix.
   */
  lemma ResolveSucceeds(action: CodeAction, copilot: (string, string) -> Result<string, Error>,
                        openai: (string, string) -> Result<string, Error>)
    ensures var r := Resolve(action, copilot, openai);
      r.Resolved? <==>
        && Checked(action).Ok?
        && var (data, d) := Checked(action).value;
           Fix(action.title, data, d, copilot, openai).Ok? && Fix(action.title, data, d, copilot, openai).value != ""
    ensures var r := Resolve(action, copilot, openai);
      r.Resolved? ==>
        var data := Checked(action).value.0;
        var fix := Fix(action.title, data, Checked(action).value.1, copilot, openai).value;
        && r.action.title == action.title && r.action.kind == action.kind
        && r.action.edit.Some? && r.action.edit.value.changes.Keys == {data.uri}
        && r.action.edit.value.changes[data.uri] == [TextEdit(Diagnostics.CaptureRange(data.capture), fix)]
  {
  }

  /** The fixer the title does not choose plays no part in the result. */
  lemma ResolveUsesChosenFixer(action: CodeAction, copilot: (string, string) -> Result<string, Error>,
                               openai: (string, string) -> Result<string, Error>,
                               other: (string, string) -> Result<string, Error>)
    ensures UsesCopilot(action.title) ==> Resolve(action, copilot, openai) == Resolve(action, copilot, other)
    ensures !UsesCopilot(action.title) ==> Resolve(action, copilot, openai) == Resolve(action, other, openai)
  {
  }

  /** A quick fix offered for a diagnostic whose data is a capture's resolve data passes
      the checks, with that data and that diagnostic. */
  lemma OfferedActionChecks(d: Diagnostics.ProtocolDiagnostic, rd: Captures.ResolveData)
    requires Captures.ValidCapture(rd.capture) && d.data == Some(Captures.EncodeResolveData(rd))
    ensures Checked(ActionFor(d)) == Ok((rd, d))
  {
    Captures.DecodeEncode(rd);
  }

  /** A quick fix offered for a diagnostic without data (one another source published)
      ends in the nil dereference when the client resolves it, whatever the fixers. */
  lemma DatalessActionPanics(d: Diagnostics.ProtocolDiagnostic, copilot: (string, string) -> Result<string, Error>,
                             openai: (string, string) -> Result<string, Error>)
    requires d.data.None?
    ensures Resolve(ActionFor(d), copilot, openai) == NilDataPanic
  {
  }
}
