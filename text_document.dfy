/**
 * What a text-document notification tells the server (server/textdocument.go,
 * textdocument_didopen.go, textdocument_didsave.go): where a change came from, the
 * modifications didOpen and didSave hand to didModifyFiles, and the file handles
 * didModifyFiles reads for them.
 */
module TextDocument {
  import opened Wrappers
  import opened Errors
  import File

  /** A ModificationSource is an int; these are its named values. */
  newtype ModificationSource = int

  const FromDidOpen: ModificationSource := 0
  const FromDidChange: ModificationSource := 1
  const FromDidChangeWatchedFiles: ModificationSource := 2
  const FromDidSave: ModificationSource := 3
  const FromDidClose: ModificationSource := 4
  const FromDidChangeConfiguration: ModificationSource := 5
  const FromRegenerateCgo: ModificationSource := 6
  const FromInitialWorkspaceLoad: ModificationSource := 7
  const FromCheckUpgrades: ModificationSource := 8
  const FromResetGoModDiagnostics: ModificationSource := 9
  const FromToggleCompilerOptDetails: ModificationSource := 10

  /** lsp.TextDocumentItem. */
  datatype TextDocumentItem = TextDocumentItem(uri: string, languageID: string, version: int, text: string)

  datatype DidOpenParams = DidOpenParams(textDocument: TextDocumentItem)

  /** Text is nil (None) unless the client includes the saved text. */
  datatype DidSaveParams = DidSaveParams(uri: string, text: Option<string>)

  /** The one modification didOpen reports. */
  function DidOpenModifications(p: DidOpenParams): seq<File.Modification>
  {
    var d := p.textDocument;
    [File.Modification(d.uri, File.Open, false, d.version, Some(d.text), d.languageID)]
  }

  /** The one modification didSave reports. Its version is left at Go's zero value. */
  function DidSaveModifications(p: DidSaveParams): seq<File.Modification>
  {
    [File.Modification(p.uri, File.Save, false, 0, p.text, "")]
  }

  /** Whether any modification is a save (invalidateViewLocked's isSave). */
  predicate IsSave(mods: seq<File.Modification>)
  {
    exists i :: 0 <= i < |mods| && mods[i].action == File.Save
  }

  /** The URIs the modifications name. */
  function Uris(mods: seq<File.Modification>): set<string>
  {
    set i | 0 <= i < |mods| :: mods[i].uri
  }

  /** didModifyFiles' `changes`: the modified URIs in order, one per modification. */
  function ChangedUris(mods: seq<File.Modification>): (us: seq<string>)
    ensures |us| == |mods| && forall i :: 0 <= i < |mods| ==> us[i] == mods[i].uri
    ensures forall u :: u in us <==> u in Uris(mods)
  {
    if mods == [] then [] else [mods[0].uri] + ChangedUris(mods[1..])
  }

  /**
   * mustReadFile: reading with a detached context cannot be cancelled, so it always
   * gives a handle, of version 0, whose content is what reading the disk gave.
   */
  function MustReadFile(disk: string -> Result<string, Error>, uri: string): (h: File.Handle)
    ensures h.uri == uri && h.version == 0
  {
    File.Handle(uri, 0, disk(uri))
  }

  /** didModifyFiles' `changed`: every modified file read from disk. */
  function ChangedFiles(mods: seq<File.Modification>, disk: string -> Result<string, Error>): map<string, File.Handle>
  {
    map u | u in Uris(mods) :: MustReadFile(disk, u)
  }

  /** One more modification names one more URI. */
  lemma UrisStep(mods: seq<File.Modification>, i: int)
    requires 0 <= i < |mods|
    ensures Uris(mods[..i+1]) == Uris(mods[..i]) + {mods[i].uri}
  {
    forall u | u in Uris(mods[..i+1])
      ensures u in Uris(mods[..i]) + {mods[i].uri}
    {
      var k :| 0 <= k < i + 1 && mods[..i+1][k].uri == u;
      if k < i {
        assert mods[..i][k] == mods[..i+1][k];
      }
    }
    forall u | u in Uris(mods[..i])
      ensures u in Uris(mods[..i+1])
    {
      var k :| 0 <= k < i && mods[..i][k].uri == u;
      assert mods[..i+1][k] == mods[..i][k];
    }
    assert mods[..i+1][i] == mods[i];
  }

  /** One more modification adds its file to the changed files. */
  lemma ChangedFilesStep(mods: seq<File.Modification>, i: int, disk: string -> Result<string, Error>)
    requires 0 <= i < |mods|
    ensures ChangedFiles(mods[..i+1], disk) == ChangedFiles(mods[..i], disk)[mods[i].uri := MustReadFile(disk, mods[i].uri)]
  {
    UrisStep(mods, i);
  }

  /** didOpen's change is an open of the document at its version with its text; it is
      no save, so it cancels nothing. */
  lemma DidOpenChange(p: DidOpenParams)
    ensures var m := DidOpenModifications(p);
      && Uris(m) == {p.textDocument.uri} && !IsSave(m)
      && m[0].action == File.Open && m[0].version == p.textDocument.version
      && m[0].text == Some(p.textDocument.text)
  {
    var m := DidOpenModifications(p);
    assert m[0].uri in Uris(m);
  }

  /** didSave's change is a save of the document, with the text exactly when the client
      sent it; being a save, it cancels the previous snapshot. */
  lemma DidSaveChange(p: DidSaveParams)
    ensures var m := DidSaveModifications(p);
      && Uris(m) == {p.uri} && IsSave(m)
      && m[0].action == File.Save && (m[0].text.Some? <==> p.text.Some?)
  {
    var m := DidSaveModifications(p);
    assert m[0].uri in Uris(m);
    assert m[0].action == File.Save;
  }

  /** Every modified file, and nothing else, is in the changed files, as read from disk. */
  lemma ChangedFilesAbout(mods: seq<File.Modification>, disk: string -> Result<string, Error>, u: string)
    ensures u in ChangedFiles(mods, disk) <==> exists i :: 0 <= i < |mods| && mods[i].uri == u
    ensures u in ChangedFiles(mods, disk) ==> ChangedFiles(mods, disk)[u] == File.Handle(u, 0, disk(u))
  {
  }
}
