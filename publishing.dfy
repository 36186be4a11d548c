/**
 * The server's table of published diagnostics, one entry per file
 * (server/diagnostics.go: fileDiagnostics, mustPublishDiagnostics, updateDiagnostics,
 * publishFileDiagnostics).
 *
 * updateDiagnostics overwrites the entry of every file in a diagnose result and clears
 * every other file in the table, publishing each. What is published to the client is
 * recorded in the table's `published`; a failed notification is only logged, so it is
 * not modelled. The order in which Go ranges over the maps is the order in which
 * `:|` picks URIs.
 */
module Publishing {
  import opened Wrappers
  import opened Errors
  import Strconv
  import File
  import Snapshots
  import Diagnostics

  type Diagnostic = Diagnostics.Diagnostic

  /** The diagnostics of a file as computed from one snapshot. */
  datatype ViewDiagnostics = ViewDiagnostics(snapshot: Strconv.Uint64, version: int, diagnostics: seq<Diagnostic>)

  /** mustPublish is set by mustPublishDiagnostics and read nowhere. */
  datatype FileDiagnostics = FileDiagnostics(mustPublish: bool, view: Option<ViewDiagnostics>)

  const NoDiagnostics := FileDiagnostics(false, None)

  /** A textDocument/publishDiagnostics notification. */
  datatype Publication = Publication(uri: string, version: int, diagnostics: seq<Diagnostics.ProtocolDiagnostic>)

  /** The notification publishes exactly these diagnostics, converted, for this file version. */
  predicate Publishes(p: Publication, uri: string, version: int, diags: seq<Diagnostic>)
  {
    && p.uri == uri && p.version == version && |p.diagnostics| == |diags|
    && forall i :: 0 <= i < |diags| ==> p.diagnostics[i] == Diagnostics.ToProtocol(diags[i])
  }

  /** What Snapshot.ReadFile gives for a file: the cached handle, or reading it. */
  function Look(files: map<string, File.Handle>, read: string -> Result<File.Handle, Error>, u: string): Result<File.Handle, Error>
  {
    if u in files then Ok(files[u]) else read(u)
  }

  /** The diagnostics a result has for a file: none when it does not name the file. */
  function DiagnosticsFor(result: map<string, seq<Diagnostic>>, u: string): seq<Diagnostic>
  {
    if u in result then result[u] else []
  }

  /** A file's entry after updateAndPublish: overwritten when the file could be read. */
  function Updated(entries: map<string, FileDiagnostics>, u: string, h: Result<File.Handle, Error>,
                   snapshot: Strconv.Uint64, diags: seq<Diagnostic>): FileDiagnostics
  {
    var f := if u in entries then entries[u] else NoDiagnostics;
    if h.Ok? then f.(view := Some(ViewDiagnostics(snapshot, h.value.version, diags))) else f
  }

  /** Reading through the cache adds a file to it only when reading it succeeds, and never
      changes what a later read of any file gives. */
  lemma LookCached(files: map<string, File.Handle>, read: string -> Result<File.Handle, Error>, u: string, v: string)
    ensures var files' := if u in files || read(u).Err? then files else files[u := read(u).value];
      Look(files', read, v) == Look(files, read, v)
  {
  }

  /**
   * The publications from index `start` on publish each file of `done` that can be
   * read, exactly once, with the diagnostics the result has for it, and nothing else.
   */
  ghost predicate PublishedOnce(pubs: seq<Publication>, start: nat, done: set<string>, files: map<string, File.Handle>,
                                read: string -> Result<File.Handle, Error>, result: map<string, seq<Diagnostic>>)
  {
    && start <= |pubs|
    && (forall i :: start <= i < |pubs| ==>
          var u := pubs[i].uri;
          u in done && Look(files, read, u).Ok?
          && Publishes(pubs[i], u, Look(files, read, u).value.version, DiagnosticsFor(result, u)))
    && (forall u :: u in done && Look(files, read, u).Ok? ==> exists i :: start <= i < |pubs| && pubs[i].uri == u)
    && (forall i, j :: start <= i < j < |pubs| ==> pubs[i].uri != pubs[j].uri)
  }

  /** Publishing one more file, if it can be read, keeps every file published once. */
  lemma PublishedOnceStep(pubs: seq<Publication>, pubs': seq<Publication>, start: nat, done: set<string>, u: string,
                          files: map<string, File.Handle>, read: string -> Result<File.Handle, Error>,
                          result: map<string, seq<Diagnostic>>)
    requires PublishedOnce(pubs, start, done, files, read, result)
    requires u !in done
    requires Look(files, read, u).Err? ==> pubs' == pubs
    requires Look(files, read, u).Ok? ==>
      && |pubs'| == |pubs| + 1 && pubs'[..|pubs|] == pubs
      && Publishes(pubs'[|pubs|], u, Look(files, read, u).value.version, DiagnosticsFor(result, u))
    ensures PublishedOnce(pubs', start, done + {u}, files, read, result)
  {
    if Look(files, read, u).Ok? {
      assert forall i :: 0 <= i < |pubs| ==> pubs'[i] == pubs[i];
      assert pubs'[|pubs|].uri == u;
      forall i, j | start <= i < j < |pubs'|
        ensures pubs'[i].uri != pubs'[j].uri
      {
        if j == |pubs| {
          assert pubs[i].uri in done;
        }
      }
      forall v | v in done + {u} && Look(files, read, v).Ok?
        ensures exists i :: start <= i < |pubs'| && pubs'[i].uri == v
      {
        if v == u {
          assert pubs'[|pubs|].uri == v;
        } else {
          var i :| start <= i < |pubs| && pubs[i].uri == v;
          assert pubs'[i].uri == v;
        }
      }
    }
  }

  /** Two runs of publications over disjoint sets of files, the second reading through a
      cache that gives the same handles, publish the union once. */
  lemma PublishedOnceConcat(p1: seq<Publication>, p2: seq<Publication>, start: nat, d1: set<string>, d2: set<string>,
                            files: map<string, File.Handle>, files2: map<string, File.Handle>,
                            read: string -> Result<File.Handle, Error>, result: map<string, seq<Diagnostic>>)
    requires PublishedOnce(p1, start, d1, files, read, result)
    requires |p1| <= |p2| && p2[..|p1|] == p1
    requires PublishedOnce(p2, |p1|, d2, files2, read, result)
    requires forall u :: Look(files2, read, u) == Look(files, read, u)
    requires d1 !! d2
    ensures PublishedOnce(p2, start, d1 + d2, files, read, result)
  {
    assert forall i :: 0 <= i < |p1| ==> p2[i] == p1[i];
    forall v | v in d1 + d2 && Look(files, read, v).Ok?
      ensures exists i :: start <= i < |p2| && p2[i].uri == v
    {
      if v in d1 {
        var i :| start <= i < |p1| && p1[i].uri == v;
        assert p2[i].uri == v;
      } else {
        assert Look(files2, read, v).Ok?;
      }
    }
  }

  class Table {
    var entries: map<string, FileDiagnostics>
    var published: seq<Publication>

    constructor()
      ensures entries == map[] && published == []
    {
      entries := map[];
      published := [];
    }

    /** mustPublishDiagnostics: the file gets an entry, marked. */
    method MustPublish(uri: string)
      modifies this`entries
      ensures entries == old(entries)[uri := (if uri in old(entries) then old(entries)[uri] else NoDiagnostics).(mustPublish := true)]
    {
      var f := if uri in entries then entries[uri] else NoDiagnostics;
      entries := entries[uri := f.(mustPublish := true)];
    }

    /** updateAndPublish: read the file through the snapshot; if that fails, nothing
        changes; otherwise overwrite its entry and publish. */
    method UpdateAndPublish(snapshot: Snapshots.Snapshot, uri: string, diags: seq<Diagnostic>,
                            read: string -> Result<File.Handle, Error>)
      requires uri in entries
      modifies this`entries, this`published, snapshot`files
      ensures var h := Look(old(snapshot.files), read, uri);
        && entries == old(entries)[uri := Updated(old(entries), uri, h, snapshot.sequenceID, diags)]
        && (h.Err? ==> published == old(published))
        && (h.Ok? ==>
              && |published| == |old(published)| + 1 && published[..|old(published)|] == old(published)
              && Publishes(published[|old(published)|], uri, h.value.version, diags))
      ensures snapshot.files == if uri in old(snapshot.files) || read(uri).Err? then old(snapshot.files)
                                else old(snapshot.files)[uri := read(uri).value]
    {
      var fh := snapshot.ReadFile(uri, read(uri));
      if fh.Err? {
        return;
      }
      var f := entries[uri];
      entries := entries[uri := f.(view := Some(ViewDiagnostics(snapshot.sequenceID, fh.value.version, diags)))];
      var reports := Diagnostics.ToProtocolDiagnostics(diags);
      published := published + [Publication(uri, fh.value.version, reports)];
    }

    /** One file of PublishEach: an entry made if there is none, then updateAndPublish. */
    method PublishOne(snapshot: Snapshots.Snapshot, u: string, result: map<string, seq<Diagnostic>>,
                      read: string -> Result<File.Handle, Error>)
      modifies this`entries, this`published, snapshot`files
      ensures var h := Look(old(snapshot.files), read, u);
        && entries == old(entries)[u := Updated(old(entries), u, h, snapshot.sequenceID, DiagnosticsFor(result, u))]
        && (h.Err? ==> published == old(published))
        && (h.Ok? ==>
              && |published| == |old(published)| + 1 && published[..|old(published)|] == old(published)
              && Publishes(published[|old(published)|], u, h.value.version, DiagnosticsFor(result, u)))
      ensures forall v :: Look(snapshot.files, read, v) == Look(old(snapshot.files), read, v)
    {
      if u !in entries {
        entries := entries[u := NoDiagnostics];
      }
      UpdateAndPublish(snapshot, u, DiagnosticsFor(result, u), read);
      forall v
        ensures Look(snapshot.files, read, v) == Look(old(snapshot.files), read, v)
      {
        LookCached(old(snapshot.files), read, u, v);
      }
    }

    /**
     * updateAndPublish for every file of a set, in any order, each with the diagnostics
     * the result has for it; a file without an entry gets one first.
     */
    method PublishEach(snapshot: Snapshots.Snapshot, uris: set<string>, result: map<string, seq<Diagnostic>>,
                       read: string -> Result<File.Handle, Error>)
      modifies this`entries, this`published, snapshot`files
      ensures entries.Keys == old(entries).Keys + uris
      ensures forall u :: u in entries ==>
        entries[u] == if u in uris then Updated(old(entries), u, Look(old(snapshot.files), read, u), snapshot.sequenceID, DiagnosticsFor(result, u))
                      else old(entries)[u]
      ensures forall u :: Look(snapshot.files, read, u) == Look(old(snapshot.files), read, u)
      ensures |old(published)| <= |published| && published[..|old(published)|] == old(published)
      ensures PublishedOnce(published, |old(published)|, uris, old(snapshot.files), read, result)
    {
      var todo := uris;
      ghost var done: set<string> := {};
      while todo != {}
        invariant todo + done == uris && todo !! done
        invariant entries.Keys == old(entries).Keys + done
        invariant forall u :: u in entries ==>
          entries[u] == if u in done then Updated(old(entries), u, Look(old(snapshot.files), read, u), snapshot.sequenceID, DiagnosticsFor(result, u))
                        else old(entries)[u]
        invariant forall u :: Look(snapshot.files, read, u) == Look(old(snapshot.files), read, u)
        invariant |old(published)| <= |published| && published[..|old(published)|] == old(published)
        invariant PublishedOnce(published, |old(published)|, done, old(snapshot.files), read, result)
        decreases todo
      {
        var u :| u in todo;
        ghost var before := published;
        PublishOne(snapshot, u, result, read);
        PublishedOnceStep(before, published, |old(published)|, done, u, old(snapshot.files), read, result);
        todo := todo - {u};
        done := done + {u};
      }
    }

    /**
     * updateDiagnostics: nothing when the diagnosing context is cancelled. Otherwise every
     * file of the result, and then every other file of the table, is updated and
     * published once, a file of the table the result does not name with no diagnostics.
     * A file that cannot be read keeps its entry and is not published. No entry is ever
     * removed.
     */
    method Update(cancelled: bool, snapshot: Snapshots.Snapshot, result: map<string, seq<Diagnostic>>,
                  read: string -> Result<File.Handle, Error>)
      modifies this`entries, this`published, snapshot`files
      ensures cancelled ==> entries == old(entries) && published == old(published) && snapshot.files == old(snapshot.files)
      ensures !cancelled ==>
        && entries.Keys == old(entries).Keys + result.Keys
        && (forall u :: u in entries ==>
              entries[u] == Updated(old(entries), u, Look(old(snapshot.files), read, u), snapshot.sequenceID, DiagnosticsFor(result, u)))
        && (forall u :: Look(snapshot.files, read, u) == Look(old(snapshot.files), read, u))
        && |old(published)| <= |published| && published[..|old(published)|] == old(published)
        && PublishedOnce(published, |old(published)|, entries.Keys, old(snapshot.files), read, result)
    {
      if cancelled {
        return;
      }
      PublishEach(snapshot, result.Keys, result, read);
      ghost var entries1 := entries;
      ghost var published1 := published;
      ghost var files1 := snapshot.files;
      PublishEach(snapshot, entries.Keys - result.Keys, result, read);
      assert forall u :: u in entries1 && u !in result ==> entries1[u] == old(entries)[u];
      PublishedOnceConcat(published1, published, |old(published)|, result.Keys, entries1.Keys - result.Keys,
                          old(snapshot.files), files1, read, result);
      assert result.Keys + (entries1.Keys - result.Keys) == entries.Keys;
    }
  }
}
