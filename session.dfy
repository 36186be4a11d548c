/**
 * The LSP server's session (server/server.go, initialize.go, textdocument.go,
 * textdocument_didopen.go, textdocument_didsave.go and the diagnosing half of
 * diagnostics.go): its lifecycle state, its one view, the critical-error status it
 * shows, and what a file modification sets off.
 *
 * stateMu is modelled by `stateLocked`: a call that finds it held waits for good,
 * which is a None result here, because no other call ever releases it. Goroutines
 * (the background workspace load, the diagnosis of a changed view) are separate
 * methods; their contexts are `cancelled` flags.
 */
module Session {
  import opened Wrappers
  import opened Errors
  import Json
  import Strconv
  import Strs
  import LspServer
  import File
  import Snapshots
  import Views
  import Progress
  import Publishing
  import Diagnostics
  import TextDocument
  import Initialization
  import PulumiRun
  import CodeActions

  /** serverState is an int; these are its named values, in lifecycle order. */
  newtype State = int

  const Created: State := 0
  const Initializing: State := 1
  const Initialized: State := 2
  const ShutDown: State := 3

  /** serverState.String. */
  function StateString(s: State): string
  {
    if s == Created then "created"
    else if s == Initializing then "initializing"
    else if s == Initialized then "initialized"
    else if s == ShutDown then "shutDown"
    else "(unknown state: " + Strconv.FormatInt(s as int) + ")"
  }

  /** No two states print alike, named or not. */
  lemma StateStringInjective(a: State, b: State)
    requires StateString(a) == StateString(b)
    ensures a == b
  {
    var p := "(unknown state: ";
    var named := (s: State) => Created <= s <= ShutDown;
    if !named(a) && !named(b) {
      var sa := StateString(a);
      var sb := StateString(b);
      assert sa[|p|..|sa| - 1] == Strconv.FormatInt(a as int);
      assert sb[|p|..|sb| - 1] == Strconv.FormatInt(b as int);
      var lo := if a < b then a as int else b as int;
      var hi := if a < b then b as int else a as int;
      Strconv.ParseFormatInt(a as int, lo, hi);
      Strconv.ParseFormatInt(b as int, lo, hi);
    }
  }

  function InitializeStateError(s: State): Error
  {
    Error(InvalidRequest, ErrInvalidRequestText + ": initialize called while server in " + StateString(s) + " state")
  }

  function InitializedStateError(s: State): Error
  {
    Error(InvalidRequest, ErrInvalidRequestText + ": initialized called while server in " + StateString(s) + " state")
  }

  const NoRunnerError := Error(Plain, "no runner")

  /** Why invalidateViewLocked panics: the server has no view (a nil dereference, as after
      shutdown), or its view has no snapshot left ("invalidateContent called after shutdown"). */
  datatype InvalidatePanic = NilView | NoSnapshot

  /**
   * What didModifyFiles hands to the goroutine it starts for diagnoseChangedView: the
   * new diagnosis scope and its number, the modified URIs and the cause of the change.
   */
  datatype PendingDiagnosis = PendingDiagnosis(scope: Scope, modID: Strconv.Uint64, changes: seq<string>,
                                               cause: TextDocument.ModificationSource)

  const ErrorStatusTitle := "Error loading workspace"

  /** filepath.Join of a directory and a file name, without filepath.Clean. */
  function JoinPath(dir: string, name: string): string
  {
    if dir == "" then name
    else if dir[|dir| - 1] == '/' then dir + name
    else dir + "/" + name
  }

  /** The URI NewView gives the view's Pulumi.yaml. */
  function PulumiYamlURI(root: string): string
    requires LspServer.Path(root).Some?
  {
    LspServer.URIFromPath(JoinPath(LspServer.Path(root).value, "Pulumi.yaml"))
  }

  /** The Pulumi.yaml URI is a file URI whose path is the file Pulumi.yaml in the root's
      directory. */
  lemma PulumiYamlInRoot(root: string)
    requires LspServer.Path(root).Some?
    ensures var dir := LspServer.Path(root).value;
      var path := JoinPath(dir, "Pulumi.yaml");
      && LspServer.Path(PulumiYamlURI(root)) == Some(path)
      && path[..|dir|] == dir && path[|path| - 11..] == "Pulumi.yaml"
      && (dir != "" ==> path[|path| - 12] == '/')
  {
    var dir := LspServer.Path(root).value;
    var path := JoinPath(dir, "Pulumi.yaml");
    LspServer.PathOfURIFromPath(path);
    if dir == "" {
    } else if dir[|dir| - 1] == '/' {
      assert path == dir + "Pulumi.yaml";
    } else {
      assert path == dir + "/" + "Pulumi.yaml";
    }
  }

  /**
   * The message of the critical-error status for an initialization error: its text
   * with newlines replaced by spaces, or "" when there is no error.
   */
  function ErrorStatusMessage(err: Option<Error>): (m: string)
    ensures forall i :: 0 <= i < |m| ==> m[i] != '\n'
    ensures m == "" <==> err.None? || err.value.message == ""
  {
    if err.None? then "" else Strs.ReplaceByte(err.value.message, '\n', ' ')
  }

  /** What updateDiagnostics reads a file with: mustReadFile's handle, as the diagnosing
      context is live while it runs. */
  function DiskRead(disk: string -> Result<string, Error>): string -> Result<File.Handle, Error>
  {
    u => Ok(TextDocument.MustReadFile(disk, u))
  }

  /** The table after mustPublishDiagnostics for each of the files: each gets an entry,
      marked, and no other entry changes. */
  function Marked(entries: map<string, Publishing.FileDiagnostics>, uris: set<string>): map<string, Publishing.FileDiagnostics>
  {
    map u | u in entries.Keys + uris ::
      if u in uris then (if u in entries then entries[u] else Publishing.NoDiagnostics).(mustPublish := true) else entries[u]
  }

  /** Marking one more file is one more mustPublishDiagnostics. */
  lemma MarkedStep(entries: map<string, Publishing.FileDiagnostics>, uris: set<string>, u: string)
    ensures var m := Marked(entries, uris);
      Marked(entries, uris + {u}) == m[u := (if u in m then m[u] else Publishing.NoDiagnostics).(mustPublish := true)]
  {
  }

  /** didModifyFiles' second loop: every modified file read into `changed`. */
  method ReadChanged(mods: seq<File.Modification>, disk: string -> Result<string, Error>)
    returns (changed: map<string, File.Handle>)
    ensures changed == TextDocument.ChangedFiles(mods, disk)
  {
    changed := map[];
    assert TextDocument.Uris(mods[..0]) == {};
    for i := 0 to |mods|
      invariant changed == TextDocument.ChangedFiles(mods[..i], disk)
    {
      changed := changed[mods[i].uri := TextDocument.MustReadFile(disk, mods[i].uri)];
      TextDocument.ChangedFilesStep(mods, i, disk);
    }
    assert mods[..|mods|] == mods;
  }

  /**
   * The goroutine createView starts: the first attempt at initializing the snapshot,
   * in the view's initialization context, then the release of its reference.
   */
  method InitialWorkspaceLoad(v: Views.View, snapshot: Snapshots.Snapshot, workspace: Result<Snapshots.Runner, Error>)
    requires snapshot.load == v.load && snapshot.refcount > 0
    requires !snapshot.initialized ==> !v.load.closed
    modifies snapshot`initialized, snapshot`initialErr, snapshot`runner, snapshot`refcount, snapshot`doneCalls, v.load
    ensures snapshot.refcount == old(snapshot.refcount) - 1
    ensures snapshot.doneCalls == old(snapshot.doneCalls) + if snapshot.refcount == 0 then 1 else 0
    ensures v.initLoadCancelled || old(snapshot.initialized) ==>
      && snapshot.initialized == old(snapshot.initialized) && v.load.closed == old(v.load.closed)
      && snapshot.initialErr == old(snapshot.initialErr) && snapshot.runner == old(snapshot.runner)
    ensures !v.initLoadCancelled && !old(snapshot.initialized) ==>
      && snapshot.initialized && v.load.closed
      && (old(snapshot.runner).None? && workspace.Err? ==> snapshot.initialErr == Some(workspace.error))
      && (old(snapshot.runner).Some? || workspace.Ok? ==> snapshot.initialErr.None? && snapshot.runner.Some?)
  {
    snapshot.Initialize(v.initLoadCancelled, true, workspace);
    snapshot.Decref();
  }

  /** A cancellable context: the cancel function sets `cancelled`. */
  class Scope {
    var cancelled: bool

    constructor()
      ensures !cancelled
    {
      cancelled := false;
    }

    method Cancel()
      modifies this
      ensures cancelled
    {
      cancelled := true;
    }
  }

  class Server {
    var state: State
    /** Whether stateMu is held by a call that never released it. */
    var stateLocked: bool
    var rootURI: string
    var view: Views.View?
    /** logger.ProgramLevel. */
    var programLevel: int
    var criticalErrorStatus: Progress.WorkDone?
    const progress: Progress.Tracker
    const diagnostics: Publishing.Table
    /** The scope of the latest diagnosis, which the next modification cancels. */
    var cancelPrevDiagnostics: Scope?
    var lastModificationID: Strconv.Uint64
    /** The package's viewIndex counter, which only this server advances. */
    var viewIndex: int
    var napperClosed: bool

    constructor()
      ensures state == Created && !stateLocked && rootURI == "" && view == null
      ensures programLevel == Initialization.LevelInfo && criticalErrorStatus == null
      ensures fresh(progress) && !progress.supportsWorkDoneProgress && progress.inProgress == map[] && progress.reports == []
      ensures fresh(diagnostics) && diagnostics.entries == map[] && diagnostics.published == []
      ensures cancelPrevDiagnostics == null && lastModificationID == 0 && viewIndex == 0 && !napperClosed
    {
      state := Created;
      stateLocked := false;
      rootURI := "";
      view := null;
      programLevel := Initialization.LevelInfo;
      criticalErrorStatus := null;
      progress := new Progress.Tracker();
      diagnostics := new Publishing.Table();
      cancelPrevDiagnostics := null;
      lastModificationID := 0;
      viewIndex := 0;
      napperClosed := false;
    }

    /**
     * Initialize: fails once initialize has been received. Otherwise invalid options
     * fail without changing anything; valid ones set the log level when they name one,
     * and then progress support, the Initializing state and the root are recorded.
     * Unlike the code as written, every path releases stateMu.
     */
    method Initialize(params: Initialization.InitializeParams)
      returns (r: Option<Result<Initialization.InitializeResult, Error>>)
      modifies this`state, this`rootURI, this`programLevel, progress`supportsWorkDoneProgress
      ensures stateLocked == old(stateLocked)
      ensures var opts := Initialization.LogLevelOption(params);
        old(stateLocked) || old(state) >= Initializing || opts.Err? ==>
        && state == old(state) && rootURI == old(rootURI) && programLevel == old(programLevel)
        && progress.supportsWorkDoneProgress == old(progress.supportsWorkDoneProgress)
      ensures old(stateLocked) ==> r.None?
      ensures !old(stateLocked) && old(state) >= Initializing ==> r == Some(Err(InitializeStateError(old(state))))
      ensures var opts := Initialization.LogLevelOption(params);
        !old(stateLocked) && old(state) < Initializing && opts.Err? ==> r == Some(Err(opts.error))
      ensures var opts := Initialization.LogLevelOption(params);
        !old(stateLocked) && old(state) < Initializing && opts.Ok? ==>
        && r == Some(Ok(Initialization.InitializeAnswer))
        && state == Initializing && rootURI == params.rootURI
        && progress.supportsWorkDoneProgress == params.workDoneProgress
        && programLevel == if opts.value.Some? then Initialization.LevelOf(opts.value.value) else old(programLevel)
    {
      if stateLocked {
        return None;
      }
      if state >= Initializing {
        return Some(Err(InitializeStateError(state)));
      }
      var opts := Initialization.LogLevelOption(params);
      if opts.Err? {
        return Some(Err(opts.error));
      }
      if opts.value.Some? {
        programLevel := Initialization.LevelOf(opts.value.value);
      }
      progress.SetSupportsWorkDoneProgress(params.workDoneProgress);
      state := Initializing;
      rootURI := params.rootURI;
      r := Some(Ok(Initialization.InitializeAnswer));
    }

    /**
     * Initialize as written: the same answers, but a failure to unmarshal the options
     * returns with stateMu still held, so every later call that takes it waits for good.
     */
    method InitializeAsWritten(params: Initialization.InitializeParams)
      returns (r: Option<Result<Initialization.InitializeResult, Error>>)
      modifies this`state, this`rootURI, this`programLevel, progress`supportsWorkDoneProgress, this`stateLocked
      ensures stateLocked <==>
        old(stateLocked) || (old(state) < Initializing && Initialization.LogLevelOption(params).Err?)
      ensures old(stateLocked) ==> r.None?
      ensures !old(stateLocked) && old(state) >= Initializing ==> r == Some(Err(InitializeStateError(old(state))))
      ensures var opts := Initialization.LogLevelOption(params);
        !old(stateLocked) && old(state) < Initializing ==>
        r == Some(if opts.Err? then Err(opts.error) else Ok(Initialization.InitializeAnswer))
    {
      var locks := !stateLocked && state < Initializing && Initialization.LogLevelOption(params).Err?;
      r := Initialize(params);
      if locks {
        stateLocked := true;
      }
    }

    /** Initialized: fails once initialized has been received; otherwise the state
        becomes Initialized, whether or not initialize came first. */
    method InitializedNotification() returns (r: Option<Option<Error>>)
      modifies this`state
      ensures old(stateLocked) || old(state) >= Initialized ==> state == old(state)
      ensures old(stateLocked) ==> r.None?
      ensures !old(stateLocked) && old(state) >= Initialized ==> r == Some(Some(InitializedStateError(old(state))))
      ensures !old(stateLocked) && old(state) < Initialized ==> r == Some(None) && state == Initialized
    {
      if stateLocked {
        return None;
      }
      if state >= Initialized {
        return Some(Some(InitializedStateError(state)));
      }
      state := Initialized;
      r := Some(None);
    }

    /**
     * createView: a view with the next index as its id, a fresh initialWorkspaceLoad,
     * and a first snapshot holding three references: the view's, the background
     * load's and the caller's. The view is not yet the server's.
     */
    method CreateView(root: string, pulumiyaml: string) returns (v: Views.View, snapshot: Snapshots.Snapshot)
      requires view == null
      modifies this`viewIndex
      ensures viewIndex == old(viewIndex) + 1 && v.id == Strconv.FormatInt(viewIndex)
      ensures fresh(v) && fresh(v.load) && fresh(snapshot)
      ensures v.root == root && v.pulumiyaml == pulumiyaml && !v.initLoadCancelled && !v.load.closed
      ensures v.snapshot == snapshot && snapshot.load == v.load && snapshot.root == root
      ensures snapshot.refcount == 3 && snapshot.doneCalls == 0 && !snapshot.cancelled
      ensures snapshot.files == map[] && snapshot.sequenceID == 0 && !snapshot.initialized
      ensures snapshot.initialErr.None? && snapshot.runner.None?
    {
      viewIndex := viewIndex + 1;
      var load := new Snapshots.Latch();
      v := new Views.View(Strconv.FormatInt(viewIndex), root, pulumiyaml, load);
      snapshot := new Snapshots.Snapshot(load, root);
      v.snapshot := snapshot;
      snapshot.Acquire();
      snapshot.Acquire();
    }

    /** NewView: the view of a file URI root, with Pulumi.yaml in the root's directory,
        made the server's view. */
    method NewView(root: string) returns (v: Views.View, snapshot: Snapshots.Snapshot)
      requires view == null
      requires LspServer.Path(root).Some?
      modifies this`viewIndex, this`view
      ensures view == v && fresh(v) && fresh(v.load) && fresh(snapshot)
      ensures v.root == root && v.pulumiyaml == PulumiYamlURI(root)
      ensures viewIndex == old(viewIndex) + 1 && v.id == Strconv.FormatInt(viewIndex)
      ensures v.snapshot == snapshot && snapshot.load == v.load && !v.load.closed && !v.initLoadCancelled
      ensures snapshot.refcount == 3 && !snapshot.initialized && snapshot.files == map[]
    {
      var dir := LspServer.Path(root).value;
      v, snapshot := CreateView(root, LspServer.URIFromPath(JoinPath(dir, "Pulumi.yaml")));
      view := v;
    }

    /**
     * invalidateViewLocked: panics without a view or without a view snapshot. Otherwise
     * a save among the modifications cancels the previous snapshot; after waiting for
     * the initial workspace load (blocked while it is still running), the view moves to
     * a clone with the changed files and the next sequence number, the previous
     * snapshot loses the view's reference and the clone is returned with two.
     */
    method InvalidateViewLocked(mods: seq<File.Modification>, changed: map<string, File.Handle>,
                                workspace: Result<Snapshots.Runner, Error>)
      returns (r: Snapshots.Snapshot?, blocked: bool, panicked: Option<InvalidatePanic>)
      requires view != null && view.snapshot != null ==> view.snapshot.refcount > 0
      modifies view, (if view != null && view.snapshot != null then {view.snapshot} else {}),
        (if view != null && view.snapshot != null then {view.snapshot.load} else {})
      ensures old(view) == null <==> panicked == Some(NilView)
      ensures old(view) != null && old(view.snapshot) == null <==> panicked == Some(NoSnapshot)
      ensures panicked.Some? ==> r == null && !blocked && (view != null ==> view.snapshot == null)
      ensures old(view) != null && old(view.snapshot) != null ==>
        var prev := old(view.snapshot);
        && prev.cancelled == (old(prev.cancelled) || TextDocument.IsSave(mods))
        && blocked == !old(prev.load.closed)
        && (blocked ==> r == null && view.snapshot == prev && prev.refcount == old(prev.refcount))
        && (!blocked ==>
              && r != null && fresh(r) && view.snapshot == r
              && r.refcount == 2 && r.doneCalls == 0 && !r.cancelled && r.initialized
              && r.runner == prev.runner && r.load == prev.load && r.initialErr.None?
              && r.sequenceID == Strconv.IncUint64(old(prev.sequenceID))
              && r.files == Snapshots.ClonedFiles(old(prev.files), changed)
              && r.policyDiagnostics == old(prev.policyDiagnostics)
              && prev.refcount == old(prev.refcount) - 1
              && prev.doneCalls == old(prev.doneCalls) + (if prev.refcount == 0 then 1 else 0))
    {
      if view == null {
        return null, false, Some(NilView);
      }
      if view.snapshot == null {
        return null, false, Some(NoSnapshot);
      }
      panicked := None;
      var prev := view.snapshot;
      if TextDocument.IsSave(mods) {
        prev.Cancel();
      }
      blocked := prev.AwaitInitialized(false, workspace);
      if blocked {
        return null, true, None;
      }
      r := SwapSnapshot(prev, changed);
    }

    /** The end of invalidateViewLocked: the view moves to a clone of the snapshot, which
        keeps one reference for the view and gives one to the caller, and the view's
        reference to the old snapshot is released. */
    method SwapSnapshot(prev: Snapshots.Snapshot, changed: map<string, File.Handle>) returns (next: Snapshots.Snapshot)
      requires view != null && view.snapshot == prev && prev.refcount > 0
      modifies view`snapshot, prev`refcount, prev`doneCalls
      ensures fresh(next) && view.snapshot == next
      ensures next.refcount == 2 && next.doneCalls == 0 && !next.cancelled && next.initialized == prev.initialized
      ensures next.runner == prev.runner && next.load == prev.load && next.initialErr.None?
      ensures next.sequenceID == Strconv.IncUint64(prev.sequenceID)
      ensures next.files == Snapshots.ClonedFiles(prev.files, changed)
      ensures next.policyDiagnostics == prev.policyDiagnostics
      ensures prev.refcount == old(prev.refcount) - 1
      ensures prev.doneCalls == old(prev.doneCalls) + (if prev.refcount == 0 then 1 else 0)
    {
      next := prev.Clone(changed, map[]);
      view.snapshot := next;
      prev.Decref();
      next.Acquire();
    }

    /**
     * updateCriticalErrorStatus: without a status, an error with a message starts one
     * titled "Error loading workspace"; with a status, no error (or an empty message)
     * ends it with "Done." and clears it; otherwise nothing changes.
     */
    method UpdateCriticalErrorStatus(err: Option<Error>, random: int, createErr: Option<Error>)
      requires 0 <= random <= Strconv.MaxInt64
      requires criticalErrorStatus != null ==> criticalErrorStatus.tracker == progress
      modifies this`criticalErrorStatus, progress
      ensures criticalErrorStatus != null ==> criticalErrorStatus.tracker == progress
      ensures criticalErrorStatus != null <==> ErrorStatusMessage(err) != ""
      ensures Progress.Extends(progress.reports, old(progress.reports))
      ensures progress.supportsWorkDoneProgress == old(progress.supportsWorkDoneProgress)
      ensures var msg := ErrorStatusMessage(err);
        (old(criticalErrorStatus) == null) == (msg == "") ==>
        criticalErrorStatus == old(criticalErrorStatus)
        && progress.reports == old(progress.reports) && progress.inProgress == old(progress.inProgress)
      ensures var msg := ErrorStatusMessage(err);
        old(criticalErrorStatus) == null && msg != "" ==>
        var s := criticalErrorStatus;
        && fresh(s) && !s.cancellable
        && progress.reports == old(progress.reports)
             + Progress.StartReports(progress.supportsWorkDoneProgress, ErrorStatusTitle, msg, None, false, random, createErr)
        && progress.inProgress == if s.cleanup.Some? then old(progress.inProgress)[s.cleanup.value := s] else old(progress.inProgress)
      ensures var msg := ErrorStatusMessage(err);
        old(criticalErrorStatus) != null && msg == "" ==>
        var s := old(criticalErrorStatus);
        && progress.reports == old(progress.reports) + Progress.EndReports(s.err, s.token, "Done.")
        && progress.inProgress == if s.cleanup.Some? then old(progress.inProgress) - {s.cleanup.value} else old(progress.inProgress)
    {
      var msg := ErrorStatusMessage(err);
      if criticalErrorStatus == null {
        if msg != "" {
          criticalErrorStatus := progress.Start(ErrorStatusTitle, msg, None, false, random, createErr);
        }
        return;
      }
      if msg == "" {
        Progress.EndWork(criticalErrorStatus, "Done.");
        criticalErrorStatus := null;
      }
    }

    /**
     * Shutdown: once per server, the state becomes ShutDown, the view (if there is one)
     * is shut down and dropped, and the parser is closed; a later Shutdown changes
     * nothing. Unlike the code as written, a missing view is skipped.
     */
    method Shutdown() returns (blocked: bool)
      requires view != null && view.snapshot != null ==> view.snapshot.refcount > 0
      modifies this`state, this`view, this`napperClosed, view,
        (if view != null && view.snapshot != null then {view.snapshot} else {})
      ensures blocked == old(stateLocked)
      ensures old(stateLocked) || old(state) == ShutDown ==>
        state == old(state) && view == old(view) && napperClosed == old(napperClosed)
        && (old(view) != null ==> old(view).snapshot == old(view.snapshot))
      ensures !old(stateLocked) && old(state) != ShutDown ==>
        && state == ShutDown && view == null && napperClosed
        && (old(view) != null ==>
              && old(view).snapshot == null && old(view).initLoadCancelled
              && (old(view.snapshot) != null ==>
                    old(view.snapshot).cancelled && old(view.snapshot).refcount == old(view.snapshot.refcount) - 1))
    {
      if stateLocked {
        return true;
      }
      blocked := false;
      if state != ShutDown {
        state := ShutDown;
        if view != null {
          view.Shutdown();
        }
        view := null;
        napperClosed := true;
      }
    }

    /**
     * Shutdown as written: the view is shut down unconditionally, so a first Shutdown
     * while the server has no view panics (after setting the state).
     */
    method ShutdownAsWritten() returns (r: Option<bool>)
      requires view != null && view.snapshot != null ==> view.snapshot.refcount > 0
      modifies this`state, this`view, this`napperClosed, view,
        (if view != null && view.snapshot != null then {view.snapshot} else {})
      ensures old(stateLocked) <==> r.None?
      ensures r == Some(true) <==> !old(stateLocked) && old(state) != ShutDown && old(view) == null
      ensures r == Some(true) ==> state == ShutDown && napperClosed == old(napperClosed)
      ensures r == Some(false) && old(state) != ShutDown ==> state == ShutDown && view == null && napperClosed
    {
      if stateLocked {
        return None;
      }
      if state != ShutDown {
        state := ShutDown;
        if view == null {
          return Some(true);
        }
        view.Shutdown();
        view := null;
        napperClosed := true;
      }
      r := Some(false);
    }

    /** Exit: the process exits with status 1 (Some(1)) unless the server was shut down
        first, in which case the handler returns (None). */
    method Exit() returns (r: Option<Option<int>>)
      ensures stateLocked <==> r.None?
      ensures !stateLocked ==> (r.value.Some? <==> state != ShutDown) && (r.value.Some? ==> r.value.value == 1)
    {
      if stateLocked {
        return None;
      }
      if state != ShutDown {
        return Some(Some(1));
      }
      r := Some(None);
    }

    /** didModifyFiles' first loop: every modified URI is collected in order and marked
        with mustPublishDiagnostics. */
    method MustPublishAll(mods: seq<File.Modification>) returns (changes: seq<string>)
      modifies diagnostics`entries
      ensures changes == TextDocument.ChangedUris(mods)
      ensures diagnostics.entries == Marked(old(diagnostics.entries), TextDocument.Uris(mods))
    {
      assert TextDocument.Uris(mods[..0]) == {};
      assert Marked(diagnostics.entries, {}) == diagnostics.entries;
      changes := [];
      for i := 0 to |mods|
        invariant changes == TextDocument.ChangedUris(mods[..i])
        invariant diagnostics.entries == Marked(old(diagnostics.entries), TextDocument.Uris(mods[..i]))
      {
        MarkedStep(old(diagnostics.entries), TextDocument.Uris(mods[..i]), mods[i].uri);
        TextDocument.UrisStep(mods, i);
        changes := changes + [mods[i].uri];
        diagnostics.MustPublish(mods[i].uri);
      }
      assert mods[..|mods|] == mods;
    }

    /**
     * updateViewsToDiagnose: cancels the previous diagnosis, if any, and opens a new
     * scope for the next one with the next modification number, wrapping as a uint64.
     */
    method UpdateViewsToDiagnose() returns (scope: Scope, modID: Strconv.Uint64)
      modifies this`cancelPrevDiagnostics, this`lastModificationID, cancelPrevDiagnostics
      ensures old(cancelPrevDiagnostics) != null ==> old(cancelPrevDiagnostics).cancelled
      ensures fresh(scope) && !scope.cancelled && cancelPrevDiagnostics == scope
      ensures lastModificationID == Strconv.IncUint64(old(lastModificationID)) && modID == lastModificationID
    {
      if cancelPrevDiagnostics != null {
        cancelPrevDiagnostics.Cancel();
      }
      scope := new Scope();
      cancelPrevDiagnostics := scope;
      lastModificationID := Strconv.IncUint64(lastModificationID);
      modID := lastModificationID;
    }

    /**
     * didModifyFiles: every modified file is marked for publishing; the view is
     * invalidated with the files read from disk (the panic of invalidateViewLocked ends
     * it, with the files marked), its new snapshot's extra reference is released, and a
     * new diagnosis scope is opened. The pending diagnosis holds what the goroutine
     * running diagnoseChangedView (DiagnoseChangedView) is given: the scope, its number,
     * the modified URIs and the cause.
     */
    method DidModifyFiles(mods: seq<File.Modification>, cause: TextDocument.ModificationSource,
                          disk: string -> Result<string, Error>, workspace: Result<Snapshots.Runner, Error>)
      returns (pending: Option<PendingDiagnosis>, blocked: bool, panicked: Option<InvalidatePanic>)
      requires view != null && view.snapshot != null ==> view.snapshot.refcount > 0
      modifies diagnostics`entries, view, (if view != null && view.snapshot != null then {view.snapshot} else {}),
        (if view != null && view.snapshot != null then {view.snapshot.load} else {}),
        this`cancelPrevDiagnostics, this`lastModificationID, cancelPrevDiagnostics
      ensures diagnostics.entries == Marked(old(diagnostics.entries), TextDocument.Uris(mods))
      ensures pending.None? ==>
        lastModificationID == old(lastModificationID) && cancelPrevDiagnostics == old(cancelPrevDiagnostics)
      ensures old(view) == null <==> panicked == Some(NilView)
      ensures old(view) != null && old(view.snapshot) == null <==> panicked == Some(NoSnapshot)
      ensures panicked.Some? ==> !blocked
      ensures pending.Some? <==> panicked.None? && !blocked
      ensures pending.Some? ==> pending.value.cause == cause && pending.value.changes == TextDocument.ChangedUris(mods)
      ensures old(view) != null && old(view.snapshot) != null ==>
        var prev := old(view.snapshot);
        && prev.cancelled == (old(prev.cancelled) || TextDocument.IsSave(mods))
        && blocked == !old(prev.load.closed)
        && (blocked ==> view.snapshot == prev)
        && (!blocked ==>
              var next := view.snapshot;
              && next != null && fresh(next) && next.refcount == 1 && next.initialized
              && next.sequenceID == Strconv.IncUint64(old(prev.sequenceID))
              && next.files == Snapshots.ClonedFiles(old(prev.files), TextDocument.ChangedFiles(mods, disk))
              && prev.refcount == old(prev.refcount) - 1
              && pending.Some? && var scope := pending.value.scope;
              && fresh(scope) && !scope.cancelled && cancelPrevDiagnostics == scope
              && (old(cancelPrevDiagnostics) != null ==> old(cancelPrevDiagnostics).cancelled)
              && lastModificationID == Strconv.IncUint64(old(lastModificationID)) && pending.value.modID == lastModificationID)
    {
      var changes := MustPublishAll(mods);
      var changed := ReadChanged(mods, disk);
      var snapshot;
      snapshot, blocked, panicked := InvalidateViewLocked(mods, changed, workspace);
      if snapshot == null {
        return None, blocked, panicked;
      }
      snapshot.Decref();
      var scope, modID := UpdateViewsToDiagnose();
      pending := Some(PendingDiagnosis(scope, modID, changes, cause));
    }

    /** didOpen: the document is marked for publishing and, once the view is invalidated,
        the new snapshot holds it as read from disk; nothing is cancelled, and the
        pending diagnosis has the cause FromDidOpen. */
    method DidOpen(p: TextDocument.DidOpenParams, disk: string -> Result<string, Error>,
                   workspace: Result<Snapshots.Runner, Error>)
      returns (pending: Option<PendingDiagnosis>, blocked: bool, panicked: Option<InvalidatePanic>)
      requires view != null && view.snapshot != null ==> view.snapshot.refcount > 0
      modifies diagnostics`entries, view, (if view != null && view.snapshot != null then {view.snapshot} else {}),
        (if view != null && view.snapshot != null then {view.snapshot.load} else {}),
        this`cancelPrevDiagnostics, this`lastModificationID, cancelPrevDiagnostics
      ensures var u := p.textDocument.uri;
        diagnostics.entries == Marked(old(diagnostics.entries), {u})
      ensures old(view) == null <==> panicked == Some(NilView)
      ensures pending.Some? <==> panicked.None? && !blocked
      ensures pending.Some? ==>
        && pending.value.cause == TextDocument.FromDidOpen && pending.value.changes == [p.textDocument.uri]
        && fresh(pending.value.scope) && !pending.value.scope.cancelled
        && view.snapshot != null && fresh(view.snapshot) && view.snapshot.refcount == 1
      ensures old(view) != null && old(view.snapshot) != null ==>
        var prev := old(view.snapshot);
        var u := p.textDocument.uri;
        && prev.cancelled == old(prev.cancelled)
        && (pending.Some? ==>
              view.snapshot != null && view.snapshot.files == Snapshots.ClonedFiles(old(prev.files), map[u := File.Handle(u, 0, disk(u))]))
    {
      var mods := TextDocument.DidOpenModifications(p);
      TextDocument.DidOpenChange(p);
      assert TextDocument.ChangedFiles(mods, disk) == map[p.textDocument.uri := File.Handle(p.textDocument.uri, 0, disk(p.textDocument.uri))];
      pending, blocked, panicked := DidModifyFiles(mods, TextDocument.FromDidOpen, disk, workspace);
    }

    /** didSave: the document is marked for publishing, the previous snapshot is
        cancelled and, once the view is invalidated, the new snapshot holds the document
        as read from disk; the pending diagnosis has the cause FromDidSave. */
    method DidSave(p: TextDocument.DidSaveParams, disk: string -> Result<string, Error>,
                   workspace: Result<Snapshots.Runner, Error>)
      returns (pending: Option<PendingDiagnosis>, blocked: bool, panicked: Option<InvalidatePanic>)
      requires view != null && view.snapshot != null ==> view.snapshot.refcount > 0
      modifies diagnostics`entries, view, (if view != null && view.snapshot != null then {view.snapshot} else {}),
        (if view != null && view.snapshot != null then {view.snapshot.load} else {}),
        this`cancelPrevDiagnostics, this`lastModificationID, cancelPrevDiagnostics
      ensures diagnostics.entries == Marked(old(diagnostics.entries), {p.uri})
      ensures old(view) == null <==> panicked == Some(NilView)
      ensures pending.Some? <==> panicked.None? && !blocked
      ensures pending.Some? ==>
        && pending.value.cause == TextDocument.FromDidSave && pending.value.changes == [p.uri]
        && fresh(pending.value.scope) && !pending.value.scope.cancelled
        && view.snapshot != null && fresh(view.snapshot) && view.snapshot.refcount == 1
      ensures old(view) != null && old(view.snapshot) != null ==>
        var prev := old(view.snapshot);
        && prev.cancelled
        && (pending.Some? ==>
              view.snapshot != null && view.snapshot.files == Snapshots.ClonedFiles(old(prev.files), map[p.uri := File.Handle(p.uri, 0, disk(p.uri))]))
    {
      var mods := TextDocument.DidSaveModifications(p);
      TextDocument.DidSaveChange(p);
      assert TextDocument.ChangedFiles(mods, disk) == map[p.uri := File.Handle(p.uri, 0, disk(p.uri))];
      pending, blocked, panicked := DidModifyFiles(mods, TextDocument.FromDidSave, disk, workspace);
    }

    /**
     * diagnose: a cancelled context fails at once. Otherwise the critical-error status
     * follows the snapshot's initialization error; without a runner it fails with "no
     * runner"; a failed run updates the status with its error and fails with it; a
     * run's resources are grouped into diagnostics by file.
     */
    method Diagnose(cancelled: bool, snapshot: Snapshots.Snapshot, run: Result<map<string, PulumiRun.Info>, Error>,
                    order: seq<string>, captures: Diagnostics.CaptureSource, random: int, createErr: Option<Error>)
      returns (r: Result<Diagnostics.Grouping, Error>)
      requires run.Ok? ==> Diagnostics.Enumerates(order, run.value)
      requires 0 <= random <= Strconv.MaxInt64
      requires criticalErrorStatus != null ==> criticalErrorStatus.tracker == progress
      modifies this`criticalErrorStatus, progress
      ensures criticalErrorStatus != null ==> criticalErrorStatus.tracker == progress
      ensures progress.supportsWorkDoneProgress == old(progress.supportsWorkDoneProgress)
      ensures Progress.Extends(progress.reports, old(progress.reports))
      ensures cancelled ==>
        r == Err(Canceled) && criticalErrorStatus == old(criticalErrorStatus) && progress.reports == old(progress.reports)
      ensures !cancelled && snapshot.runner.None? ==> r == Err(NoRunnerError)
      ensures !cancelled && snapshot.runner.Some? && run.Err? ==> r == Err(run.error)
      ensures !cancelled && snapshot.runner.Some? && run.Ok? ==> r == Ok(Diagnostics.Group(run.value, order, captures))
      ensures !cancelled ==>
        var last := if snapshot.runner.Some? && run.Err? then Some(run.error) else snapshot.initialErr;
        (criticalErrorStatus != null <==> ErrorStatusMessage(last) != "")
    {
      if cancelled {
        return Err(Canceled);
      }
      UpdateCriticalErrorStatus(snapshot.initialErr, random, createErr);
      if snapshot.runner.None? {
        return Err(NoRunnerError);
      }
      if run.Err? {
        UpdateCriticalErrorStatus(Some(run.error), random, createErr);
        return Err(run.error);
      }
      var g := Diagnostics.DiagnoseResources(run.value, order, captures);
      r := Ok(g);
    }

    /**
     * diagnoseSnapshot: diagnose, then, when that gives diagnostics by file, update and
     * publish them. A failure is only logged; a panic while grouping ends the process.
     */
    method DiagnoseSnapshot(cancelled: bool, snapshot: Snapshots.Snapshot, run: Result<map<string, PulumiRun.Info>, Error>,
                            order: seq<string>, captures: Diagnostics.CaptureSource, disk: string -> Result<string, Error>,
                            random: int, createErr: Option<Error>)
      returns (r: Result<Diagnostics.Grouping, Error>)
      requires run.Ok? ==> Diagnostics.Enumerates(order, run.value)
      requires 0 <= random <= Strconv.MaxInt64
      requires criticalErrorStatus != null ==> criticalErrorStatus.tracker == progress
      modifies this`criticalErrorStatus, progress, diagnostics`entries, diagnostics`published, snapshot`files
      ensures criticalErrorStatus != null ==> criticalErrorStatus.tracker == progress
      ensures progress.supportsWorkDoneProgress == old(progress.supportsWorkDoneProgress)
      ensures Progress.Extends(progress.reports, old(progress.reports))
      ensures r.Err? <==> cancelled || snapshot.runner.None? || run.Err?
      ensures r.Ok? ==> r.value == Diagnostics.Group(run.value, order, captures)
      ensures !(r.Ok? && r.value.Grouped?) ==>
        diagnostics.entries == old(diagnostics.entries) && diagnostics.published == old(diagnostics.published)
      ensures r.Ok? && r.value.Grouped? ==>
        var result := r.value.byUri;
        && diagnostics.entries.Keys == old(diagnostics.entries).Keys + result.Keys
        && (forall u :: u in diagnostics.entries ==>
              diagnostics.entries[u] == Publishing.Updated(old(diagnostics.entries), u,
                Publishing.Look(old(snapshot.files), DiskRead(disk), u), snapshot.sequenceID, Publishing.DiagnosticsFor(result, u)))
        && (forall u :: u in diagnostics.entries ==>
              exists i :: |old(diagnostics.published)| <= i < |diagnostics.published| && diagnostics.published[i].uri == u)
    {
      r := Diagnose(cancelled, snapshot, run, order, captures, random, createErr);
      if r.Ok? && r.value.Grouped? {
        diagnostics.Update(cancelled, snapshot, r.value.byUri, DiskRead(disk));
      }
    }

    /**
     * diagnoseChangedView: takes a reference to the view's snapshot (nothing if the
     * view is shut down) and gives it back at the end. Only a save is diagnosed,
     * between a "Running preview..." progress and its "Done.".
     */
    method DiagnoseChangedView(cancelled: bool, cause: TextDocument.ModificationSource,
                               run: Result<map<string, PulumiRun.Info>, Error>, order: seq<string>,
                               captures: Diagnostics.CaptureSource, disk: string -> Result<string, Error>,
                               random: int, createErr: Option<Error>, workRandom: int, workCreateErr: Option<Error>)
      returns (r: Option<Result<Diagnostics.Grouping, Error>>)
      requires view != null && (view.snapshot != null ==> view.snapshot.refcount > 0)
      requires run.Ok? ==> Diagnostics.Enumerates(order, run.value)
      requires 0 <= random <= Strconv.MaxInt64 && 0 <= workRandom <= Strconv.MaxInt64
      requires criticalErrorStatus != null ==> criticalErrorStatus.tracker == progress
      modifies view.snapshot, this`criticalErrorStatus, progress, diagnostics`entries, diagnostics`published
      ensures view.snapshot != null ==>
        view.snapshot.refcount == old(view.snapshot.refcount) && view.snapshot.doneCalls == old(view.snapshot.doneCalls)
      ensures r.Some? <==> view.snapshot != null && cause == TextDocument.FromDidSave
      ensures r.None? ==>
        && diagnostics.entries == old(diagnostics.entries) && diagnostics.published == old(diagnostics.published)
        && progress.reports == old(progress.reports)
      ensures r.Some? ==>
        && (r.value.Err? <==> cancelled || view.snapshot.runner.None? || run.Err?)
        && (r.value.Ok? ==> r.value.value == Diagnostics.Group(run.value, order, captures))
        && |progress.reports| > |old(progress.reports)|
        && progress.reports[|old(progress.reports)|] ==
             Progress.StartReports(old(progress.supportsWorkDoneProgress), "Pulumi", "Running preview...", None, false,
                                   workRandom, workCreateErr)[0]
    {
      var s, err := view.Snapshot();
      if err.Some? {
        return None;
      }
      if cause != TextDocument.FromDidSave {
        s.Decref();
        return None;
      }
      var d := DiagnoseSaved(cancelled, s, run, order, captures, disk, random, createErr, workRandom, workCreateErr);
      s.Decref();
      r := Some(d);
    }

    /** The part of diagnoseChangedView after a save: the diagnosis inside its progress report. */
    method DiagnoseSaved(cancelled: bool, s: Snapshots.Snapshot, run: Result<map<string, PulumiRun.Info>, Error>,
                         order: seq<string>, captures: Diagnostics.CaptureSource, disk: string -> Result<string, Error>,
                         random: int, createErr: Option<Error>, workRandom: int, workCreateErr: Option<Error>)
      returns (d: Result<Diagnostics.Grouping, Error>)
      requires run.Ok? ==> Diagnostics.Enumerates(order, run.value)
      requires 0 <= random <= Strconv.MaxInt64 && 0 <= workRandom <= Strconv.MaxInt64
      requires criticalErrorStatus != null ==> criticalErrorStatus.tracker == progress
      modifies this`criticalErrorStatus, progress, diagnostics`entries, diagnostics`published, s`files
      ensures d.Err? <==> cancelled || s.runner.None? || run.Err?
      ensures d.Ok? ==> d.value == Diagnostics.Group(run.value, order, captures)
      ensures |progress.reports| > |old(progress.reports)|
      ensures progress.reports[|old(progress.reports)|] ==
        Progress.StartReports(old(progress.supportsWorkDoneProgress), "Pulumi", "Running preview...", None, false,
                              workRandom, workCreateErr)[0]
    {
      var work := progress.Start("Pulumi", "Running preview...", None, false, workRandom, workCreateErr);
      ghost var started := progress.reports;
      d := DiagnoseSnapshot(cancelled, s, run, order, captures, disk, random, createErr);
      assert progress.reports[|old(progress.reports)|] == started[|old(progress.reports)|];
      Progress.EndWork(work, "Done.");
    }

    /**
     * A didOpen followed by the diagnosis its goroutine runs, before anything else
     * happens: the cause is FromDidOpen, so no analysis pass runs, nothing is published
     * and no progress is reported.
     */
    method DidOpenThenDiagnose(p: TextDocument.DidOpenParams, disk: string -> Result<string, Error>,
                               workspace: Result<Snapshots.Runner, Error>,
                               run: Result<map<string, PulumiRun.Info>, Error>, order: seq<string>,
                               captures: Diagnostics.CaptureSource, random: int, createErr: Option<Error>,
                               workRandom: int, workCreateErr: Option<Error>)
      returns (pending: Option<PendingDiagnosis>, r: Option<Result<Diagnostics.Grouping, Error>>)
      requires view != null && view.snapshot != null ==> view.snapshot.refcount > 0
      requires run.Ok? ==> Diagnostics.Enumerates(order, run.value)
      requires 0 <= random <= Strconv.MaxInt64 && 0 <= workRandom <= Strconv.MaxInt64
      requires criticalErrorStatus != null ==> criticalErrorStatus.tracker == progress
      modifies diagnostics`entries, diagnostics`published, view,
        (if view != null && view.snapshot != null then {view.snapshot} else {}),
        (if view != null && view.snapshot != null then {view.snapshot.load} else {}),
        this`cancelPrevDiagnostics, this`lastModificationID, cancelPrevDiagnostics, this`criticalErrorStatus, progress
      ensures pending.Some? ==> pending.value.cause == TextDocument.FromDidOpen
      ensures r.None?
      ensures diagnostics.published == old(diagnostics.published) && progress.reports == old(progress.reports)
    {
      var blocked, panicked;
      pending, blocked, panicked := DidOpen(p, disk, workspace);
      if pending.None? {
        return pending, None;
      }
      r := DiagnoseChangedView(pending.value.scope.cancelled, pending.value.cause, run, order, captures, disk,
                               random, createErr, workRandom, workCreateErr);
    }

    /**
     * A didSave followed by the diagnosis its goroutine runs, before anything else
     * happens: the cause is FromDidSave, so whenever the save reached the view the
     * analysis runs, under a "Running preview..." progress report.
     */
    method DidSaveThenDiagnose(p: TextDocument.DidSaveParams, disk: string -> Result<string, Error>,
                               workspace: Result<Snapshots.Runner, Error>,
                               run: Result<map<string, PulumiRun.Info>, Error>, order: seq<string>,
                               captures: Diagnostics.CaptureSource, random: int, createErr: Option<Error>,
                               workRandom: int, workCreateErr: Option<Error>)
      returns (pending: Option<PendingDiagnosis>, r: Option<Result<Diagnostics.Grouping, Error>>)
      requires view != null && view.snapshot != null ==> view.snapshot.refcount > 0
      requires run.Ok? ==> Diagnostics.Enumerates(order, run.value)
      requires 0 <= random <= Strconv.MaxInt64 && 0 <= workRandom <= Strconv.MaxInt64
      requires criticalErrorStatus != null ==> criticalErrorStatus.tracker == progress
      modifies diagnostics`entries, diagnostics`published, view,
        (if view != null && view.snapshot != null then {view.snapshot} else {}),
        (if view != null && view.snapshot != null then {view.snapshot.load} else {}),
        this`cancelPrevDiagnostics, this`lastModificationID, cancelPrevDiagnostics, this`criticalErrorStatus, progress
      ensures pending.Some? ==> pending.value.cause == TextDocument.FromDidSave
      ensures r.Some? <==> pending.Some?
      ensures r.Some? ==>
        && view != null && view.snapshot != null
        && (r.value.Err? <==> view.snapshot.runner.None? || run.Err?)
        && (r.value.Ok? ==> r.value.value == Diagnostics.Group(run.value, order, captures))
        && |progress.reports| > |old(progress.reports)|
    {
      var blocked, panicked;
      pending, blocked, panicked := DidSave(p, disk, workspace);
      if pending.None? {
        return pending, None;
      }
      r := DiagnoseChangedView(pending.value.scope.cancelled, pending.value.cause, run, order, captures, disk,
                               random, createErr, workRandom, workCreateErr);
    }

    /**
     * ResolveCodeAction: the checks come first and report nothing; then the fixer is
     * asked between a Start and an End of a progress report without a token, whose
     * registration, if it made one, is removed again.
     */
    method ResolveCodeAction(action: CodeActions.CodeAction, copilot: (string, string) -> Result<string, Error>,
                             openai: (string, string) -> Result<string, Error>, random: int, createErr: Option<Error>)
      returns (r: CodeActions.Resolution)
      requires 0 <= random <= Strconv.MaxInt64
      modifies progress
      ensures r == CodeActions.Resolve(action, copilot, openai)
      ensures progress.supportsWorkDoneProgress == old(progress.supportsWorkDoneProgress)
      ensures CodeActions.Checked(action).Err? ==>
        progress.reports == old(progress.reports) && progress.inProgress == old(progress.inProgress)
      ensures CodeActions.Checked(action).Ok? ==>
        var supported := progress.supportsWorkDoneProgress;
        var token := Progress.StartedToken(supported, None, random, createErr);
        && progress.reports == old(progress.reports)
             + Progress.StartReports(supported, "Pulumi", "Fixing with Copilot...", None, false, random, createErr)
             + Progress.EndReports(Progress.StartedErr(supported, None, createErr), token, "Done.")
        && progress.inProgress == if token.Some? then old(progress.inProgress) - {token.value} else old(progress.inProgress)
    {
      var checked := CodeActions.Checked(action);
      if checked.Err? {
        return checked.error;
      }
      var (data, diagnostic) := checked.value;
      var work := progress.Start("Pulumi", "Fixing with Copilot...", None, false, random, createErr);
      var fix := CodeActions.Fix(action.title, data, diagnostic, copilot, openai);
      Progress.EndWork(work, "Done.");
      r := CodeActions.Finish(action, data, fix);
    }
  }

  /** A server shut down before any view exists panics as written, and shuts down
      cleanly once corrected. */
  method ShutdownBeforeViewPanics() returns (asWritten: Option<bool>, corrected: bool)
    ensures asWritten == Some(true)
    ensures !corrected
  {
    var s := new Server();
    asWritten := s.ShutdownAsWritten();
    var t := new Server();
    corrected := t.Shutdown();
  }

  /** A didSave that reaches the server after its shutdown panics on the missing view,
      whether or not a view had been made. */
  method SaveAfterShutdownPanics(root: string, p: TextDocument.DidSaveParams, disk: string -> Result<string, Error>,
                                 workspace: Result<Snapshots.Runner, Error>)
    returns (withView: Option<InvalidatePanic>, withoutView: Option<InvalidatePanic>)
    requires LspServer.Path(root).Some?
    ensures withView == Some(NilView) && withoutView == Some(NilView)
  {
    var s := new Server();
    var _, _ := s.NewView(root);
    var _ := s.Shutdown();
    var _, _, pk := s.DidSave(p, disk, workspace);
    withView := pk;
    var t := new Server();
    var _ := t.Shutdown();
    var _, _, pk' := t.DidSave(p, disk, workspace);
    withoutView := pk';
  }

  /** After an initialize whose options do not decode, the initialized notification
      that follows waits for good as written, and is accepted once corrected. */
  method BadOptionsLockServer() returns (asWritten: Option<Option<Error>>, corrected: Option<Option<Error>>)
    ensures asWritten.None?
    ensures corrected == Some(None)
  {
    var params := Initialization.InitializeParams("file:///workspace", Some(Json.JNumber("1")), false);
    var s := new Server();
    var _ := s.InitializeAsWritten(params);
    asWritten := s.InitializedNotification();
    var t := new Server();
    var _ := t.Initialize(params);
    corrected := t.InitializedNotification();
  }

  /** A server that is shut down exits cleanly; one that is not exits with status 1. */
  method ShutdownThenExit() returns (before: Option<Option<int>>, after: Option<Option<int>>)
    ensures before == Some(Some(1))
    ensures after == Some(None)
  {
    var s := new Server();
    before := s.Exit();
    var _ := s.Shutdown();
    after := s.Exit();
  }
}
