/**
 * Snapshots of the workspace (server/snapshot.go): reference counting with a done
 * callback at zero, copy-on-write file maps, the per-snapshot cache of file reads, and
 * at-most-once initialization.
 *
 * The Pulumi workspace set-up of initializeWorkspace is a parameter: the runner it
 * creates, or the error it returns. The view's initialWorkspaceLoad channel is a Latch
 * shared by the view and its snapshots; the initialization semaphore is left out, as
 * the model runs one call at a time.
 */
module Snapshots {
  import opened Wrappers
  import opened Json
  import opened Errors
  import opened File
  import Strconv

  /** A channel that is only ever closed: receiving from it blocks until it is. */
  class Latch {
    var closed: bool

    constructor()
      ensures !closed
    {
      closed := false;
    }

    /** close(ch): closing a closed channel panics. */
    method Close()
      requires !closed
      modifies this
      ensures closed
    {
      closed := true;
    }
  }

  /** The preview runner for one Pulumi stack. */
  datatype Runner = Runner(stack: string)

  /** fileExists: the handle has content, which may be empty. */
  predicate FileExists(h: Handle)
  {
    h.content.Ok?
  }

  /**
   * The file map that fileMap.clone builds: every changed URI whose new handle has no
   * content is gone, every other changed URI maps to its new handle, and every
   * unchanged URI keeps its old handle.
   */
  function ClonedFiles(m: map<string, Handle>, changes: map<string, Handle>): (r: map<string, Handle>)
    ensures forall u :: u in changes && !FileExists(changes[u]) ==> u !in r
    ensures forall u :: u in changes && FileExists(changes[u]) ==> u in r && r[u] == changes[u]
    ensures forall u :: u !in changes ==> (u in r <==> u in m)
    ensures forall u :: u !in changes && u in m ==> r[u] == m[u]
  {
    (m - set u | u in changes && !FileExists(changes[u])) + map u | u in changes && FileExists(changes[u]) :: changes[u]
  }

  /** fileMap.clone: copy m, delete the changed URIs without content, then insert the
      changed URIs with content. The first loop to finish decides nothing, as the two
      loops touch disjoint URIs. */
  method CloneFiles(m: map<string, Handle>, changes: map<string, Handle>) returns (m2: map<string, Handle>)
    ensures m2 == ClonedFiles(m, changes)
  {
    m2 := m;
    var todo := changes.Keys;
    while todo != {}
      invariant todo <= changes.Keys
      invariant forall u :: u in m2 <==> u in m && !(u in changes && u !in todo && !FileExists(changes[u]))
      invariant forall u :: u in m2 ==> m2[u] == m[u]
      decreases todo
    {
      var u :| u in todo;
      if !FileExists(changes[u]) {
        m2 := m2 - {u};
      }
      todo := todo - {u};
    }
    todo := changes.Keys;
    while todo != {}
      invariant todo <= changes.Keys
      invariant forall u :: u in m2 <==>
        if u in changes && u !in todo then FileExists(changes[u]) else u in m && !(u in changes && !FileExists(changes[u]))
      invariant forall u :: u in m2 ==> m2[u] == if u in changes && u !in todo then changes[u] else m[u]
      decreases todo
    {
      var u :| u in todo;
      if FileExists(changes[u]) {
        m2 := m2[u := changes[u]];
      }
      todo := todo - {u};
    }
    var r := ClonedFiles(m, changes);
    assert forall u :: u in m2 <==> u in r;
    assert forall u :: u in m2 ==> m2[u] == r[u];
  }

  /** The reference count of a snapshot and how often its done callback has run. */
  datatype Refs = Refs(count: int, doneCalls: nat)

  datatype RefOp = AcquireRef | ReleaseRef

  /** Acquire and decref on the counts, None once an assertion on a non-positive count fails. */
  function ApplyRef(r: Refs, op: RefOp): Option<Refs>
  {
    if r.count <= 0 then None
    else match op
      case AcquireRef => Some(Refs(r.count + 1, r.doneCalls))
      case ReleaseRef => Some(Refs(r.count - 1, r.doneCalls + if r.count == 1 then 1 else 0))
  }

  function ApplyRefs(r: Refs, ops: seq<RefOp>): Option<Refs>
    decreases |ops|
  {
    if ops == [] then Some(r)
    else match ApplyRef(r, ops[0])
      case None => None
      case Some(r') => ApplyRefs(r', ops[1..])
  }

  function Count(ops: seq<RefOp>, op: RefOp): nat
  {
    if ops == [] then 0 else (if ops[0] == op then 1 else 0) + Count(ops[1..], op)
  }

  /**
   * Over any run of Acquires and releases that never trips the assertion, the count
   * moves by one per operation, and done runs exactly once if the count ends at zero
   * and never otherwise.
   */
  lemma {:induction false} RefsRun(r: Refs, ops: seq<RefOp>)
    requires r.count > 0
    requires ApplyRefs(r, ops).Some?
    decreases |ops|
    ensures var f := ApplyRefs(r, ops).value;
      f.count == r.count + Count(ops, AcquireRef) - Count(ops, ReleaseRef)
      && f.count >= 0
      && f.doneCalls == r.doneCalls + (if f.count == 0 then 1 else 0)
  {
    if ops != [] {
      var r' := ApplyRef(r, ops[0]).value;
      if r'.count > 0 {
        RefsRun(r', ops[1..]);
      }
    }
  }

  function Pairs(n: nat): seq<RefOp>
  {
    if n == 0 then [] else [AcquireRef, ReleaseRef] + Pairs(n - 1)
  }

  /** n Acquire/release pairs from a count of at least one leave the count as it was and
      never run done. */
  lemma {:induction false} PairsBalance(r: Refs, n: nat)
    requires r.count >= 1
    ensures ApplyRefs(r, Pairs(n)) == Some(r)
  {
    if n > 0 {
      var ops := Pairs(n);
      assert ops[0] == AcquireRef && ops[1..][0] == ReleaseRef && ops[1..][1..] == Pairs(n - 1);
      PairsBalance(r, n - 1);
    }
  }

  class Snapshot {
    var files: map<string, Handle>
    var sequenceID: Strconv.Uint64
    /** Whether the snapshot's background context has been cancelled. */
    var cancelled: bool
    const load: Latch
    const root: string
    var initialized: bool
    /** The MainError of initialErr. */
    var initialErr: Option<Error>
    var runner: Option<Runner>
    var refcount: int
    var doneCalls: nat
    var policyDiagnostics: map<string, Json>

    function Refcounts(): Refs
      reads this
    {
      Refs(refcount, doneCalls)
    }

    /** The first snapshot of a view, as createView builds it: no files, refcount 1. */
    constructor(load: Latch, root: string)
      ensures this.load == load && this.root == root
      ensures files == map[] && sequenceID == 0 && !cancelled && !initialized
      ensures initialErr.None? && runner.None? && refcount == 1 && doneCalls == 0
      ensures policyDiagnostics == map[]
    {
      this.load := load;
      this.root := root;
      files := map[];
      sequenceID := 0;
      cancelled := false;
      initialized := false;
      initialErr := None;
      runner := None;
      refcount := 1;
      doneCalls := 0;
      policyDiagnostics := map[];
    }

    /** Acquire: asserts the count is positive and raises it by one. */
    method Acquire()
      requires refcount > 0
      modifies this`refcount
      ensures Some(Refcounts()) == ApplyRef(old(Refcounts()), AcquireRef)
      ensures refcount == old(refcount) + 1
    {
      refcount := refcount + 1;
    }

    /** decref: asserts the count is positive, lowers it by one, and calls done when it
        reaches zero. */
    method Decref()
      requires refcount > 0
      modifies this`refcount, this`doneCalls
      ensures Some(Refcounts()) == ApplyRef(old(Refcounts()), ReleaseRef)
      ensures refcount == old(refcount) - 1
      ensures doneCalls == old(doneCalls) + if refcount == 0 then 1 else 0
    {
      refcount := refcount - 1;
      if refcount == 0 {
        doneCalls := doneCalls + 1;
      }
    }

    method Cancel()
      modifies this`cancelled
      ensures cancelled
    {
      cancelled := true;
    }

    /**
     * initialize: nothing when the context is cancelled or the snapshot is already
     * initialized. Otherwise the workspace is set up only when there is no runner yet;
     * the snapshot ends initialized with initialErr set iff that set-up failed, and a
     * first attempt closes the view's initialWorkspaceLoad.
     */
    method Initialize(cancelled: bool, firstAttempt: bool, workspace: Result<Runner, Error>)
      requires !cancelled && !initialized && firstAttempt ==> !load.closed
      modifies this`initialized, this`initialErr, this`runner, load
      ensures cancelled || old(initialized) ==>
        initialized == old(initialized) && initialErr == old(initialErr) && runner == old(runner)
        && load.closed == old(load.closed)
      ensures !cancelled && !old(initialized) ==>
        initialized
        && (old(runner).Some? ==> runner == old(runner) && initialErr.None?)
        && (old(runner).None? && workspace.Ok? ==> runner == Some(workspace.value) && initialErr.None?)
        && (old(runner).None? && workspace.Err? ==> runner.None? && initialErr == Some(workspace.error))
        && load.closed == (old(load.closed) || firstAttempt)
    {
      if cancelled || initialized {
        return;
      }
      var err := None;
      if runner.None? {
        match workspace
        case Ok(w) => runner := Some(w);
        case Err(e) => err := Some(e);
      }
      initialized := true;
      initialErr := err;
      if firstAttempt {
        load.Close();
      }
    }

    /**
     * AwaitInitialized: returns at once when cancelled; otherwise waits for
     * initialWorkspaceLoad, which blocks for good (`blocked`) while the channel is open,
     * and then makes a non-first attempt at initialization.
     */
    method AwaitInitialized(cancelled: bool, workspace: Result<Runner, Error>) returns (blocked: bool)
      modifies this`initialized, this`initialErr, this`runner, load
      ensures blocked <==> !cancelled && !old(load.closed)
      ensures cancelled || blocked || old(initialized) ==>
        initialized == old(initialized) && initialErr == old(initialErr) && runner == old(runner)
      ensures load.closed == old(load.closed)
      ensures !blocked && !cancelled ==> initialized
      ensures !blocked && !cancelled && !old(initialized) ==>
        (old(runner).Some? ==> runner == old(runner) && initialErr.None?)
        && (old(runner).None? ==> initialErr == (if workspace.Err? then Some(workspace.error) else None))
    {
      if cancelled {
        return false;
      }
      if !load.closed {
        return true;
      }
      Initialize(false, false, workspace);
      blocked := false;
    }

    /**
     * ReadFile: the cached handle when present; otherwise the read, which on success is
     * cached in this snapshot. `read` is what reading the file from disk gives.
     */
    method ReadFile(uri: string, read: Result<Handle, Error>) returns (h: Result<Handle, Error>)
      modifies this`files
      ensures h == (if uri in old(files) then Ok(old(files)[uri]) else read)
      ensures files == if uri in old(files) || read.Err? then old(files) else old(files)[uri := read.value]
    {
      if uri in files {
        return Ok(files[uri]);
      }
      if read.Err? {
        return read;
      }
      files := files[uri := read.value];
      return read;
    }

    /**
     * Snapshot.clone: a snapshot with the next sequence number, a count of one, the same
     * runner, latch and initialized flag, the files cloned with the changes, and the
     * policy diagnostics overridden by the changed ones. The receiver is left alone.
     */
    method Clone(changedFiles: map<string, Handle>, changedDiagnostics: map<string, Json>) returns (r: Snapshot)
      ensures fresh(r)
      ensures r.sequenceID == Strconv.IncUint64(sequenceID)
      ensures r.refcount == 1 && r.doneCalls == 0 && !r.cancelled
      ensures r.runner == runner && r.load == load && r.root == root && r.initialized == initialized
      ensures r.initialErr.None?
      ensures r.files == ClonedFiles(files, changedFiles)
      ensures r.policyDiagnostics == policyDiagnostics + changedDiagnostics
    {
      r := new Snapshot(load, root);
      var m2 := CloneFiles(files, changedFiles);
      r.files := m2;
      r.sequenceID := Strconv.IncUint64(sequenceID);
      r.runner := runner;
      r.initialized := initialized;
      r.policyDiagnostics := policyDiagnostics + changedDiagnostics;
    }
  }
}
