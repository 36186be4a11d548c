/**
 * The view of one workspace root (server/view.go): it holds one reference to its
 * latest snapshot until shutdown, and hands out further references.
 */
module Views {
  import opened Wrappers
  import opened Errors
  import Snapshots

  const ViewShutdownError := Error(Plain, "view is shutdown")

  class View {
    const id: string
    const root: string
    const pulumiyaml: string
    /** initialWorkspaceLoad, shared with the view's snapshots. */
    const load: Snapshots.Latch
    /** The latest snapshot; null after shutdown. */
    var snapshot: Snapshots.Snapshot?
    /** Whether cancelInitialWorkspaceLoad has been called. */
    var initLoadCancelled: bool

    constructor(id: string, root: string, pulumiyaml: string, load: Snapshots.Latch)
      ensures this.id == id && this.root == root && this.pulumiyaml == pulumiyaml && this.load == load
      ensures snapshot == null && !initLoadCancelled
    {
      this.id := id;
      this.root := root;
      this.pulumiyaml := pulumiyaml;
      this.load := load;
      snapshot := null;
      initLoadCancelled := false;
    }

    /**
     * View.Snapshot: fails iff the view is shut down, handing out no reference then;
     * otherwise returns the current snapshot with its count raised by one.
     */
    method Snapshot() returns (s: Snapshots.Snapshot?, err: Option<Error>)
      requires snapshot != null ==> snapshot.refcount > 0
      modifies snapshot
      ensures snapshot == old(snapshot)
      ensures err.Some? <==> snapshot == null
      ensures err.Some? ==> s == null && err == Some(ViewShutdownError)
      ensures err.None? ==> s == snapshot && s.refcount == old(s.refcount) + 1
      ensures s != null ==> s.doneCalls == old(s.doneCalls) && s.files == old(s.files)
    {
      if snapshot == null {
        return null, Some(ViewShutdownError);
      }
      snapshot.Acquire();
      return snapshot, None;
    }

    /**
     * shutdown: cancels the initial workspace load; if a snapshot is held, cancels its
     * scope, drops the view's reference with one decref and forgets it. A second
     * shutdown therefore decrefs nothing.
     */
    method Shutdown()
      requires snapshot != null ==> snapshot.refcount > 0
      modifies this, snapshot
      ensures initLoadCancelled && snapshot == null
      ensures old(snapshot) != null ==>
        old(snapshot).cancelled
        && old(snapshot).refcount == old(snapshot.refcount) - 1
        && old(snapshot).doneCalls == old(snapshot.doneCalls) + (if old(snapshot.refcount) == 1 then 1 else 0)
    {
      initLoadCancelled := true;
      if snapshot != null {
        snapshot.Cancel();
        snapshot.Decref();
        snapshot := null;
      }
    }
  }
}
