/**
 * Work-done progress reporting (server/progress.go): a Tracker registers each unit of
 * work under its progress token and reports to the client through `$/progress`, or
 * through window/showMessage when the client has no progress support.
 *
 * What the client is sent is recorded in the tracker's `reports`; the client's answer
 * to window/workDoneProgress/create is a parameter, and so is the random number a
 * generated token is made of. Errors of the notifications are only logged, so they are
 * not modelled.
 */
module Progress {
  import opened Wrappers
  import opened Errors
  import Strconv

  /** ShowMessage types: 3 is Info and 4 is Log. */
  const MessageInfo := 3
  const MessageLog := 4

  /** A message the tracker sends to the client. */
  datatype Report =
    | ShowMessage(messageType: int, message: string)
    | CreateToken(token: string)
    | Begin(token: string, title: string, cancellable: bool, message: string)
    | End(token: string, message: string)

  /** fmt's %q of a string without characters that need escaping. */
  function Quote(s: string): string
  {
    "\"" + s + "\""
  }

  function TokenNotFound(token: string): Error
  {
    Error(Plain, "token " + Quote(token) + " not found in progress")
  }

  function NotCancellable(token: string): Error
  {
    Error(Plain, "work " + Quote(token) + " is not cancellable")
  }

  /** Whether the reports a are the reports b and then more. */
  predicate Extends(a: seq<Report>, b: seq<Report>)
  {
    |b| <= |a| && a[..|b|] == b
  }

  /** What Start sends: a Log message without progress support; otherwise a token
      creation when no token is given, and then a begin unless creating it failed. */
  function StartReports(supported: bool, title: string, message: string, token: Option<string>,
                        cancellable: bool, random: int, createErr: Option<Error>): seq<Report>
  {
    if !supported then [ShowMessage(MessageLog, message)]
    else if token.None? && createErr.Some? then [CreateToken(Strconv.FormatInt(random))]
    else
      var t := if token.Some? then token.value else Strconv.FormatInt(random);
      (if token.Some? then [] else [CreateToken(t)]) + [Begin(t, title, cancellable, message)]
  }

  /** What End sends: nothing after an error, an Info message without a token and a
      progress end with one. */
  function EndReports(err: Option<Error>, token: Option<string>, message: string): seq<Report>
  {
    if err.Some? then []
    else if token.None? then [ShowMessage(MessageInfo, message)]
    else [End(token.value, message)]
  }

  /** The token the work Start returns holds: the given one, or with support the created
      one unless creating it failed. */
  function StartedToken(supported: bool, token: Option<string>, random: int, createErr: Option<Error>): Option<string>
  {
    if !supported || token.Some? then token
    else if createErr.Some? then None
    else Some(Strconv.FormatInt(random))
  }

  /** The error the work Start returns holds: that of creating the token, if it failed. */
  function StartedErr(supported: bool, token: Option<string>, createErr: Option<Error>): Option<Error>
  {
    if supported && token.None? then createErr else None
  }

  /** Start followed by End on the work it returned: what is sent for it. Without
      support it is two messages, otherwise a begin and an end unless creating the token
      failed. */
  lemma StartThenEnd(supported: bool, title: string, message: string, done: string, random: int, createErr: Option<Error>)
    ensures var reports := StartReports(supported, title, message, None, false, random, createErr)
      + EndReports(StartedErr(supported, None, createErr), StartedToken(supported, None, random, createErr), done);
      var t := Strconv.FormatInt(random);
      && (!supported ==> reports == [ShowMessage(MessageLog, message), ShowMessage(MessageInfo, done)])
      && (supported && createErr.Some? ==> reports == [CreateToken(t)])
      && (supported && createErr.None? ==> reports == [CreateToken(t), Begin(t, title, false, message), End(t, done)])
  {
  }

  class Tracker {
    var supportsWorkDoneProgress: bool
    var inProgress: map<string, WorkDone>
    /** Everything sent to the client, in order. */
    var reports: seq<Report>

    constructor()
      ensures !supportsWorkDoneProgress && inProgress == map[] && reports == []
    {
      supportsWorkDoneProgress := false;
      inProgress := map[];
      reports := [];
    }

    method SetSupportsWorkDoneProgress(b: bool)
      modifies this`supportsWorkDoneProgress
      ensures supportsWorkDoneProgress == b
    {
      supportsWorkDoneProgress := b;
    }

    /**
     * Start: without progress support, a Log message and no registration. With support
     * and no token, a token made of the random number is created first; if that fails,
     * the work is marked errored and nothing is registered. Otherwise the work is
     * registered under its token and a begin is sent, cancellable iff a cancel function
     * was supplied.
     */
    method Start(title: string, message: string, token: Option<string>, cancellable: bool,
                 random: int, createErr: Option<Error>) returns (wd: WorkDone)
      requires 0 <= random <= Strconv.MaxInt64
      modifies this`inProgress, this`reports
      ensures fresh(wd) && wd.tracker == this && wd.cancellable == cancellable
      ensures !wd.cancelled && wd.cancelCalls == 0
      ensures !supportsWorkDoneProgress ==>
        reports == old(reports) + [ShowMessage(MessageLog, message)] && inProgress == old(inProgress)
        && wd.token == token && wd.err.None? && wd.cleanup.None?
      ensures supportsWorkDoneProgress && token.None? && createErr.Some? ==>
        reports == old(reports) + [CreateToken(Strconv.FormatInt(random))] && inProgress == old(inProgress)
        && wd.token.None? && wd.err == createErr && wd.cleanup.None?
      ensures supportsWorkDoneProgress && (token.Some? || createErr.None?) ==>
        var t := if token.Some? then token.value else Strconv.FormatInt(random);
        var created := if token.Some? then [] else [CreateToken(t)];
        reports == old(reports) + created + [Begin(t, title, cancellable, message)]
        && inProgress == old(inProgress)[t := wd]
        && wd.token == Some(t) && wd.err.None? && wd.cleanup == Some(t)
      ensures reports == old(reports) + StartReports(supportsWorkDoneProgress, title, message, token, cancellable, random, createErr)
      ensures wd.token == StartedToken(supportsWorkDoneProgress, token, random, createErr)
      ensures wd.err == StartedErr(supportsWorkDoneProgress, token, createErr)
    {
      wd := new WorkDone(this, token, cancellable);
      if !supportsWorkDoneProgress {
        reports := reports + [ShowMessage(MessageLog, message)];
        return;
      }
      var t: string;
      if token.None? {
        t := Strconv.FormatInt(random);
        reports := reports + [CreateToken(t)];
        if createErr.Some? {
          wd.err := createErr;
          return;
        }
        wd.token := Some(t);
      } else {
        t := token.value;
      }
      inProgress := inProgress[t := wd];
      wd.cleanup := Some(t);
      reports := reports + [Begin(t, title, cancellable, message)];
    }

    /**
     * Cancel: fails for a token that is not registered and for work without a cancel
     * function; otherwise doCancel calls the cancel function, which it does every time,
     * as nothing sets `cancelled`.
     */
    method Cancel(token: string) returns (err: Option<Error>)
      modifies if token in inProgress then {inProgress[token]} else {}
      ensures token !in inProgress ==> err == Some(TokenNotFound(token))
      ensures inProgress == old(inProgress)
      ensures token in inProgress && !inProgress[token].cancellable ==>
        err == Some(NotCancellable(token)) && inProgress[token].cancelCalls == old(inProgress[token].cancelCalls)
      ensures token in inProgress && inProgress[token].cancellable ==>
        err.None?
        && inProgress[token].cancelCalls == old(inProgress[token].cancelCalls) + if inProgress[token].cancelled then 0 else 1
    {
      if token !in inProgress {
        return Some(TokenNotFound(token));
      }
      var wd := inProgress[token];
      if !wd.cancellable {
        return Some(NotCancellable(token));
      }
      wd.DoCancel();
      return None;
    }
  }

  class WorkDone {
    /** The tracker, and through it the client, the work reports to. */
    const tracker: Tracker
    /** None: the fallback to window/showMessage. */
    var token: Option<string>
    /** Set when progress reporting is broken, as when creating the token failed. */
    var err: Option<Error>
    /** Whether a cancel function was supplied. */
    const cancellable: bool
    var cancelled: bool
    /** How often the cancel function has been called. */
    var cancelCalls: nat
    /** The token whose registration the cleanup function removes, if there is one. */
    var cleanup: Option<string>

    constructor(tracker: Tracker, token: Option<string>, cancellable: bool)
      ensures this.tracker == tracker && this.token == token && this.cancellable == cancellable
      ensures err.None? && !cancelled && cancelCalls == 0 && cleanup.None?
    {
      this.tracker := tracker;
      this.token := token;
      this.cancellable := cancellable;
      err := None;
      cancelled := false;
      cancelCalls := 0;
      cleanup := None;
    }

    /** doCancel: calls the cancel function unless `cancelled` is set. */
    method DoCancel()
      modifies this`cancelCalls
      ensures cancelCalls == old(cancelCalls) + if cancelled then 0 else 1
    {
      if !cancelled {
        cancelCalls := cancelCalls + 1;
      }
    }
  }

  /**
   * WorkDone.End: on a nil WorkDone only an error is logged. Otherwise nothing is sent
   * after a prior error, an Info message is sent without a token and a progress end
   * with one; then any registration the work made is removed.
   */
  method EndWork(wd: WorkDone?, message: string)
    modifies if wd == null then {} else {wd.tracker}
    ensures wd != null ==>
      wd.tracker.reports == old(wd.tracker.reports) + EndReports(wd.err, wd.token, message)
      && wd.tracker.inProgress == (if wd.cleanup.Some? then old(wd.tracker.inProgress) - {wd.cleanup.value}
                                   else old(wd.tracker.inProgress))
      && wd.tracker.supportsWorkDoneProgress == old(wd.tracker.supportsWorkDoneProgress)
  {
    if wd == null {
      return;
    }
    var t := wd.tracker;
    if wd.err.Some? {
    } else if wd.token.None? {
      t.reports := t.reports + [ShowMessage(MessageInfo, message)];
    } else {
      t.reports := t.reports + [End(wd.token.value, message)];
    }
    if wd.cleanup.Some? {
      t.inProgress := t.inProgress - {wd.cleanup.value};
    }
  }
}
