/**
 * The JSON-RPC connection of rpc/conn.go: an id counter, the table of calls waiting for
 * their response, and the stream it reads from and writes to. The stream is seen through
 * its interface, one message per Read or Write: `inbox` is what the next Reads return,
 * `sent` what Writes have sent, and `writeError` the error every Write fails with once
 * the stream's writer is broken. The goroutines of a Call and of Run become sequential
 * steps: StartCall (register, then send), Deliver (Run hands a response to its slot) and
 * FinishCall (the select of the waiting call). A context is a `cancelled` flag.
 */
module RpcConn {
  import opened Wrappers
  import opened Json
  import opened Errors
  import opened RpcWire
  import opened RpcMessages
  import Strconv

  /** The error a read returns at the end of the input. */
  const EOF := Error(Plain, "EOF")

  /** atomic.AddInt64(&seq, 1): two's-complement addition, which wraps at the top. */
  function NextSeq(s: Int64): Int64
  {
    if s == Strconv.MaxInt64 then Strconv.MinInt64 else s + 1
  }

  /** What happened to the connection, in order; kept only for the proofs. */
  datatype Event = Registered(id: ID) | Wrote(msg: Message) | Removed(id: ID)

  /** What Run does with one inbound response. */
  datatype Delivery = Delivered | Dropped | Blocked

  /** The reply the handler of Run gives a request, if it calls its replier. */
  datatype Reply = Reply(result: Json, err: Option<Error>)

  /** How Run stops: it panics on the first read error, or blocks on a full slot. */
  datatype RunEnd = Panicked(err: Error) | BlockedOn(id: ID)

  /** The error of a Call once its response has arrived. `wantResult` is false for a nil
      result pointer; `accepts` says whether the result's Go type can hold the JSON. */
  function ResponseError(r: Response, wantResult: bool, accepts: Json -> bool): (e: Option<Error>)
  {
    if r.err.Some? then r.err
    else if !wantResult || r.result.None? then None
    else if accepts(r.result.value) then None
    else Some(Error(Plain, "unmarshaling result: json: cannot unmarshal"))
  }

  /** An error response is always the call's error, whatever the result. */
  lemma ErrorResponseFails(r: Response, wantResult: bool, accepts: Json -> bool)
    requires r.err.Some?
    ensures ResponseError(r, wantResult, accepts) == r.err
  {
  }

  /** Without an error, a call fails only when it wants a result that does not decode. */
  lemma ResponseErrorCases(r: Response, wantResult: bool, accepts: Json -> bool)
    requires r.err.None?
    ensures ResponseError(r, wantResult, accepts).Some? <==>
      wantResult && r.result.Some? && !accepts(r.result.value)
    ensures ResponseError(r, wantResult, accepts).Some? ==>
      ResponseError(r, wantResult, accepts).value.kind == Plain
  {
  }

  /** What Run's loop produces from the inbound messages: the replies it writes, the
      pending table after delivering responses, and how it stops. */
  datatype RunResult = RunResult(replies: seq<Message>, pending: map<ID, Option<Response>>, end: RunEnd)

  /** The response a replier writes for a call. */
  function ReplyTo(c: Call, reply: Reply): Message
  {
    ResponseMsg(NewResponse(c.id, reply.result, reply.err))
  }

  /** Run over the inbox, with the handler's reply to each request. */
  function RunSpec(inbox: seq<Result<Message, Error>>, pending: map<ID, Option<Response>>,
                   cancelled: bool, handler: Message -> Option<Reply>): RunResult
    decreases |inbox|
  {
    if cancelled then RunResult([], pending, Panicked(Canceled))
    else if inbox == [] then RunResult([], pending, Panicked(EOF))
    else match inbox[0]
      case Err(e) => RunResult([], pending, Panicked(e))
      case Ok(m) =>
        match m
        case ResponseMsg(r) =>
          if r.id in pending && pending[r.id].Some? then RunResult([], pending, BlockedOn(r.id))
          else
            var p := if r.id in pending then pending[r.id := Some(r)] else pending;
            RunSpec(inbox[1..], p, cancelled, handler)
        case CallMsg(c) =>
          var rest := RunSpec(inbox[1..], pending, cancelled, handler);
          if handler(m).None? then rest
          else RunResult([ReplyTo(c, handler(m).value)] + rest.replies, rest.pending, rest.end)
        case NotificationMsg(_) =>
          RunSpec(inbox[1..], pending, cancelled, handler)
  }

  /** Every reply Run writes is a response to a call it read, with that call's id. */
  lemma {:induction false} RunRepliesOnlyToCalls(inbox: seq<Result<Message, Error>>, pending: map<ID, Option<Response>>,
                                                 cancelled: bool, handler: Message -> Option<Reply>, k: nat)
    requires k < |RunSpec(inbox, pending, cancelled, handler).replies|
    ensures var m := RunSpec(inbox, pending, cancelled, handler).replies[k];
      m.ResponseMsg? && (exists i :: 0 <= i < |inbox| && inbox[i].Ok? && inbox[i].value.CallMsg?
                           && inbox[i].value.call.id == m.response.id)
    decreases |inbox|
  {
    var m0 := inbox[0].value;
    var rest := RunSpec(inbox[1..], pending, cancelled, handler);
    if m0.CallMsg? && handler(m0).Some? && k == 0 {
      assert inbox[0].Ok? && inbox[0].value.CallMsg?;
    } else {
      var k' := if m0.CallMsg? && handler(m0).Some? then k - 1 else k;
      var p := if m0.ResponseMsg? && m0.response.id in pending then pending[m0.response.id := Some(m0.response)] else pending;
      RunRepliesOnlyToCalls(inbox[1..], p, cancelled, handler, k');
      var i :| 0 <= i < |inbox[1..]| && inbox[1..][i].Ok? && inbox[1..][i].value.CallMsg?
        && inbox[1..][i].value.call.id == RunSpec(inbox[1..], p, cancelled, handler).replies[k'].response.id;
      assert inbox[i + 1] == inbox[1..][i];
    }
  }

  /** Run never adds or removes pending calls; a slot is filled only by a response with
      its own id, and responses with unknown ids are dropped. */
  lemma {:induction false} RunDeliversById(inbox: seq<Result<Message, Error>>, pending: map<ID, Option<Response>>,
                                           cancelled: bool, handler: Message -> Option<Reply>, id: ID)
    ensures var after := RunSpec(inbox, pending, cancelled, handler).pending;
      after.Keys == pending.Keys
      && (id in pending && after[id] != pending[id] ==>
            after[id].Some? && after[id].value.id == id
            && exists i :: 0 <= i < |inbox| && inbox[i] == Ok(ResponseMsg(after[id].value)))
    decreases |inbox|
  {
    if !cancelled && inbox != [] && inbox[0].Ok? {
      var m0 := inbox[0].value;
      var p := if m0.ResponseMsg? && m0.response.id in pending then pending[m0.response.id := Some(m0.response)] else pending;
      if m0.ResponseMsg? && m0.response.id in pending && pending[m0.response.id].Some? {
      } else {
        RunDeliversById(inbox[1..], p, cancelled, handler, id);
        var after := RunSpec(inbox, pending, cancelled, handler).pending;
        assert after == RunSpec(inbox[1..], p, cancelled, handler).pending;
        if id in pending && after[id] != pending[id] {
          if after[id] != p[id] {
            var i :| 0 <= i < |inbox[1..]| && inbox[1..][i] == Ok(ResponseMsg(after[id].value));
            assert inbox[i + 1] == inbox[1..][i];
          } else {
            assert inbox[0] == Ok(ResponseMsg(after[id].value));
          }
        }
      }
    }
  }

  /** Run never returns normally: it ends by panicking on a read error or stays blocked. */
  lemma {:induction false} RunNeverReturns(inbox: seq<Result<Message, Error>>, pending: map<ID, Option<Response>>,
                                           cancelled: bool, handler: Message -> Option<Reply>)
    ensures var end := RunSpec(inbox, pending, cancelled, handler).end;
      end.Panicked? ==> ((cancelled && end.err == Canceled) || end.err == EOF || Err(end.err) in inbox)
    decreases |inbox|
  {
    if !cancelled && inbox != [] && inbox[0].Ok? {
      var m0 := inbox[0].value;
      var p := if m0.ResponseMsg? && m0.response.id in pending then pending[m0.response.id := Some(m0.response)] else pending;
      RunNeverReturns(inbox[1..], p, cancelled, handler);
      var end := RunSpec(inbox, pending, cancelled, handler).end;
      if end.Panicked? && Err(end.err) in inbox[1..] {
        var i :| 0 <= i < |inbox[1..]| && inbox[1..][i] == Err(end.err);
        assert inbox[i + 1] == Err(end.err);
      }
    }
  }

  class Conn {
    /** The last id number handed out. */
    var seqNum: Int64
    /** The calls waiting for a response, with the response once Run delivered it. */
    var pending: map<ID, Option<Response>>
    /** What the next Reads of the stream return. */
    var inbox: seq<Result<Message, Error>>
    /** What Writes have sent. */
    var sent: seq<Message>
    /** The error of the stream's writer when it takes no more messages; None while it does. */
    var writeError: Option<Error>
    ghost var log: seq<Event>

    /** Every pending call has an id this connection handed out. */
    ghost predicate Valid()
      reads this
    {
      0 <= seqNum && forall id :: id in pending ==> id.name == "" && 0 < id.number <= seqNum
    }

    /** NewConn */
    constructor (inbox: seq<Result<Message, Error>>, writeError: Option<Error>)
      ensures Valid() && seqNum == 0 && pending == map[] && this.inbox == inbox && sent == [] && log == []
      ensures this.writeError == writeError
    {
      seqNum := 0;
      pending := map[];
      this.inbox := inbox;
      sent := [];
      this.writeError := writeError;
      log := [];
    }

    /** conn.write: the stream refuses to send once the context is done, and a broken
        writer's error is returned with nothing sent. */
    method Write(cancelled: bool, msg: Message) returns (err: Option<Error>)
      modifies this`sent, this`log
      ensures cancelled ==> err == Some(Canceled) && sent == old(sent) && log == old(log)
      ensures !cancelled && writeError.Some? ==> err == writeError && sent == old(sent) && log == old(log)
      ensures !cancelled && writeError.None? ==> err == None && sent == old(sent) + [msg] && log == old(log) + [Wrote(msg)]
    {
      if cancelled {
        return Some(Canceled);
      }
      if writeError.Some? {
        return writeError;
      }
      sent := sent + [msg];
      log := log + [Wrote(msg)];
      err := None;
    }

    /** conn.Notify: one notification is written; the write's error is the result. */
    method Notify(cancelled: bool, methodName: string, params: Json) returns (err: Option<Error>)
      modifies this`sent, this`log
      ensures cancelled ==> err == Some(Canceled) && sent == old(sent)
      ensures !cancelled ==> err == writeError
      ensures !cancelled && writeError.Some? ==> sent == old(sent)
      ensures !cancelled && writeError.None? ==> sent == old(sent) + [NotificationMsg(Notification(methodName, Some(params)))]
    {
      var notify := NewNotification(methodName, params);
      err := Write(cancelled, NotificationMsg(notify));
    }

    /**
     * The first half of conn.Call: take the next id, register it as pending, then send the
     * call. A failed send removes the registration again and is the call's error.
     */
    method StartCall(cancelled: bool, methodName: string, params: Json) returns (id: ID, err: Option<Error>)
      requires Valid()
      modifies this`seqNum, this`pending, this`sent, this`log
      ensures seqNum == NextSeq(old(seqNum)) && id == ID("", seqNum)
      ensures old(seqNum) < Strconv.MaxInt64 ==> id.number == old(seqNum) + 1 && id !in old(pending) && Valid()
      ensures var call := CallMsg(RpcMessages.Call(methodName, Some(params), id));
        if cancelled || writeError.Some? then
          err == (if cancelled then Some(Canceled) else writeError)
          && sent == old(sent) && pending == old(pending) - {id}
          && log == old(log) + [Registered(id), Removed(id)]
        else
          err == None && sent == old(sent) + [call] && pending == old(pending)[id := None]
          && log == old(log) + [Registered(id), Wrote(call)]
    {
      seqNum := NextSeq(seqNum);
      id := ID("", seqNum);
      var call := NewCall(id, methodName, params);
      pending := pending[id := None];
      log := log + [Registered(id)];
      err := Write(cancelled, CallMsg(call));
      if err.Some? {
        pending := pending - {id};
        log := log + [Removed(id)];
      }
    }

    /** One step of Run for an inbound response: only a pending call with the same id
        receives it; the one-place slot of a call that already has one blocks Run. */
    method Deliver(r: Response) returns (d: Delivery)
      modifies this`pending
      ensures r.id !in old(pending) ==> d == Dropped && pending == old(pending)
      ensures r.id in old(pending) && old(pending)[r.id].None? ==>
        d == Delivered && pending == old(pending)[r.id := Some(r)]
      ensures r.id in old(pending) && old(pending)[r.id].Some? ==> d == Blocked && pending == old(pending)
    {
      if r.id !in pending {
        return Dropped;
      }
      if pending[r.id].Some? {
        return Blocked;
      }
      pending := pending[r.id := Some(r)];
      d := Delivered;
    }

    /**
     * The select of a waiting conn.Call: cancellation, or the delivered response. When
     * both are ready the cancellation is taken. Either way the call leaves the pending
     * table. With neither, the call goes on waiting and nothing changes.
     */
    method FinishCall(id: ID, cancelled: bool, wantResult: bool, accepts: Json -> bool)
      returns (done: bool, err: Option<Error>)
      requires id in pending
      modifies this`pending, this`log
      ensures cancelled ==> done && err == Some(Canceled)
      ensures !cancelled && old(pending)[id].Some? ==>
        done && err == ResponseError(old(pending)[id].value, wantResult, accepts)
      ensures !cancelled && old(pending)[id].None? ==> !done && pending == old(pending) && log == old(log)
      ensures done ==> pending == old(pending) - {id} && log == old(log) + [Removed(id)]
    {
      if !cancelled && pending[id].None? {
        return false, None;
      }
      if cancelled {
        err := Some(Canceled);
      } else {
        err := ResponseError(pending[id].value, wantResult, accepts);
      }
      pending := pending - {id};
      log := log + [Removed(id)];
      done := true;
    }

    /**
     * conn.Call from start to end, when the peer answers with `answer` (its result and
     * error) unless the context is done first: cancelled before the send, or while the
     * call waits. A send the writer refuses is the call's error, and nothing is awaited.
     * A call that gets neither an answer nor a cancellation waits forever and is not
     * modelled.
     */
    method Call(cancelledBeforeSend: bool, cancelledWhileWaiting: bool, methodName: string, params: Json,
                answer: Option<Reply>, wantResult: bool, accepts: Json -> bool)
      returns (id: ID, err: Option<Error>)
      requires Valid() && seqNum < Strconv.MaxInt64
      requires cancelledBeforeSend || cancelledWhileWaiting || answer.Some? || writeError.Some?
      modifies this`seqNum, this`pending, this`sent, this`log
      ensures id == ID("", old(seqNum) + 1) && seqNum == id.number && Valid()
      ensures pending == old(pending)
      ensures cancelledBeforeSend ==> err == Some(Canceled) && sent == old(sent)
      ensures !cancelledBeforeSend && writeError.Some? ==> err == writeError && sent == old(sent)
      ensures !cancelledBeforeSend && writeError.None? ==>
        sent == old(sent) + [CallMsg(RpcMessages.Call(methodName, Some(params), id))]
      ensures !cancelledBeforeSend && writeError.None? && cancelledWhileWaiting ==> err == Some(Canceled)
      ensures !cancelledBeforeSend && writeError.None? && !cancelledWhileWaiting ==>
        err == ResponseError(Response(Some(answer.value.result), answer.value.err, id), wantResult, accepts)
      ensures var i := |old(log)|; |log| >= i + 2 && log[i] == Registered(id) && log[|log| - 1] == Removed(id)
    {
      id, err := StartCall(cancelledBeforeSend, methodName, params);
      if err.Some? {
        return;
      }
      if answer.Some? {
        var d := Deliver(NewResponse(id, answer.value.result, answer.value.err));
      }
      var done;
      done, err := FinishCall(id, cancelledWhileWaiting, wantResult, accepts);
    }

    /** conn.replier: nothing for a notification, one response with the call's id for a
        call, and the write's error. */
    method Replier(req: Message, cancelled: bool, reply: Reply) returns (err: Option<Error>)
      requires req.IsRequest()
      modifies this`sent, this`log
      ensures req.NotificationMsg? ==> err == None && sent == old(sent)
      ensures req.CallMsg? && cancelled ==> err == Some(Canceled) && sent == old(sent)
      ensures req.CallMsg? && !cancelled ==> err == writeError
      ensures req.CallMsg? && !cancelled && writeError.Some? ==> sent == old(sent)
      ensures req.CallMsg? && !cancelled && writeError.None? ==> sent == old(sent) + [ReplyTo(req.call, reply)]
    {
      if !req.CallMsg? {
        return None;
      }
      var response := NewResponse(req.call.id, reply.result, reply.err);
      err := Write(cancelled, ResponseMsg(response));
    }

    /** The stream's Read: the context first, then the next message or the end of input. */
    method Read(cancelled: bool) returns (r: Result<Message, Error>)
      modifies this`inbox
      ensures cancelled ==> r == Err(Canceled) && inbox == old(inbox)
      ensures !cancelled && old(inbox) == [] ==> r == Err(EOF) && inbox == []
      ensures !cancelled && old(inbox) != [] ==> r == old(inbox)[0] && inbox == old(inbox)[1..]
    {
      if cancelled {
        return Err(Canceled);
      }
      if inbox == [] {
        return Err(EOF);
      }
      r := inbox[0];
      inbox := inbox[1..];
    }

    /** One turn of Run's loop: the next message is read and handled. The turn either
        ends the run as RunSpec says, or leaves the rest of the run to RunSpec of what is
        left, after the replies it gave; those are written unless the writer is broken. */
    method RunStep(cancelled: bool, handler: Message -> Option<Reply>) returns (end: Option<RunEnd>, replies: seq<Message>)
      modifies this`inbox, this`pending, this`sent, this`log
      ensures sent == old(sent) + (if writeError.None? then replies else [])
      ensures end.Some? ==>
        replies == [] && RunSpec(old(inbox), old(pending), cancelled, handler) == RunResult([], pending, end.value)
      ensures end.None? ==> |inbox| < |old(inbox)|
      ensures end.None? ==>
        var rest := RunSpec(inbox, pending, cancelled, handler);
        RunSpec(old(inbox), old(pending), cancelled, handler) == RunResult(replies + rest.replies, rest.pending, rest.end)
    {
      replies := [];
      var msg := Read(cancelled);
      if msg.Err? {
        return Some(Panicked(msg.error)), [];
      }
      end := None;
      match msg.value
      case ResponseMsg(r) =>
        var d := Deliver(r);
        if d == Blocked {
          return Some(BlockedOn(r.id)), [];
        }
      case CallMsg(c) =>
        var reply := handler(msg.value);
        if reply.Some? {
          var e := Replier(msg.value, cancelled, reply.value);
          replies := [ReplyTo(c, reply.value)];
        }
      case NotificationMsg(_) =>
        var reply := handler(msg.value);
        if reply.Some? {
          var e := Replier(msg.value, cancelled, reply.value);
        }
    }

    /**
     * conn.Run: read until the stream fails, which panics; hand each request to the
     * handler with a replier and each response to its pending call. A reply the
     * writer refuses is only logged, so Run goes on without it.
     */
    method Run(cancelled: bool, handler: Message -> Option<Reply>) returns (end: RunEnd)
      modifies this`inbox, this`pending, this`sent, this`log
      ensures var spec := RunSpec(old(inbox), old(pending), cancelled, handler);
        && sent == old(sent) + (if writeError.None? then spec.replies else [])
        && pending == spec.pending && end == spec.end
    {
      ghost var replies: seq<Message> := [];
      while true
        invariant sent == old(sent) + (if writeError.None? then replies else [])
        invariant RunSpec(old(inbox), old(pending), cancelled, handler) ==
          var spec := RunSpec(inbox, pending, cancelled, handler);
          RunResult(replies + spec.replies, spec.pending, spec.end)
        decreases |inbox|
      {
        var stop, written := RunStep(cancelled, handler);
        replies := replies + written;
        if stop.Some? {
          return stop.value;
        }
      }
    }
  }
}
