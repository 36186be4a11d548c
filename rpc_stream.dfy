/**
 * The header-framed stream of rpc/stream.go: each message is a block of header lines
 * ended by an empty line, of which `Content-Length` is required, followed by exactly
 * that many bytes of JSON. The reader is a byte string still to be consumed and the
 * writer the bytes written so far, with the number of bytes it still takes before its
 * writes fail. JSON syntax is the parse/serialize pair given to Read and Write.
 */
module RpcStream {
  import opened Wrappers
  import opened Json
  import opened Errors
  import opened RpcMessages
  import Strs
  import Strconv

  datatype StreamError =
    | Cancelled                        // the context was already done
    | HeaderReadFailed                 // the input ended inside a header line
    | InvalidHeaderLine(line: string)  // a non-empty header line without ':'
    | BadContentLength(value: string)  // not a 32-bit decimal integer
    | InvalidContentLength(length: int)
    | MissingContentLength
    | ShortBody                        // fewer body bytes than Content-Length
    | DecodeFailed(err: Error)         // the body is not a decodable message
    | WriteFailed                      // the writer took fewer bytes than it was given

  /** The framing read from the input: the body or an error, the bytes counted, and the
      input left unread. */
  datatype Framing = Framing(body: Result<string, StreamError>, total: nat, rest: string)

  const ContentLength := "Content-Length"

  /** What one turn of the header loop leaves: go on, the blank line, or an error. */
  datatype HeaderStep = Continue | EndOfBlock | Stop(err: StreamError)

  /** One turn of the header loop: its step, the bytes counted, the length in force and
      the input left. */
  datatype Turn = Turn(step: HeaderStep, total: nat, length: nat, rest: string)

  /** What one header line, before trimming, tells the reader. */
  datatype HeaderLine =
    | EndOfHeaders            // blank once trimmed
    | Malformed(line: string) // no colon
    | Length(value: string)   // a Content-Length header with its trimmed value
    | Ignored                 // any other header

  function ParseHeaderLine(line: string): HeaderLine
  {
    var trimmed := Strs.TrimSpace(line);
    if trimmed == [] then EndOfHeaders
    else match Strs.IndexOf(trimmed, ':')
      case None => Malformed(trimmed)
      case Some(colon) =>
        if trimmed[..colon] == ContentLength then Length(Strs.TrimSpace(trimmed[colon + 1..]))
        else Ignored
  }

  /**
   * The header loop of Read from `input`, with `total` bytes counted so far and the last
   * Content-Length seen (0 when none). Every line read is counted, even a last partial one.
   * What one line means is given by `classify`; Frame supplies ParseHeaderLine.
   */
  function ReadHeaders(input: string, total: nat, length: nat, classify: string -> HeaderLine): (f: Framing)
    decreases |input|
  {
    match Strs.IndexOf(input, '\n')
    case None => Framing(Err(HeaderReadFailed), total + |input|, [])
    case Some(k) =>
      var total' := total + k + 1;
      var rest := input[k + 1..];
      match classify(input[..k + 1])
      case EndOfHeaders => ReadBody(rest, total', length)
      case Malformed(t) => Framing(Err(InvalidHeaderLine(t)), total', rest)
      case Ignored => ReadHeaders(rest, total', length, classify)
      case Length(value) =>
        match Strconv.ParseInt32(value)
        case None => Framing(Err(BadContentLength(value)), total', rest)
        case Some(n) =>
          if n <= 0 then Framing(Err(InvalidContentLength(n)), total', rest)
          else ReadHeaders(rest, total', n, classify)
  }

  /** One turn of the header loop on `input`: what the line says, the bytes counted, the
      length in force and the input left. */
  function HeaderLineStep(input: string, total: nat, length: nat, classify: string -> HeaderLine)
    : (r: Turn)
    ensures r.step.Continue? ==> |r.rest| < |input|
  {
    match Strs.IndexOf(input, '\n')
    case None => Turn(Stop(HeaderReadFailed), total + |input|, length, [])
    case Some(k) =>
      var total' := total + k + 1;
      var rest := input[k + 1..];
      match classify(input[..k + 1])
      case EndOfHeaders => Turn(EndOfBlock, total', length, rest)
      case Malformed(t) => Turn(Stop(InvalidHeaderLine(t)), total', length, rest)
      case Ignored => Turn(Continue, total', length, rest)
      case Length(value) =>
        match Strconv.ParseInt32(value)
        case None => Turn(Stop(BadContentLength(value)), total', length, rest)
        case Some(n) =>
          if n <= 0 then Turn(Stop(InvalidContentLength(n)), total', length, rest)
          else Turn(Continue, total', n, rest)
  }

  /** The header loop is its first turn followed by the rest of the loop, the body, or the
      error that turn ends with. */
  lemma ReadHeadersByStep(input: string, total: nat, length: nat, classify: string -> HeaderLine)
    ensures var r := HeaderLineStep(input, total, length, classify);
      ReadHeaders(input, total, length, classify) ==
        match r.step
        case Continue => ReadHeaders(r.rest, r.total, r.length, classify)
        case EndOfBlock => ReadBody(r.rest, r.total, r.length)
        case Stop(e) => Framing(Err(e), r.total, r.rest)
  {
  }

  /** One line of the header loop that is ignored: the loop goes on after it. */
  lemma StepIgnored(input: string, k: nat, total: nat, length: nat, classify: string -> HeaderLine)
    requires Strs.IndexOf(input, '\n') == Some(k) && classify(input[..k + 1]) == Ignored
    ensures ReadHeaders(input, total, length, classify) == ReadHeaders(input[k + 1..], total + k + 1, length, classify)
  {
  }

  /** A valid Content-Length line: the loop goes on with the new length. */
  lemma StepLength(input: string, k: nat, total: nat, length: nat, classify: string -> HeaderLine, n: int)
    requires Strs.IndexOf(input, '\n') == Some(k) && classify(input[..k + 1]).Length?
    requires Strconv.ParseInt32(classify(input[..k + 1]).value) == Some(n) && n > 0
    ensures ReadHeaders(input, total, length, classify) == ReadHeaders(input[k + 1..], total + k + 1, n, classify)
  {
  }

  /** The empty line: the body follows. */
  lemma StepEnd(input: string, k: nat, total: nat, length: nat, classify: string -> HeaderLine)
    requires Strs.IndexOf(input, '\n') == Some(k) && classify(input[..k + 1]) == EndOfHeaders
    ensures ReadHeaders(input, total, length, classify) == ReadBody(input[k + 1..], total + k + 1, length)
  {
  }

  /** After the empty line: io.ReadFull of `length` bytes, which consumes what there is
      when it fails. */
  function ReadBody(input: string, total: nat, length: nat): (f: Framing)
  {
    if length == 0 then Framing(Err(MissingContentLength), total, input)
    else if |input| < length then Framing(Err(ShortBody), total, [])
    else Framing(Ok(input[..length]), total + length, input[length..])
  }

  /** The framing Read finds at the start of the input. */
  function Frame(input: string): Framing
  {
    ReadHeaders(input, 0, 0, ParseHeaderLine)
  }

  /** DecodeMessage applied to the body, when there is one. */
  function DecodeBody(body: Result<string, StreamError>, parse: string -> Option<Json>)
    : (r: Result<Message, StreamError>)
    ensures body.Err? ==> r == Err(body.error)
  {
    if body.Err? then Err(body.error)
    else match parse(body.value)
      case None => Err(DecodeFailed(Error(Plain, "unmarshaling jsonrpc message: invalid JSON")))
      case Some(j) =>
        match DecodeMessage(j)
        case Err(e) => Err(DecodeFailed(e))
        case Ok(m) => Ok(m)
  }

  /** The header Write sends before a body of n bytes. */
  function Header(n: nat): string
  {
    ContentLength + ": " + Strconv.FormatInt(n) + "\r\n\r\n"
  }

  function Framed(data: string): string
  {
    Header(|data|) + data
  }

  /** How many of n bytes a writer with `room` left takes: all of them when it has no
      limit or room enough, otherwise as many as fit. */
  function Accepted(room: Option<nat>, n: nat): (k: nat)
    ensures k <= n && (room.Some? ==> k <= room.value)
    ensures k < n <==> room.Some? && room.value < n
  {
    if room.None? || n <= room.value then n else room.value
  }

  /** The room a writer has left after taking k bytes. */
  function After(room: Option<nat>, k: nat): Option<nat>
    requires room.Some? ==> k <= room.value
  {
    if room.None? then None else Some(room.value - k)
  }

  class HeaderStream {
    /** The bytes of the buffered reader not yet consumed. */
    var input: string
    /** The bytes written to the writer so far. */
    var output: string
    /** How many more bytes the writer takes before it fails; None when it never fails. */
    var room: Option<nat>

    constructor (input: string, room: Option<nat>)
      ensures this.input == input && output == [] && this.room == room
    {
      this.input := input;
      output := [];
      this.room := room;
    }

    /** headerStream.Read: one framed message; the count is of the bytes consumed. */
    method Read(cancelled: bool, parse: string -> Option<Json>) returns (msg: Result<Message, StreamError>, total: nat)
      modifies this`input
      ensures cancelled ==> msg == Err(Cancelled) && total == 0 && input == old(input)
      ensures !cancelled ==>
        var f := Frame(old(input));
        total == f.total && input == f.rest && msg == DecodeBody(f.body, parse)
    {
      msg, total := ReadWith(cancelled, parse, ParseHeaderLine);
    }

    /** The body of Read, with the meaning of each header line given by `classify`. */
    method ReadWith(cancelled: bool, parse: string -> Option<Json>, classify: string -> HeaderLine)
      returns (msg: Result<Message, StreamError>, total: nat)
      modifies this`input
      ensures cancelled ==> msg == Err(Cancelled) && total == 0 && input == old(input)
      ensures !cancelled ==>
        var f := ReadHeaders(old(input), 0, 0, classify);
        total == f.total && input == f.rest && msg == DecodeBody(f.body, parse)
    {
      if cancelled {
        return Err(Cancelled), 0;
      }
      total := 0;
      var length: nat := 0;
      ghost var f := ReadHeaders(old(input), 0, 0, classify);
      while true
        invariant f == ReadHeaders(input, total, length, classify)
        decreases |input|
      {
        ReadHeadersByStep(input, total, length, classify);
        var step;
        step, total, length := ReadHeaderLine(total, length, classify);
        if step.Stop? {
          return Err(step.err), total;
        }
        if step.EndOfBlock? {
          break;
        }
      }
      msg, total := ReadBodyFrom(total, length, parse);
    }

    /** One turn of the header loop: read a line, count it, and act on what it says. */
    method ReadHeaderLine(counted: nat, length: nat, classify: string -> HeaderLine)
      returns (step: HeaderStep, total: nat, length': nat)
      modifies this`input
      ensures Turn(step, total, length', input) == HeaderLineStep(old(input), counted, length, classify)
    {
      length' := length;
      var nl := Strs.IndexOf(input, '\n');
      if nl.None? {
        total := counted + |input|;
        input := [];
        return Stop(HeaderReadFailed), total, length';
      }
      var line := input[..nl.value + 1];
      input := input[nl.value + 1..];
      total := counted + |line|;
      match classify(line)
      case EndOfHeaders =>
        step := EndOfBlock;
      case Malformed(trimmed) =>
        step := Stop(InvalidHeaderLine(trimmed));
      case Ignored =>
        step := Continue;
      case Length(value) =>
        var n := Strconv.ParseInt32(value);
        if n.None? {
          return Stop(BadContentLength(value)), total, length';
        }
        if n.value <= 0 {
          return Stop(InvalidContentLength(n.value)), total, length';
        }
        length' := n.value;
        step := Continue;
    }

    /** The end of Read: io.ReadFull of the body after the headers, then DecodeMessage. */
    method ReadBodyFrom(counted: nat, length: nat, parse: string -> Option<Json>)
      returns (msg: Result<Message, StreamError>, total: nat)
      modifies this`input
      ensures var f := ReadBody(old(input), counted, length);
        total == f.total && input == f.rest && msg == DecodeBody(f.body, parse)
    {
      total := counted;
      if length == 0 {
        return Err(MissingContentLength), total;
      }
      if |input| < length {
        input := [];
        return Err(ShortBody), total;
      }
      var data := input[..length];
      input := input[length..];
      total := total + length;
      msg := DecodeBody(Ok(data), parse);
    }

    /** The writer's Write: the bytes that fit are written and counted, and a write
        that does not fit whole fails. */
    method Put(p: string) returns (n: nat, err: Option<StreamError>)
      modifies this`output, this`room
      ensures n == Accepted(old(room), |p|) && output == old(output) + p[..n] && room == After(old(room), n)
      ensures err.None? <==> n == |p|
      ensures err.Some? ==> err == Some(WriteFailed)
    {
      n := Accepted(room, |p|);
      output := output + p[..n];
      room := After(room, n);
      err := if n < |p| then Some(WriteFailed) else None;
    }

    /**
     * headerStream.Write: the Content-Length header, then the encoded message, unless
     * writing the header failed. The count is of the bytes the writer took, and the
     * error is the writer's when it did not take them all.
     */
    method Write(cancelled: bool, msg: Message, serialize: Json -> string) returns (total: nat, err: Option<StreamError>)
      modifies this`output, this`room
      ensures cancelled ==> total == 0 && err == Some(Cancelled) && output == old(output) && room == old(room)
      ensures !cancelled ==>
        var framed := Framed(serialize(MarshalMessage(msg)));
        var k := Accepted(old(room), |framed|);
        && total == k && output == old(output) + framed[..k] && room == After(old(room), k)
        && (err.None? <==> k == |framed|) && (err.Some? ==> err == Some(WriteFailed))
    {
      if cancelled {
        return 0, Some(Cancelled);
      }
      total, err := WriteFramed(serialize(MarshalMessage(msg)));
    }

    /** The two writes of Write for the encoded message `data`. */
    method WriteFramed(data: string) returns (total: nat, err: Option<StreamError>)
      modifies this`output, this`room
      ensures var k := Accepted(old(room), |Framed(data)|);
        && total == k && output == old(output) + Framed(data)[..k] && room == After(old(room), k)
        && (err.None? <==> k == |Framed(data)|) && (err.Some? ==> err == Some(WriteFailed))
    {
      var header := Header(|data|);
      ghost var framed := Framed(data);
      assert framed == header + data;
      total, err := Put(header);
      if err.Some? {
        assert framed[..total] == header[..total];
        return;
      }
      var n;
      n, err := Put(data);
      assert framed[..total + n] == header + data[..n];
      total := total + n;
    }
  }

  /** A header line `Content-Length: n` followed by CR LF. */
  function LengthLine(n: nat): string
  {
    ContentLength + ": " + Strconv.FormatInt(n) + "\r\n"
  }

  /** `Content-Length: v` with nothing around v reads as a Content-Length header of value v. */
  lemma LengthHeaderParses(value: string, pad: string)
    requires value != [] && !Strs.IsSpace(value[0]) && !Strs.IsSpace(value[|value| - 1])
    requires Strs.AllSpace(pad)
    ensures ParseHeaderLine(ContentLength + ": " + value + pad) == Length(value)
  {
    var body := ContentLength + ": " + value;
    TrimLengthLine(value, pad);
    ColonOfLengthLine(value);
    assert body[..14] == ContentLength;
    TrimLengthValue(value);
  }

  lemma TrimLengthLine(value: string, pad: string)
    requires value != [] && !Strs.IsSpace(value[0]) && !Strs.IsSpace(value[|value| - 1])
    requires Strs.AllSpace(pad)
    ensures Strs.TrimSpace(ContentLength + ": " + value + pad) == ContentLength + ": " + value
  {
    var body := ContentLength + ": " + value;
    assert body + pad == [] + body + pad;
    Strs.TrimSpaceOfPadded([], body, pad);
  }

  lemma ColonOfLengthLine(value: string)
    ensures Strs.IndexOf(ContentLength + ": " + value, ':') == Some(14)
  {
    var body := ContentLength + ": " + value;
    assert body == ContentLength + [':'] + (" " + value);
    Strs.IndexOfAfter(ContentLength, ':', " " + value);
  }

  lemma TrimLengthValue(value: string)
    requires value != [] && !Strs.IsSpace(value[0]) && !Strs.IsSpace(value[|value| - 1])
    ensures Strs.TrimSpace((ContentLength + ": " + value)[15..]) == value
  {
    var body := ContentLength + ": " + value;
    assert body[15..] == " " + value + [];
    Strs.TrimSpaceOfPadded(" ", value, []);
  }

  lemma LengthLineSplits(n: nat, rest: string)
    ensures var input := LengthLine(n) + rest;
      Strs.IndexOf(input, '\n') == Some(|LengthLine(n)| - 1)
      && input[..|LengthLine(n)|] == LengthLine(n) && input[|LengthLine(n)|..] == rest
  {
    var d := Strconv.FormatInt(n);
    var a := ContentLength + ": " + d + "\r";
    assert LengthLine(n) + rest == a + ['\n'] + rest;
    assert '\n' !in a by {
      forall i | 0 <= i < |a| ensures a[i] != '\n' {
        if 16 <= i < |a| - 1 {
          assert a[i] == d[i - 16];
        }
      }
    }
    Strs.IndexOfAfter(a, '\n', rest);
  }

  /** A Content-Length line written for n reads back as n. */
  lemma LengthLineParses(n: nat)
    requires 0 < n <= Strconv.MaxInt32
    ensures ParseHeaderLine(LengthLine(n)) == Length(Strconv.FormatInt(n))
    ensures Strconv.ParseInt32(Strconv.FormatInt(n)) == Some(n)
  {
    var d := Strconv.FormatInt(n);
    assert LengthLine(n) == ContentLength + ": " + d + "\r\n";
    LengthHeaderParses(d, "\r\n");
    Strconv.ParseFormatInt(n, Strconv.MinInt32, Strconv.MaxInt32);
  }

  /** A well-formed Content-Length line sets the length and is counted whole. */
  lemma ReadLengthLine(n: nat, rest: string, total: nat, length: nat)
    requires 0 < n <= Strconv.MaxInt32
    ensures ReadHeaders(LengthLine(n) + rest, total, length, ParseHeaderLine) ==
      ReadHeaders(rest, total + |LengthLine(n)|, n, ParseHeaderLine)
  {
    LengthLineParses(n);
    ReadLengthLineWith(n, rest, total, length, ParseHeaderLine);
  }

  lemma ReadLengthLineWith(n: nat, rest: string, total: nat, length: nat, classify: string -> HeaderLine)
    requires 0 < n <= Strconv.MaxInt32
    requires classify(LengthLine(n)) == Length(Strconv.FormatInt(n))
    ensures ReadHeaders(LengthLine(n) + rest, total, length, classify) ==
      ReadHeaders(rest, total + |LengthLine(n)|, n, classify)
  {
    LengthLineSplits(n, rest);
    Strconv.ParseFormatInt(n, Strconv.MinInt32, Strconv.MaxInt32);
    StepLength(LengthLine(n) + rest, |LengthLine(n)| - 1, total, length, classify, n);
  }

  /** A header line with another name is counted and otherwise ignored. */
  lemma ReadOtherHeader(line: string, rest: string, total: nat, length: nat)
    requires '\n' !in line && ParseHeaderLine(line) == Ignored
    ensures ReadHeaders(line + "\n" + rest, total, length, ParseHeaderLine) ==
      ReadHeaders(rest, total + |line| + 1, length, ParseHeaderLine)
  {
    IgnoredLineParses(line);
    ReadOtherHeaderWith(line, rest, total, length, ParseHeaderLine);
  }

  lemma IgnoredLineParses(line: string)
    requires ParseHeaderLine(line) == Ignored
    ensures ParseHeaderLine(line + "\n") == Ignored
  {
    TrimNewline(line);
  }

  lemma ReadOtherHeaderWith(line: string, rest: string, total: nat, length: nat, classify: string -> HeaderLine)
    requires '\n' !in line && classify(line + "\n") == Ignored
    ensures ReadHeaders(line + "\n" + rest, total, length, classify) ==
      ReadHeaders(rest, total + |line| + 1, length, classify)
  {
    ReadLineSplit(line, rest);
    StepIgnored(line + "\n" + rest, |line|, total, length, classify);
  }

  lemma ReadLineSplit(line: string, rest: string)
    requires '\n' !in line
    ensures var input := line + "\n" + rest;
      Strs.IndexOf(input, '\n') == Some(|line|) && input[..|line| + 1] == line + "\n"
      && input[|line| + 1..] == rest
  {
    Strs.IndexOfAfter(line, '\n', rest);
    assert line + "\n" + rest == line + ['\n'] + rest;
  }

  lemma TrimNewline(line: string)
    ensures Strs.TrimSpace(line + "\n") == Strs.TrimSpace(line)
  {
    Strs.TrimRightAppendSpace(Strs.TrimLeft(line), '\n');
    if Strs.TrimLeft(line) == [] {
      Strs.TrimLeftEmpty(line);
      assert Strs.AllSpace(line + "\n");
      Strs.TrimSpaceEmpty(line + "\n");
    } else {
      TrimLeftAppend(line, '\n');
    }
  }

  lemma {:induction false} TrimLeftAppend(s: string, c: char)
    requires Strs.TrimLeft(s) != []
    ensures Strs.TrimLeft(s + [c]) == Strs.TrimLeft(s) + [c]
  {
    if s != [] && Strs.IsSpace(s[0]) {
      assert (s + [c])[1..] == s[1..] + [c];
      TrimLeftAppend(s[1..], c);
    }
  }

  /** A non-empty header line without a colon ends the read with an error. */
  lemma ReadLineWithoutColon(line: string, rest: string, total: nat, length: nat)
    requires '\n' !in line
    requires Strs.TrimSpace(line) != [] && ':' !in Strs.TrimSpace(line)
    ensures ReadHeaders(line + "\n" + rest, total, length, ParseHeaderLine) ==
      Framing(Err(InvalidHeaderLine(Strs.TrimSpace(line))), total + |line| + 1, rest)
  {
    ReadLineSplit(line, rest);
    TrimNewline(line);
    Strs.IndexOfAbsent(Strs.TrimSpace(line), ':');
    assert ParseHeaderLine(line + "\n") == Malformed(Strs.TrimSpace(line));
  }

  /** A Content-Length value that is not a positive 32-bit integer ends the read with an error. */
  lemma ReadBadLength(value: string, rest: string, total: nat, length: nat)
    requires '\n' !in value
    requires value != [] && !Strs.IsSpace(value[0]) && !Strs.IsSpace(value[|value| - 1])
    requires var n := Strconv.ParseInt32(value); n.None? || n.value <= 0
    ensures var line := ContentLength + ": " + value;
      var f := ReadHeaders(line + "\n" + rest, total, length, ParseHeaderLine);
      f.body.Err? && (f.body.error.BadContentLength? || f.body.error.InvalidContentLength?)
      && f.total == total + |line| + 1 && f.rest == rest
  {
    var line := ContentLength + ": " + value;
    assert '\n' !in line by {
      forall i | 0 <= i < |line| ensures line[i] != '\n' {
        if i >= 16 { assert line[i] == value[i - 16]; }
      }
    }
    ReadLineSplit(line, rest);
    LengthHeaderParses(value, "\n");
  }

  /** The empty line before any Content-Length ends the read with an error. */
  lemma ReadWithoutLength(rest: string, total: nat)
    ensures ReadHeaders("\r\n" + rest, total, 0, ParseHeaderLine) ==
      Framing(Err(MissingContentLength), total + 2, rest)
  {
    ReadLineSplit("\r", rest);
    assert "\r" + "\n" + rest == "\r\n" + rest;
    TrimNewline("\r");
    Strs.TrimSpaceEmpty("\r");
    assert ParseHeaderLine("\r\n") == EndOfHeaders;
    StepEnd("\r\n" + rest, 1, total, 0, ParseHeaderLine);
  }

  /** If the input ends inside a header line, every remaining byte is counted. */
  lemma ReadUnterminatedLine(input: string, total: nat, length: nat)
    requires '\n' !in input
    ensures ReadHeaders(input, total, length, ParseHeaderLine) ==
      Framing(Err(HeaderReadFailed), total + |input|, [])
  {
    Strs.IndexOfAbsent(input, '\n');
  }

  /** When two Content-Length lines appear, the last one decides the length. */
  lemma LastLengthWins(a: nat, b: nat, rest: string, total: nat, length: nat)
    requires 0 < a <= Strconv.MaxInt32 && 0 < b <= Strconv.MaxInt32
    ensures ReadHeaders(LengthLine(a) + LengthLine(b) + rest, total, length, ParseHeaderLine) ==
      ReadHeaders(rest, total + |LengthLine(a)| + |LengthLine(b)|, b, ParseHeaderLine)
  {
    LengthLineParses(a);
    LengthLineParses(b);
    LastLengthWinsWith(a, b, rest, total, length, ParseHeaderLine);
  }

  lemma LastLengthWinsWith(a: nat, b: nat, rest: string, total: nat, length: nat, classify: string -> HeaderLine)
    requires 0 < a <= Strconv.MaxInt32 && 0 < b <= Strconv.MaxInt32
    requires classify(LengthLine(a)) == Length(Strconv.FormatInt(a))
    requires classify(LengthLine(b)) == Length(Strconv.FormatInt(b))
    ensures ReadHeaders(LengthLine(a) + LengthLine(b) + rest, total, length, classify) ==
      ReadHeaders(rest, total + |LengthLine(a)| + |LengthLine(b)|, b, classify)
  {
    var afterA := LengthLine(b) + rest;
    assert LengthLine(a) + LengthLine(b) + rest == LengthLine(a) + afterA;
    ReadLengthLineWith(a, afterA, total, length, classify);
    ReadLengthLineWith(b, rest, total + |LengthLine(a)|, a, classify);
  }

  /** What Write sends, Read takes back: exactly the body, counting every byte, and
      leaving the input after it untouched. */
  lemma ReadFramed(data: string, rest: string)
    requires 0 < |data| <= Strconv.MaxInt32
    ensures Frame(Framed(data) + rest) == Framing(Ok(data), |Framed(data)|, rest)
  {
    var n := |data|;
    assert Framed(data) + rest == LengthLine(n) + ("\r\n" + data + rest);
    ReadLengthLine(n, "\r\n" + data + rest, 0, 0);
    ReadLineSplit("\r", data + rest);
    assert "\r" + "\n" + (data + rest) == "\r\n" + data + rest;
    TrimNewline("\r");
    Strs.TrimSpaceEmpty("\r");
    assert ParseHeaderLine("\r\n") == EndOfHeaders;
    StepEnd("\r\n" + data + rest, 1, |LengthLine(n)|, n, ParseHeaderLine);
    assert (data + rest)[..n] == data && (data + rest)[n..] == rest;
  }

  /** A message written and then read over the same bytes is decoded from its own encoding. */
  lemma WriteThenRead(msg: Message, parse: string -> Option<Json>, serialize: Json -> string, rest: string)
    requires IsCodec(parse, serialize)
    requires var data := serialize(MarshalMessage(msg)); 0 < |data| <= Strconv.MaxInt32
    ensures var f := Frame(Framed(serialize(MarshalMessage(msg))) + rest);
      f.rest == rest && DecodeBody(f.body, parse) ==
        match DecodeMessage(MarshalMessage(msg))
        case Ok(m) => Ok(m)
        case Err(e) => Err(DecodeFailed(e))
  {
    var data := serialize(MarshalMessage(msg));
    ReadFramed(data, rest);
    assert parse(data) == Some(MarshalMessage(msg));
  }
}
