/** The stdio channel to a tool server: reply lines and request ids (src/mcp/Transport.cpp, src/mcp/McpClient.hpp). */
module Transport {
  import opened Sequences
  import opened TextLines
  import opened Framing
  import opened Options

  datatype Id = Number(n: int) | Text(s: string) | Null

  datatype Message = Message(id: Option<Id>, body: string)

  /** A line's message, or None if it is no JSON. */
  type Parse = string -> Option<Message>

  /** What the operating system answers to one round of waiting and reading; reading no bytes means end of file. */
  datatype Input =
    | Data(bytes: string)
    | TimedOut
    | PollInterrupted
    | PollFailed(why: string)
    | ReadInterrupted
    | ReadFailed(why: string)

  /** The transport's own state. */
  datatype Wire = Wire(buf: string, lastError: string)

  const TIMED_OUT := "mcp: timed out waiting for the server"
  const POLL_FAILED := "mcp: poll failed: "
  const READ_FAILED := "mcp: read failed: "
  const WRITE_FAILED := "mcp: write to server failed"
  const CLOSED := "mcp: server closed the connection"

  // ----- reading one message -----

  /** Waiting means that the inputs ran out while the call was still blocked. */
  datatype Outcome = Got(message: Message) | Failed | Waiting

  datatype Read = Read(outcome: Outcome, wire: Wire, rest: seq<Input>)

  function Reading(parse: Parse, w: Wire, inputs: seq<Input>): (r: Read)
    ensures r.outcome.Got? ==> |r.rest| < |inputs| || (r.rest == inputs && |r.wire.buf| < |w.buf|)
    decreases |inputs|, |w.buf|
  {
    var k := FirstNewline(w.buf);
    if k < |w.buf| then
      var after := w.(buf := w.buf[k + 1..]);
      var m := parse(w.buf[..k]);
      if m.Some? then Read(Got(m.value), after, inputs) else Reading(parse, after, inputs)
    else if inputs == [] then Read(Waiting, w, [])
    else
      var rest := inputs[1..];
      match inputs[0]
      case TimedOut => Read(Failed, w.(lastError := TIMED_OUT), rest)
      case PollInterrupted => Reading(parse, w, rest)
      case PollFailed(why) => Read(Failed, w.(lastError := POLL_FAILED + why), rest)
      case ReadInterrupted => Reading(parse, w, rest)
      case ReadFailed(why) => Read(Failed, w.(lastError := READ_FAILED + why), rest)
      case Data(bytes) =>
        if bytes != "" then Reading(parse, w.(buf := w.buf + bytes), rest)
        else if w.buf != "" && parse(w.buf).Some? then Read(Got(parse(w.buf).value), w.(buf := ""), rest)
        else Read(Failed, w.(buf := ""), rest)
  }

  // ----- one request -----

  datatype Reply = Success(message: Message) | Error(text: string) | Blocked

  /** A request's reply, every message that was read for it, and what is left. */
  datatype Exchange = Exchange(reply: Reply, read: seq<Message>, wire: Wire, rest: seq<Input>)

  /** A request without an id takes any message. */
  predicate Matches(m: Message, want: Option<Id>) {
    want.Some? ==> m.id == want
  }

  function Failure(w: Wire): Reply {
    Error(if w.lastError == "" then CLOSED else w.lastError)
  }

  function Awaiting(parse: Parse, w: Wire, want: Option<Id>, inputs: seq<Input>): Exchange
    decreases |inputs|, |w.buf|
  {
    var r := Reading(parse, w, inputs);
    match r.outcome
    case Waiting => Exchange(Blocked, [], r.wire, r.rest)
    case Failed => Exchange(Failure(r.wire), [], r.wire, r.rest)
    case Got(m) =>
      if Matches(m, want) then Exchange(Success(m), [m], r.wire, r.rest)
      else
        var e := Awaiting(parse, r.wire, want, r.rest);
        e.(read := [m] + e.read)
  }

  function Requesting(parse: Parse, w: Wire, want: Option<Id>, written: bool, inputs: seq<Input>): Exchange {
    if written then Awaiting(parse, w, want, inputs) else Exchange(Error(WRITE_FAILED), [], w, inputs)
  }

  class StdioTransport {
    const parse: Parse
    var buf: string
    var lastError: string

    function State(): Wire
      reads this
    {
      Wire(buf, lastError)
    }

    constructor (parse: Parse)
      ensures this.parse == parse && State() == Wire("", "")
    {
      this.parse := parse;
      buf, lastError := "", "";
    }

    method ReadLine(inputs: seq<Input>) returns (outcome: Outcome, rest: seq<Input>)
      modifies this
      ensures Read(outcome, State(), rest) == Reading(parse, old(State()), inputs)
    {
      hide FirstNewline;
      rest := inputs;
      while true
        invariant Reading(parse, State(), rest) == Reading(parse, old(State()), inputs)
        decreases |rest|, |buf|
      {
        var nl := FirstNewline(buf);
        if nl < |buf| {
          var line := buf[..nl];
          buf := buf[nl + 1..];
          var m := parse(line);
          if m.None? {
            continue;
          }
          return Got(m.value), rest;
        }
        if rest == [] {
          return Waiting, rest;
        }
        var input := rest[0];
        rest := rest[1..];
        match input {
          case TimedOut =>
            lastError := TIMED_OUT;
            return Failed, rest;
          case PollInterrupted =>
          case PollFailed(why) =>
            lastError := POLL_FAILED + why;
            return Failed, rest;
          case ReadInterrupted =>
          case ReadFailed(why) =>
            lastError := READ_FAILED + why;
            return Failed, rest;
          case Data(bytes) =>
            if bytes == "" {
              if buf != "" {
                var m := parse(buf);
                buf := "";
                if m.Some? {
                  return Got(m.value), rest;
                }
              }
              return Failed, rest;
            }
            buf := buf + bytes;
        }
      }
    }

    /** `written` says whether sending the request line succeeds. */
    method Request(want: Option<Id>, written: bool, inputs: seq<Input>)
      returns (reply: Reply, ghost read: seq<Message>, rest: seq<Input>)
      modifies this
      ensures Exchange(reply, read, State(), rest) == Requesting(parse, old(State()), want, written, inputs)
    {
      read, rest := [], inputs;
      if !written {
        return Error(WRITE_FAILED), read, rest;
      }
      ghost var goal := Awaiting(parse, State(), want, inputs);
      while true
        invariant GoesOn(goal, Awaiting(parse, State(), want, rest), read)
        decreases |rest|, |buf|
      {
        ghost var left := Awaiting(parse, State(), want, rest);
        var outcome;
        outcome, rest := ReadLine(rest);
        match outcome {
          case Waiting =>
            return Blocked, read, rest;
          case Failed =>
            return Error(if lastError == "" then CLOSED else lastError), read, rest;
          case Got(m) =>
            if want.None? || m.id == want {
              return Success(m), read + [m], rest;
            }
            Assoc(read, [m], Awaiting(parse, State(), want, rest).read);
            read := read + [m];
        }
      }
    }
  }

  ghost predicate GoesOn(goal: Exchange, left: Exchange, read: seq<Message>) {
    goal == left.(read := read + left.read)
  }

  // ----- no message is lost, doubled or reordered -----

  function Parsed(parse: Parse, lines: seq<string>): seq<Message> {
    if lines == [] then []
    else if parse(lines[0]).Some? then [parse(lines[0]).value] + Parsed(parse, lines[1..])
    else Parsed(parse, lines[1..])
  }

  /** The messages of a byte stream: its complete lines that parse. */
  function Messages(parse: Parse, s: string): seq<Message> {
    Parsed(parse, Complete(s))
  }

  /** The bytes of the inputs; the end of file ends the line before it. */
  function Bytes(input: Input): string {
    match input
    case Data(bytes) => if bytes == "" then "\n" else bytes
    case _ => ""
  }

  function Stream(inputs: seq<Input>): string {
    if inputs == [] then "" else Bytes(inputs[0]) + Stream(inputs[1..])
  }

  function Found(o: Outcome): seq<Message> {
    if o.Got? then [o.message] else []
  }

  lemma ParsedCons(parse: Parse, line: string, more: seq<string>)
    ensures Parsed(parse, [line] + more)
            == (if parse(line).Some? then [parse(line).value] else []) + Parsed(parse, more)
  {
    assert ([line] + more)[1..] == more;
  }

  lemma TakeFirstLine(parse: Parse, buf: string, k: nat, more: string)
    requires k == FirstNewline(buf) < |buf|
    ensures Messages(parse, buf + more)
            == (if parse(buf[..k]).Some? then [parse(buf[..k]).value] else []) + Messages(parse, buf[k + 1..] + more)
  {
    var line, tail := buf[..k], Complete(buf[k + 1..] + more);
    calc {
      Messages(parse, buf + more);
      { Peel(buf, more); }
      Parsed(parse, [line] + tail);
      { ParsedCons(parse, line, tail); }
      (if parse(line).Some? then [parse(line).value] else []) + Parsed(parse, tail);
    }
  }

  lemma EndTheLine(parse: Parse, line: string, more: string)
    requires NoNewline(line)
    ensures Messages(parse, line + ("\n" + more))
            == (if parse(line).Some? then [parse(line).value] else []) + Messages(parse, more)
  {
    FirstNewlineIs(line, "");
    var ended := line + "\n";
    assert line + "\n" + "" == ended && ended[..|line|] == line && ended[|line| + 1..] + more == more;
    TakeFirstLine(parse, ended, |line|, more);
    Assoc(line, "\n", more);
  }

  lemma StreamCons(buf: string, inputs: seq<Input>)
    requires inputs != []
    ensures buf + Stream(inputs) == (buf + Bytes(inputs[0])) + Stream(inputs[1..])
  {
    Assoc(buf, Bytes(inputs[0]), Stream(inputs[1..]));
  }

  lemma EndOfFileConserves(parse: Parse, w: Wire, inputs: seq<Input>)
    requires parse("").None? && FirstNewline(w.buf) == |w.buf| && inputs != [] && inputs[0] == Data("")
    ensures var r := Reading(parse, w, inputs);
            Messages(parse, w.buf + Stream(inputs)) == Found(r.outcome) + Messages(parse, r.wire.buf + Stream(r.rest))
  {
    var rest := inputs[1..];
    assert w.buf[..|w.buf|] == w.buf;
    EndTheLine(parse, w.buf, Stream(rest));
    assert "" + Stream(rest) == Stream(rest);
  }

  /** Inputs that do not end the read. */
  predicate Continues(input: Input) {
    match input
    case Data(bytes) => bytes != ""
    case PollInterrupted => true
    case ReadInterrupted => true
    case _ => false
  }

  lemma FailureConserves(parse: Parse, w: Wire, inputs: seq<Input>)
    requires FirstNewline(w.buf) == |w.buf| && inputs != [] && inputs[0] != Data("") && !Continues(inputs[0])
    ensures var r := Reading(parse, w, inputs);
            r.outcome.Failed? && w.buf + Stream(inputs) == r.wire.buf + Stream(r.rest)
  {
    StreamCons(w.buf, inputs);
    assert w.buf + "" == w.buf;
  }

  lemma ReadingContinues(parse: Parse, w: Wire, inputs: seq<Input>)
    requires FirstNewline(w.buf) == |w.buf| && inputs != [] && Continues(inputs[0])
    ensures Reading(parse, w, inputs) == Reading(parse, w.(buf := w.buf + Bytes(inputs[0])), inputs[1..])
  {
    assert w.buf + "" == w.buf;
  }

  /** What a read takes from the stream is what it returns, and the rest of the stream is still to be read. */
  lemma {:induction false} ReadingConserves(parse: Parse, w: Wire, inputs: seq<Input>)
    requires parse("").None?
    ensures var r := Reading(parse, w, inputs);
            Messages(parse, w.buf + Stream(inputs)) == Found(r.outcome) + Messages(parse, r.wire.buf + Stream(r.rest))
    decreases |inputs|, |w.buf|
  {
    var k := FirstNewline(w.buf);
    if k < |w.buf| {
      TakeFirstLine(parse, w.buf, k, Stream(inputs));
      if parse(w.buf[..k]).None? {
        ReadingConserves(parse, w.(buf := w.buf[k + 1..]), inputs);
      }
    } else if inputs != [] {
      if inputs[0] == Data("") {
        EndOfFileConserves(parse, w, inputs);
      } else if Continues(inputs[0]) {
        ReadingContinues(parse, w, inputs);
        StreamCons(w.buf, inputs);
        ReadingConserves(parse, w.(buf := w.buf + Bytes(inputs[0])), inputs[1..]);
      } else {
        FailureConserves(parse, w, inputs);
      }
    }
  }

  /** The same for a whole request: `read` is the front of the stream. */
  lemma {:induction false} AwaitingConserves(parse: Parse, w: Wire, want: Option<Id>, inputs: seq<Input>)
    requires parse("").None?
    ensures var e := Awaiting(parse, w, want, inputs);
            Messages(parse, w.buf + Stream(inputs)) == e.read + Messages(parse, e.wire.buf + Stream(e.rest))
    decreases |inputs|, |w.buf|
  {
    ReadingConserves(parse, w, inputs);
    var r := Reading(parse, w, inputs);
    if r.outcome.Got? && !Matches(r.outcome.message, want) {
      AwaitingConserves(parse, r.wire, want, r.rest);
      var e := Awaiting(parse, r.wire, want, r.rest);
      Assoc([r.outcome.message], e.read, Messages(parse, e.wire.buf + Stream(e.rest)));
    }
  }

  /** A request returns the first message it reads that matches, and skips only messages that do not. */
  lemma {:induction false} ReplyIsTheOnlyMatchRead(parse: Parse, w: Wire, want: Option<Id>, inputs: seq<Input>)
    ensures var e := Awaiting(parse, w, want, inputs);
            && (forall i :: 0 <= i < |e.read| - 1 ==> !Matches(e.read[i], want))
            && (e.reply.Success? ==>
                  e.read != [] && e.read[|e.read| - 1] == e.reply.message && Matches(e.reply.message, want))
            && (!e.reply.Success? && e.read != [] ==> !Matches(e.read[|e.read| - 1], want))
    decreases |inputs|, |w.buf|
  {
    var r := Reading(parse, w, inputs);
    if r.outcome.Got? && !Matches(r.outcome.message, want) {
      ReplyIsTheOnlyMatchRead(parse, r.wire, want, r.rest);
    }
  }

  // ----- without failures, the reply is determined by the stream alone -----

  /** Bytes keep arriving: neither failure nor end of file. */
  predicate Flowing(inputs: seq<Input>) {
    forall i :: 0 <= i < |inputs| ==> Continues(inputs[i])
  }

  lemma {:induction false} FlowingReads(parse: Parse, w: Wire, inputs: seq<Input>)
    requires Flowing(inputs)
    ensures var r := Reading(parse, w, inputs);
            && !r.outcome.Failed? && Flowing(r.rest)
            && (r.outcome.Waiting? ==> r.rest == [] && FirstNewline(r.wire.buf) == |r.wire.buf|)
    decreases |inputs|, |w.buf|
  {
    hide FirstNewline;
    var k := FirstNewline(w.buf);
    if k < |w.buf| {
      if parse(w.buf[..k]).None? {
        FlowingReads(parse, w.(buf := w.buf[k + 1..]), inputs);
      }
    } else if inputs != [] {
      var after := if inputs[0].Data? then w.(buf := w.buf + inputs[0].bytes) else w;
      FlowingReads(parse, after, inputs[1..]);
    }
  }

  lemma {:induction false} FlowingAwaits(parse: Parse, w: Wire, want: Option<Id>, inputs: seq<Input>)
    requires Flowing(inputs)
    ensures var e := Awaiting(parse, w, want, inputs);
            && !e.reply.Error?
            && (e.reply.Blocked? ==> e.rest == [] && FirstNewline(e.wire.buf) == |e.wire.buf|)
    decreases |inputs|, |w.buf|
  {
    FlowingReads(parse, w, inputs);
    var r := Reading(parse, w, inputs);
    if r.outcome.Got? && !Matches(r.outcome.message, want) {
      FlowingAwaits(parse, r.wire, want, r.rest);
    }
  }

  lemma NothingLeft(parse: Parse, buf: string)
    requires FirstNewline(buf) == |buf|
    ensures Messages(parse, buf + Stream([])) == []
  {
    assert buf + "" == buf;
  }

  predicate FirstMatch(all: seq<Message>, k: nat, want: Option<Id>) {
    k < |all| && Matches(all[k], want) && forall i :: 0 <= i < k ==> !Matches(all[i], want)
  }

  /**
    However the bytes are cut into reads, and whatever else is among them, the reply is the first message of the
    stream that matches; the request stays blocked exactly as long as there is none.
   */
  lemma ReplyIsTheFirstMatch(parse: Parse, w: Wire, want: Option<Id>, inputs: seq<Input>)
    requires parse("").None? && Flowing(inputs)
    ensures var e := Awaiting(parse, w, want, inputs);
            var all := Messages(parse, w.buf + Stream(inputs));
            && !e.reply.Error?
            && (e.reply.Success? ==> exists k: nat :: FirstMatch(all, k, want) && all[k] == e.reply.message)
            && (e.reply.Blocked? <==> forall m :: m in all ==> !Matches(m, want))
  {
    hide Messages, Stream, Awaiting, Flowing;
    var e := Awaiting(parse, w, want, inputs);
    var all := Messages(parse, w.buf + Stream(inputs));
    AwaitingConserves(parse, w, want, inputs);
    ReplyIsTheOnlyMatchRead(parse, w, want, inputs);
    FlowingAwaits(parse, w, want, inputs);
    assert all[..|e.read|] == e.read;
    if e.reply.Success? {
      var k := |e.read| - 1;
      assert forall i :: 0 <= i <= k ==> all[i] == e.read[i];
      assert FirstMatch(all, k, want);
      assert all[k] in all;
    } else {
      NothingLeft(parse, e.wire.buf);
      assert all == e.read + [];
      assert all == e.read;
    }
  }
}
