/** When a request to a tool server comes back, and with what, for all inputs (src/mcp/Transport.cpp). */
module TransportRequests {
  import opened Options
  import opened Sequences
  import opened TextLines
  import opened Framing
  import opened Transport
  import opened TransportSessions

  /**
    Input number `k` does not end the call with a failure: it brings bytes or is an interruption; or it is the end of
    file behind a last line without a newline that parses, which is then read as a message.
   */
  predicate Quiet(parse: Parse, buf: string, inputs: seq<Input>, k: nat)
    requires k < |inputs|
  {
    Continues(inputs[k])
    || (inputs[k] == Data("") && parse(Remainder(buf + Stream(inputs[..k]))).Some?)
  }

  ghost predicate QuietUpTo(parse: Parse, buf: string, inputs: seq<Input>, n: int) {
    n <= |inputs| && forall k: nat :: k < n ==> Quiet(parse, buf, inputs, k)
  }

  lemma {:induction false} StreamConcat(a: seq<Input>, b: seq<Input>)
    ensures Stream(a + b) == Stream(a) + Stream(b)
    decreases |a|
  {
    if a == [] {
      assert a + b == b;
    } else {
      StreamConcat(a[1..], b);
      assert (a + b)[0] == a[0] && (a + b)[1..] == a[1..] + b;
      Assoc(Bytes(a[0]), Stream(a[1..]), Stream(b));
    }
  }

  /** The two places hold the same unfinished line, so the same inputs are quiet from here on. */
  predicate SameLine(buf: string, inputs: seq<Input>, n: nat, later: string) {
    n <= |inputs| && Remainder(buf + Stream(inputs[..n])) == Remainder(later)
  }

  lemma QuietLater(parse: Parse, buf: string, inputs: seq<Input>, n: nat, later: string, k: nat)
    requires SameLine(buf, inputs, n, later) && n + k < |inputs|
    ensures Quiet(parse, buf, inputs, n + k) <==> Quiet(parse, later, inputs[n..], k)
  {
    hide Stream, Remainder;
    var a, b := inputs[..n], inputs[n..][..k];
    TakeInParts(inputs, n, n + k);
    StreamConcat(a, b);
    Assoc(buf, Stream(a), Stream(b));
    RemainderConcat(buf + Stream(a), Stream(b));
    RemainderConcat(later, Stream(b));
  }

  lemma SameLineTrans(buf: string, inputs: seq<Input>, n: nat, middle: string, m: nat, later: string)
    requires SameLine(buf, inputs, n, middle) && SameLine(middle, inputs[n..], m, later)
    ensures SameLine(buf, inputs, n + m, later)
  {
    hide Stream, Remainder;
    var a, b := inputs[..n], inputs[n..][..m];
    TakeInParts(inputs, n, n + m);
    StreamConcat(a, b);
    Assoc(buf, Stream(a), Stream(b));
    RemainderConcat(buf + Stream(a), Stream(b));
    RemainderConcat(middle, Stream(b));
  }

  lemma QuietInParts(parse: Parse, buf: string, inputs: seq<Input>, n: nat, later: string, m: int)
    requires SameLine(buf, inputs, n, later) && QuietUpTo(parse, buf, inputs, n) && 0 <= m <= |inputs| - n
    ensures QuietUpTo(parse, later, inputs[n..], m) <==> QuietUpTo(parse, buf, inputs, n + m)
  {
    hide SameLine, Quiet;
    forall k: nat | k < m
      ensures Quiet(parse, buf, inputs, n + k) <==> Quiet(parse, later, inputs[n..], k)
    {
      QuietLater(parse, buf, inputs, n, later, k);
    }
    if QuietUpTo(parse, later, inputs[n..], m) {
      forall k: nat | k < n + m
        ensures Quiet(parse, buf, inputs, k)
      {
        assert k >= n ==> Quiet(parse, later, inputs[n..], k - n);
      }
    }
  }

  // ----- one read -----

  /** What has been used up when a read ends. */
  ghost predicate EndsFairly(parse: Parse, buf: string, inputs: seq<Input>, outcome: Outcome, after: string, rest: seq<Input>)
  {
    var n := Used(inputs, rest);
    && IsRest(rest, inputs, n)
    && match outcome
       case Got(_) => QuietUpTo(parse, buf, inputs, n) && SameLine(buf, inputs, n, after)
       case Waiting => rest == [] && QuietUpTo(parse, buf, inputs, n) && NoNewline(after)
       case Failed =>
         n > 0 && QuietUpTo(parse, buf, inputs, n - 1) && !Quiet(parse, buf, inputs, n - 1) && NoNewline(after)
  }

  /** Going on from a later place. */
  lemma FairlyLater(parse: Parse, buf: string, inputs: seq<Input>, n: nat, middle: string, outcome: Outcome,
                    after: string, rest: seq<Input>)
    requires n <= |inputs| && SameLine(buf, inputs, n, middle) && QuietUpTo(parse, buf, inputs, n)
    requires EndsFairly(parse, middle, inputs[n..], outcome, after, rest)
    ensures EndsFairly(parse, buf, inputs, outcome, after, rest)
  {
    hide SameLine, Quiet, QuietUpTo;
    var m := Used(inputs[n..], rest);
    assert Used(inputs, rest) == n + m;
    DropTwice(inputs, n, n + m);
    match outcome {
      case Got(_) =>
        QuietInParts(parse, buf, inputs, n, middle, m);
        SameLineTrans(buf, inputs, n, middle, m, after);
      case Waiting => QuietInParts(parse, buf, inputs, n, middle, m);
      case Failed =>
        QuietInParts(parse, buf, inputs, n, middle, m - 1);
        QuietLater(parse, buf, inputs, n, middle, m - 1);
    }
  }

  lemma NextLineIsLater(parse: Parse, buf: string, inputs: seq<Input>)
    requires FirstNewline(buf) < |buf|
    ensures SameLine(buf, inputs, 0, buf[FirstNewline(buf) + 1..]) && QuietUpTo(parse, buf, inputs, 0)
  {
    assert inputs[..0] == [] && buf + "" == buf;
  }

  lemma MoreBytesAreLater(parse: Parse, buf: string, inputs: seq<Input>)
    requires inputs != [] && Continues(inputs[0])
    ensures SameLine(buf, inputs, 1, buf + Bytes(inputs[0])) && QuietUpTo(parse, buf, inputs, 1)
  {
    var one := inputs[..1];
    assert one[1..] == [] && Stream(one) == Bytes(inputs[0]) + "" == Bytes(inputs[0]);
  }

  lemma EndOfFileEnds(parse: Parse, w: Wire, inputs: seq<Input>)
    requires parse("").None? && FirstNewline(w.buf) == |w.buf| && inputs != [] && inputs[0] == Data("")
    ensures var r := Reading(parse, w, inputs);
            EndsFairly(parse, w.buf, inputs, r.outcome, r.wire.buf, r.rest)
  {
    var one := inputs[..1];
    assert inputs[..0] == [] && w.buf + "" == w.buf && w.buf[..FirstNewline(w.buf)] == w.buf;
    assert one[1..] == [] && Stream(one) == "\n" + "" == "\n";
    FirstNewlineIs(w.buf, "");
    assert w.buf + "\n" + "" == w.buf + "\n" && (w.buf + "\n")[|w.buf| + 1..] == "";
  }

  lemma FailureEnds(parse: Parse, w: Wire, inputs: seq<Input>)
    requires FirstNewline(w.buf) == |w.buf| && inputs != [] && inputs[0] != Data("") && !Continues(inputs[0])
    ensures var r := Reading(parse, w, inputs);
            EndsFairly(parse, w.buf, inputs, r.outcome, r.wire.buf, r.rest)
  {
    assert w.buf[..FirstNewline(w.buf)] == w.buf;
  }

  lemma NothingArrives(parse: Parse, w: Wire)
    requires FirstNewline(w.buf) == |w.buf|
    ensures var r := Reading(parse, w, []);
            EndsFairly(parse, w.buf, [], r.outcome, r.wire.buf, r.rest)
  {
    assert w.buf[..FirstNewline(w.buf)] == w.buf;
  }

  lemma FoundInBuffer(parse: Parse, w: Wire, inputs: seq<Input>)
    requires FirstNewline(w.buf) < |w.buf| && parse(w.buf[..FirstNewline(w.buf)]).Some?
    ensures var r := Reading(parse, w, inputs);
            EndsFairly(parse, w.buf, inputs, r.outcome, r.wire.buf, r.rest)
  {
    NextLineIsLater(parse, w.buf, inputs);
    assert inputs[0..] == inputs;
  }

  lemma {:induction false} ReadingEnds(parse: Parse, w: Wire, inputs: seq<Input>)
    requires parse("").None?
    ensures var r := Reading(parse, w, inputs);
            EndsFairly(parse, w.buf, inputs, r.outcome, r.wire.buf, r.rest)
    decreases |inputs|, |w.buf|
  {
    hide EndsFairly, QuietUpTo, SameLine;
    var k, r := FirstNewline(w.buf), Reading(parse, w, inputs);
    if k < |w.buf| {
      if parse(w.buf[..k]).Some? {
        FoundInBuffer(parse, w, inputs);
      } else {
        NextLineIsLater(parse, w.buf, inputs);
        ReadingEnds(parse, w.(buf := w.buf[k + 1..]), inputs);
        assert inputs[0..] == inputs;
        FairlyLater(parse, w.buf, inputs, 0, w.buf[k + 1..], r.outcome, r.wire.buf, r.rest);
      }
    } else if inputs == [] {
      NothingArrives(parse, w);
    } else if Continues(inputs[0]) {
      ReadingContinues(parse, w, inputs);
      MoreBytesAreLater(parse, w.buf, inputs);
      ReadingEnds(parse, w.(buf := w.buf + Bytes(inputs[0])), inputs[1..]);
      FairlyLater(parse, w.buf, inputs, 1, w.buf + Bytes(inputs[0]), r.outcome, r.wire.buf, r.rest);
    } else if inputs[0] == Data("") {
      EndOfFileEnds(parse, w, inputs);
    } else {
      FailureEnds(parse, w, inputs);
    }
  }

  // ----- one request -----

  function OutcomeOf(reply: Reply): Outcome {
    match reply
    case Success(m) => Got(m)
    case Error(_) => Failed
    case Blocked => Waiting
  }

  lemma {:induction false} AwaitingEnds(parse: Parse, w: Wire, want: Option<Id>, inputs: seq<Input>)
    requires parse("").None?
    ensures var e := Awaiting(parse, w, want, inputs);
            EndsFairly(parse, w.buf, inputs, OutcomeOf(e.reply), e.wire.buf, e.rest)
    decreases |inputs|, |w.buf|
  {
    hide Reading, QuietUpTo, SameLine, Quiet, Stream;
    ReadingEnds(parse, w, inputs);
    var r := Reading(parse, w, inputs);
    if r.outcome.Got? && !Matches(r.outcome.message, want) {
      var e := Awaiting(parse, r.wire, want, r.rest);
      AwaitingEnds(parse, r.wire, want, r.rest);
      FairlyLater(parse, w.buf, inputs, Used(inputs, r.rest), r.wire.buf, OutcomeOf(e.reply), e.wire.buf, e.rest);
    }
  }

  predicate Answers(m: Message, want: Option<Id>) {
    want == None || m.id == want
  }

  predicate NoAnswer(ms: seq<Message>, want: Option<Id>) {
    forall i :: 0 <= i < |ms| ==> !Answers(ms[i], want)
  }

  /** The exchange succeeds with the first message of the stream that answers, before any failure. */
  ghost predicate Succeeds(parse: Parse, w: Wire, want: Option<Id>, inputs: seq<Input>, e: Exchange) {
    var n := |e.read| - 1;
    && e.reply.Success? && QuietUpTo(parse, w.buf, inputs, Used(inputs, e.rest))
    && n >= 0 && e.read[n] == e.reply.message && Answers(e.read[n], want) && NoAnswer(e.read[..n], want)
  }

  /** The exchange fails with the first input that is not quiet, when everything that had come was no answer. */
  ghost predicate Fails(parse: Parse, w: Wire, want: Option<Id>, inputs: seq<Input>, e: Exchange) {
    var n := Used(inputs, e.rest);
    && 0 < n <= |inputs| && QuietUpTo(parse, w.buf, inputs, n - 1) && !Quiet(parse, w.buf, inputs, n - 1)
    && NoNewline(e.wire.buf) && NoAnswer(e.read, want)
    && var last := LastFailure(w.lastError, inputs[..n]);
       e.reply == Error(if last == "" then CLOSED else last)
  }

  /** The exchange waits for ever: everything was quiet and is used up, and nothing was an answer. */
  ghost predicate Waits(parse: Parse, w: Wire, want: Option<Id>, inputs: seq<Input>, e: Exchange) {
    && e.reply.Blocked? && e.rest == [] && QuietUpTo(parse, w.buf, inputs, |inputs|)
    && e.read == Messages(parse, w.buf + Stream(inputs)) && NoAnswer(e.read, want)
  }

  /**
    Every request, from any state and for all inputs, ends in one of these three ways, and what it has read is the
    front of the stream.
   */
  lemma RequestComesBack(parse: Parse, w: Wire, want: Option<Id>, inputs: seq<Input>)
    requires parse("").None?
    ensures var e := Awaiting(parse, w, want, inputs);
            && IsRest(e.rest, inputs, Used(inputs, e.rest)) && e.read <= Messages(parse, w.buf + Stream(inputs))
            && (Succeeds(parse, w, want, inputs, e) || Fails(parse, w, want, inputs, e) || Waits(parse, w, want, inputs, e))
  {
    hide Awaiting, Messages, Stream, Quiet, QuietUpTo, SameLine, LastFailure;
    var e := Awaiting(parse, w, want, inputs);
    AwaitingEnds(parse, w, want, inputs);
    AwaitingConserves(parse, w, want, inputs);
    AwaitingRecords(parse, w, want, inputs);
    ReplyIsTheOnlyMatchRead(parse, w, want, inputs);
    if e.reply.Blocked? {
      FirstNewlineIs(e.wire.buf, "");
      NothingLeft(parse, e.wire.buf);
    }
  }

  /** A request that cannot be sent fails at once, and reads nothing. */
  lemma UnsentRequestFails(parse: Parse, w: Wire, want: Option<Id>, inputs: seq<Input>)
    ensures Requesting(parse, w, want, false, inputs) == Exchange(Error("mcp: write to server failed"), [], w, inputs)
    ensures Requesting(parse, w, want, true, inputs) == Awaiting(parse, w, want, inputs)
  {
  }

  /** So a request whose inputs contain a failure, or an end of file that brings no message, comes back. */
  lemma NeverBlockedByFailure(parse: Parse, w: Wire, want: Option<Id>, inputs: seq<Input>, k: nat)
    requires parse("").None? && k < |inputs| && !Quiet(parse, w.buf, inputs, k)
    ensures !Awaiting(parse, w, want, inputs).reply.Blocked?
  {
    hide Awaiting, Messages, Stream, Quiet;
    RequestComesBack(parse, w, want, inputs);
  }
}
