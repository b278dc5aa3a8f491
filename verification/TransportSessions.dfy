/** Whole sessions of requests to a tool server (src/mcp/McpClient.cpp, src/mcp/Transport.cpp). */
module TransportSessions {
  import opened TextLines
  import opened Options
  import opened Sequences
  import opened Transport

  datatype Session = Session(replies: seq<Reply>, read: seq<Message>, wire: Wire, rest: seq<Input>)

  /**
    One request after the other, each with the next id; `writes[k]` says whether request `k` can be sent. A request
    that stays blocked is the last.
   */
  function RunSession(parse: Parse, w: Wire, lastId: int, writes: seq<bool>, inputs: seq<Input>): Session
    decreases |writes|
  {
    if writes == [] then Session([], [], w, inputs)
    else
      var e := Requesting(parse, w, Some(Number(lastId + 1)), writes[0], inputs);
      if e.reply.Blocked? then Session([e.reply], e.read, e.wire, e.rest)
      else
        var s := RunSession(parse, e.wire, lastId + 1, writes[1..], e.rest);
        s.(replies := [e.reply] + s.replies, read := e.read + s.read)
  }

  /** A reply carries the id of its own request. */
  lemma {:induction false} OwnId(parse: Parse, w: Wire, lastId: int, writes: seq<bool>, inputs: seq<Input>)
    ensures var replies := RunSession(parse, w, lastId, writes, inputs).replies;
            |replies| <= |writes|
            && forall k :: 0 <= k < |replies| && replies[k].Success? ==>
                 replies[k].message.id == Some(Number(lastId + 1 + k))
    decreases |writes|
  {
    if writes != [] {
      var want := Some(Number(lastId + 1));
      ReplyIsTheOnlyMatchRead(parse, w, want, inputs);
      var e := Requesting(parse, w, want, writes[0], inputs);
      if !e.reply.Blocked? {
        OwnId(parse, e.wire, lastId + 1, writes[1..], e.rest);
      }
    }
  }

  /** Over a whole session every message of the stream is read once and in order, or is still to be read. */
  lemma {:induction false} SessionConserves(parse: Parse, w: Wire, lastId: int, writes: seq<bool>, inputs: seq<Input>)
    requires parse("").None?
    ensures var s := RunSession(parse, w, lastId, writes, inputs);
            Messages(parse, w.buf + Stream(inputs)) == s.read + Messages(parse, s.wire.buf + Stream(s.rest))
    decreases |writes|
  {
    if writes != [] {
      var want := Some(Number(lastId + 1));
      AwaitingConserves(parse, w, want, inputs);
      var e := Requesting(parse, w, want, writes[0], inputs);
      if !e.reply.Blocked? {
        SessionConserves(parse, e.wire, lastId + 1, writes[1..], e.rest);
        var s := RunSession(parse, e.wire, lastId + 1, writes[1..], e.rest);
        Assoc(e.read, s.read, Messages(parse, s.wire.buf + Stream(s.rest)));
      }
    }
  }

  lemma ReplyIsRead(parse: Parse, w: Wire, want: Option<Id>, written: bool, inputs: seq<Input>)
    ensures var e := Requesting(parse, w, want, written, inputs); e.reply.Success? ==> e.reply.message in e.read
  {
    ReplyIsTheOnlyMatchRead(parse, w, want, inputs);
  }

  /** Every message a session returns is one it has read. */
  lemma {:induction false} RepliesAreRead(parse: Parse, w: Wire, lastId: int, writes: seq<bool>, inputs: seq<Input>, k: nat)
    requires k < |RunSession(parse, w, lastId, writes, inputs).replies|
    ensures var s := RunSession(parse, w, lastId, writes, inputs);
            s.replies[k].Success? ==> s.replies[k].message in s.read
    decreases |writes|
  {
    hide Requesting;
    if writes != [] {
      var want := Some(Number(lastId + 1));
      ReplyIsRead(parse, w, want, writes[0], inputs);
      var e := Requesting(parse, w, want, writes[0], inputs);
      if !e.reply.Blocked? && k > 0 {
        RepliesAreRead(parse, e.wire, lastId + 1, writes[1..], e.rest, k - 1);
      }
    }
  }

  /** Every message of the stream that bears an id answers the request with that id, by number. */
  ghost predicate Honest(stream: seq<Message>, answered: nat -> int) {
    forall q :: 0 <= q < |stream| && stream[q].id.Some? ==> stream[q].id == Some(Number(answered(q)))
  }

  /**
    Where every message that bears an id answers the request with that id, the message returned for a request is in
    the stream, and wherever it is there it answers that request and no other: a late answer to a request that has
    timed out is never returned for a later one, over any session, chunking, junk and failures.
   */
  lemma LateAnswersAreDropped(parse: Parse, w: Wire, lastId: int, writes: seq<bool>, inputs: seq<Input>,
                              answered: nat -> int, k: nat, j: nat)
    requires parse("").None? && Honest(Messages(parse, w.buf + Stream(inputs)), answered)
    requires var replies := RunSession(parse, w, lastId, writes, inputs).replies;
             k < |replies| && replies[k].Success?
    ensures var reply := RunSession(parse, w, lastId, writes, inputs).replies[k].message;
            var stream := Messages(parse, w.buf + Stream(inputs));
            && reply in stream
            && forall q :: 0 <= q < |stream| && stream[q] == reply ==> (answered(q) == lastId + 1 + j <==> j == k)
  {
    OwnId(parse, w, lastId, writes, inputs);
    RepliesAreRead(parse, w, lastId, writes, inputs, k);
    SessionConserves(parse, w, lastId, writes, inputs);
  }

  const FIRST := Message(Some(Number(1)), "")
  const SECOND := Message(Some(Number(2)), "")
  const BOTH := "1\n2\n"

  lemma TwoMessages(parse: Parse)
    requires parse("1") == Some(FIRST) && parse("2") == Some(SECOND)
    ensures Messages(parse, BOTH) == [FIRST, SECOND]
  {
    assert Messages(parse, "") == [];
    hide Messages;
    EndTheLine(parse, "2", "");
    assert "2" + ("\n" + "") == "2\n";
    EndTheLine(parse, "1", "2\n");
    assert "1" + ("\n" + "2\n") == BOTH;
  }

  lemma StreamOfBoth()
    ensures "" + Stream([Data(BOTH)]) == BOTH && "" + Stream([TimedOut, Data(BOTH)]) == BOTH
  {
    var late := [Data(BOTH)];
    assert late[1..] == [] && [TimedOut, Data(BOTH)][1..] == late;
    assert Stream([]) == "" && Stream(late) == BOTH + "" == BOTH;
    assert Stream([TimedOut, Data(BOTH)]) == "" + BOTH;
  }

  lemma SecondIsReturned(parse: Parse, w: Wire)
    requires parse("").None? && parse("1") == Some(FIRST) && parse("2") == Some(SECOND) && w.buf == ""
    ensures Awaiting(parse, w, Some(Number(2)), [Data(BOTH)]).reply == Success(SECOND)
  {
    hide Awaiting, Messages, Stream;
    StreamOfBoth();
    TwoMessages(parse);
    ReplyIsTheFirstMatch(parse, w, Some(Number(2)), [Data(BOTH)]);
    assert SECOND in [FIRST, SECOND] && Matches(SECOND, Some(Number(2)));
  }

  lemma FirstTimesOut(parse: Parse, late: seq<Input>)
    ensures Awaiting(parse, Wire("", ""), Some(Number(1)), [TimedOut] + late)
            == Exchange(Error(TIMED_OUT), [], Wire("", TIMED_OUT), late)
  {
    assert ([TimedOut] + late)[1..] == late;
  }

  lemma OneRequest(parse: Parse, w: Wire, lastId: int, inputs: seq<Input>)
    ensures RunSession(parse, w, lastId, [true], inputs).replies
            == [Awaiting(parse, w, Some(Number(lastId + 1)), inputs).reply]
  {
    hide Awaiting;
    assert [true][1..] == [];
  }

  /**
    A first request times out; the second skips the late answer to it, which comes in one read with its own. The
    stream is honest.
   */
  lemma LateAnswerIsSkipped(parse: Parse)
    requires parse("").None? && parse("1") == Some(FIRST) && parse("2") == Some(SECOND)
    ensures RunSession(parse, Wire("", ""), 0, [true, true], [TimedOut, Data(BOTH)]).replies
            == [Error(TIMED_OUT), Success(SECOND)]
    ensures Honest(Messages(parse, "" + Stream([TimedOut, Data(BOTH)])), q => q + 1)
  {
    hide Awaiting, Messages, Stream;
    var late := [Data(BOTH)];
    assert [TimedOut, Data(BOTH)] == [TimedOut] + late && [true, true][1..] == [true];
    FirstTimesOut(parse, late);
    SecondIsReturned(parse, Wire("", TIMED_OUT));
    OneRequest(parse, Wire("", TIMED_OUT), 1, late);
    StreamOfBoth();
    TwoMessages(parse);
  }

  // ----- which failure is reported -----

  /** The error text a failed input leaves behind, or the empty text if it is none. */
  function FailureText(input: Input): string {
    match input
    case TimedOut => TIMED_OUT
    case PollFailed(why) => POLL_FAILED + why
    case ReadFailed(why) => READ_FAILED + why
    case _ => ""
  }

  /** The text of the last failure among the inputs, or `before` if there is none. */
  function LastFailure(before: string, inputs: seq<Input>): string
    decreases |inputs|
  {
    if inputs == [] then before
    else LastFailure(if FailureText(inputs[0]) == "" then before else FailureText(inputs[0]), inputs[1..])
  }

  predicate NoFailure(inputs: seq<Input>) {
    forall i :: 0 <= i < |inputs| ==> FailureText(inputs[i]) == ""
  }

  /** `rest` is what is left of `inputs` behind the first `n`. */
  predicate IsRest(rest: seq<Input>, inputs: seq<Input>, n: int) {
    0 <= n <= |inputs| && rest == inputs[n..]
  }

  function Used(inputs: seq<Input>, rest: seq<Input>): int {
    |inputs| - |rest|
  }

  lemma {:induction false} LastFailureConcat(before: string, a: seq<Input>, b: seq<Input>)
    ensures LastFailure(before, a + b) == LastFailure(LastFailure(before, a), b)
    decreases |a|
  {
    hide FailureText;
    if a == [] {
      assert a + b == b;
    } else {
      LastFailureConcat(if FailureText(a[0]) == "" then before else FailureText(a[0]), a[1..], b);
      assert (a + b)[0] == a[0] && (a + b)[1..] == a[1..] + b;
    }
  }

  /** Inputs used in two parts. */
  lemma UsedTwice(before: string, inputs: seq<Input>, middle: seq<Input>, rest: seq<Input>)
    requires IsRest(middle, inputs, Used(inputs, middle)) && IsRest(rest, middle, Used(middle, rest))
    ensures IsRest(rest, inputs, Used(inputs, rest))
    ensures LastFailure(before, inputs[..Used(inputs, rest)])
            == LastFailure(LastFailure(before, inputs[..Used(inputs, middle)]), middle[..Used(middle, rest)])
  {
    hide LastFailure;
    var n, m := Used(inputs, middle), Used(middle, rest);
    DropTwice(inputs, n, n + m);
    TakeInParts(inputs, n, n + m);
    LastFailureConcat(before, inputs[..n], middle[..m]);
  }

  /** The stored error is the text of the last failure among the inputs used. */
  ghost predicate Records(w: Wire, inputs: seq<Input>, after: Wire, rest: seq<Input>) {
    IsRest(rest, inputs, Used(inputs, rest)) && after.lastError == LastFailure(w.lastError, inputs[..Used(inputs, rest)])
  }

  lemma NothingUsed(w: Wire, after: Wire, inputs: seq<Input>)
    requires after.lastError == w.lastError
    ensures Records(w, inputs, after, inputs)
  {
    assert inputs[..0] == [];
  }

  lemma OneUsed(w: Wire, after: Wire, inputs: seq<Input>)
    requires inputs != []
    requires after.lastError == if FailureText(inputs[0]) == "" then w.lastError else FailureText(inputs[0])
    ensures Records(w, inputs, after, inputs[1..])
  {
    assert inputs[..1] == [inputs[0]] && [inputs[0]][1..] == [];
  }

  lemma RecordsTrans(w: Wire, inputs: seq<Input>, middle: Wire, between: seq<Input>, after: Wire, rest: seq<Input>)
    requires Records(w, inputs, middle, between) && Records(middle, between, after, rest)
    ensures Records(w, inputs, after, rest)
  {
    UsedTwice(w.lastError, inputs, between, rest);
  }

  lemma {:induction false} ReadingRecords(parse: Parse, w: Wire, inputs: seq<Input>)
    ensures var r := Reading(parse, w, inputs); Records(w, inputs, r.wire, r.rest)
    decreases |inputs|, |w.buf|
  {
    var k, r := FirstNewline(w.buf), Reading(parse, w, inputs);
    if k < |w.buf| {
      if parse(w.buf[..k]).Some? {
        NothingUsed(w, r.wire, inputs);
      } else {
        ReadingRecords(parse, w.(buf := w.buf[k + 1..]), inputs);
      }
    } else if inputs == [] {
      NothingUsed(w, r.wire, inputs);
    } else if Continues(inputs[0]) {
      ReadingContinues(parse, w, inputs);
      var after := w.(buf := w.buf + Bytes(inputs[0]));
      ReadingRecords(parse, after, inputs[1..]);
      OneUsed(w, after, inputs);
      RecordsTrans(w, inputs, after, inputs[1..], r.wire, r.rest);
    } else {
      OneUsed(w, r.wire, inputs);
    }
  }

  lemma {:induction false} AwaitingRecords(parse: Parse, w: Wire, want: Option<Id>, inputs: seq<Input>)
    ensures var e := Awaiting(parse, w, want, inputs);
            Records(w, inputs, e.wire, e.rest) && (e.reply.Error? ==> e.reply == Failure(e.wire))
    decreases |inputs|, |w.buf|
  {
    ReadingRecords(parse, w, inputs);
    var r := Reading(parse, w, inputs);
    if r.outcome.Got? && !Matches(r.outcome.message, want) {
      AwaitingRecords(parse, r.wire, want, r.rest);
      var e := Awaiting(parse, r.wire, want, r.rest);
      RecordsTrans(w, inputs, r.wire, r.rest, e.wire, e.rest);
    }
  }

  lemma {:induction false} SessionRecords(parse: Parse, w: Wire, lastId: int, writes: seq<bool>, inputs: seq<Input>)
    ensures var s := RunSession(parse, w, lastId, writes, inputs); Records(w, inputs, s.wire, s.rest)
    decreases |writes|
  {
    if writes == [] {
      NothingUsed(w, w, inputs);
    } else {
      var want := Some(Number(lastId + 1));
      AwaitingRecords(parse, w, want, inputs);
      NothingUsed(w, w, inputs);
      var e := Requesting(parse, w, want, writes[0], inputs);
      if !e.reply.Blocked? {
        SessionRecords(parse, e.wire, lastId + 1, writes[1..], e.rest);
        var s := RunSession(parse, e.wire, lastId + 1, writes[1..], e.rest);
        RecordsTrans(w, inputs, e.wire, e.rest, s.wire, s.rest);
      }
    }
  }

  lemma {:induction false} LastFailureIff(before: string, inputs: seq<Input>)
    requires before != CLOSED
    ensures LastFailure(before, inputs) == "" <==> before == "" && NoFailure(inputs)
    ensures LastFailure(before, inputs) != CLOSED
    decreases |inputs|
  {
    if inputs != [] {
      var text := FailureText(inputs[0]);
      FailureIsNotClosed(inputs[0]);
      LastFailureIff(if text == "" then before else text, inputs[1..]);
      assert NoFailure(inputs) <==> text == "" && NoFailure(inputs[1..]) by {
        assert forall i :: 1 <= i < |inputs| ==> inputs[i] == inputs[1..][i - 1];
      }
    }
  }

  lemma FailureIsNotClosed(input: Input)
    ensures FailureText(input) != CLOSED
  {
    assert CLOSED[5] == 's' && TIMED_OUT[5] == 't' && POLL_FAILED[5] == 'p' && READ_FAILED[5] == 'r';
  }

  /**
    Over any session from the opening of the transport: the request that comes next, if it can be sent and then
    fails, reports the last failure of any read since the opening. So a closed connection is reported as such if and
    only if no read of the transport has ever failed, this request's own reads included.
   */
  lemma ClosedIsReportedIff(parse: Parse, lastId: int, writes: seq<bool>, inputs: seq<Input>, want: Option<Id>)
    ensures var s := RunSession(parse, Wire("", ""), lastId, writes, inputs);
            var e := Awaiting(parse, s.wire, want, s.rest);
            && IsRest(e.rest, inputs, Used(inputs, e.rest))
            && var used := inputs[..Used(inputs, e.rest)];
               e.reply.Error? ==>
                 && e.reply.text == (if NoFailure(used) then CLOSED else LastFailure("", used))
                 && (e.reply == Error(CLOSED) <==> NoFailure(used))
  {
    var start := Wire("", "");
    var s := RunSession(parse, start, lastId, writes, inputs);
    var e := Awaiting(parse, s.wire, want, s.rest);
    SessionRecords(parse, start, lastId, writes, inputs);
    AwaitingRecords(parse, s.wire, want, s.rest);
    RecordsTrans(start, inputs, s.wire, s.rest, e.wire, e.rest);
    LastFailureIff("", inputs[..Used(inputs, e.rest)]);
  }

  /** A timeout, then the connection is closed: the second request reports the timeout again. */
  lemma StaleError(parse: Parse)
    ensures RunSession(parse, Wire("", ""), 0, [true, true], [TimedOut, Data("")]).replies
            == [Error(TIMED_OUT), Error(TIMED_OUT)]
  {
    var w, inputs := Wire("", ""), [TimedOut, Data("")];
    assert Awaiting(parse, w, Some(Number(1)), inputs) == Exchange(Error(TIMED_OUT), [], w.(lastError := TIMED_OUT), [Data("")]);
    var e := Awaiting(parse, w.(lastError := TIMED_OUT), Some(Number(2)), [Data("")]);
    assert e.reply == Error(TIMED_OUT);
    assert [true, true][1..] == [true] && [true][1..] == [];
    assert RunSession(parse, w.(lastError := TIMED_OUT), 1, [true], [Data("")]).replies == [e.reply];
  }
}
