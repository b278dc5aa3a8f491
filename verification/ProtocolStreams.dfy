/** From the bytes of the replies to what the user sees: the stream parser and the two threads put together. */
module ProtocolStreams {
  import opened Conversation
  import opened Screens
  import opened Protocol
  import opened ProtocolSafety
  import opened ProtocolProgress
  import opened ProtocolView
  import opened ProtocolAgent
  import ChatResponse
  import Framing
  import Agents

  type Parser = ChatResponse.Parser

  // ----- a stream as pieces -----

  function PieceOf(c: ChatResponse.Callback): Piece {
    match c
    case OnContent(text) => Content(text)
    case OnReasoning(text) => Thought(text)
  }

  /** What the worker is told of a stream, callback by callback. */
  function PiecesOf(callbacks: seq<ChatResponse.Callback>): seq<Piece> {
    seq(|callbacks|, k requires 0 <= k < |callbacks| => PieceOf(callbacks[k]))
  }

  lemma {:induction false} TextOfSnoc(pieces: seq<Piece>, p: Piece)
    ensures TextOf(pieces + [p]) == TextOf(pieces) + if p.Content? then p.text else ""
    decreases |pieces|
  {
    if pieces != [] {
      TextOfSnoc(pieces[1..], p);
      assert (pieces + [p])[1..] == pieces[1..] + [p];
    } else {
      assert [p][1..] == [];
    }
  }

  lemma {:induction false} PiecesSpell(callbacks: seq<ChatResponse.Callback>)
    ensures TextOf(PiecesOf(callbacks)) == ChatResponse.ContentOf(callbacks)
    decreases |callbacks|
  {
    if callbacks != [] {
      var front, last := callbacks[..|callbacks| - 1], callbacks[|callbacks| - 1];
      PiecesSpell(front);
      TextOfSnoc(PiecesOf(front), PieceOf(last));
      assert PiecesOf(callbacks) == PiecesOf(front) + [PieceOf(last)];
    }
  }

  /** The parser at the end of a reply whose bytes arrive in these chunks. */
  function Read(parse: ChatResponse.Parse, chunks: seq<string>): Parser {
    ChatResponse.FeedAll(parse, ChatResponse.START, chunks)
  }

  /** The pieces of a stream spell the content its parser ends with, however the bytes are cut. */
  lemma StreamSpells(parse: ChatResponse.Parse, chunks: seq<string>)
    ensures TextOf(PiecesOf(Read(parse, chunks).callbacks)) == Read(parse, chunks).content
  {
    hide ChatResponse.ProcessLines;
    ChatResponse.OnePassOverTheLines(parse, chunks);
    var lines := Framing.Complete(Framing.Flatten(chunks));
    ChatResponse.CallbacksSpellTheTexts(parse, ChatResponse.START, lines);
    PiecesSpell(Read(parse, chunks).callbacks);
  }

  /** What arrives of the replies, if these are the chunks for an iteration and the history that is sent. */
  function Served(parse: ChatResponse.Parse, chunks: (nat, History) -> seq<string>): Arrivals {
    (i: nat, h: History) => PiecesOf(Read(parse, chunks(i, h)).callbacks)
  }

  /** So every turn of the agent whose replies are parsed from streams has a run on what arrives of these streams. */
  lemma StreamedRepliesSpell(parse: ChatResponse.Parse, chunks: (nat, History) -> seq<string>, w: Agents.World)
    requires forall i: nat, h: History ::
               w.reply(i, h).ok ==> w.reply(i, h).content == Read(parse, chunks(i, h)).content
    ensures Spells(Served(parse, chunks), w)
  {
    hide TextOf, PiecesOf, Read;
    forall i: nat, h: History | w.reply(i, h).ok
      ensures TextOf(Served(parse, chunks)(i, h)) == w.reply(i, h).content
    {
      StreamSpells(parse, chunks(i, h));
    }
  }

  // ----- a run with the bytes of its replies -----

  /** The stream that was last opened, and the streams of the replies that the turn has completed. */
  datatype Log = Log(reading: Parser, done: seq<Parser>)

  const NOTHING := Log(ChatResponse.START, [])

  function Logged(parse: ChatResponse.Parse, log: Log, l: Label, chunks: seq<string>): Log {
    match l
    case Begin => NOTHING
    case LoopTest(_) => log.(reading := Read(parse, chunks))
    case CompleteReply(_) => log.(done := log.done + [log.reading])
    case _ => log
  }

  /** What a run has read in its last turn, if `arrived[k]` are the chunks of the request of step `k`. */
  function LogOf(parse: ChatResponse.Parse, log: Log, labels: seq<Label>, arrived: seq<seq<string>>): Log
    requires |labels| == |arrived|
    decreases |labels|
  {
    if labels == [] then log
    else LogOf(parse, Logged(parse, log, labels[0], arrived[0]), labels[1..], arrived[1..])
  }

  /** The worker is told what the parser is, and goes on with the tool calls the parser lists. */
  ghost predicate Carries(parse: ChatResponse.Parse, log: Log, l: Label, chunks: seq<string>) {
    match l
    case LoopTest(pieces) => pieces == PiecesOf(Read(parse, chunks).callbacks)
    case CompleteReply(calls) => exists keys :: ChatResponse.Listing(log.reading.tools, keys, calls)
    case _ => true
  }

  ghost predicate FromBytes(parse: ChatResponse.Parse, log: Log, labels: seq<Label>, arrived: seq<seq<string>>)
    requires |labels| == |arrived|
    decreases |labels|
  {
    labels == []
    || (&& Carries(parse, log, labels[0], arrived[0])
        && FromBytes(parse, Logged(parse, log, labels[0], arrived[0]), labels[1..], arrived[1..]))
  }

  // ----- the messages that record the streams -----

  /** The assistant messages, in order. */
  function Assistants(ms: History): History {
    if ms == [] then []
    else
      var front, last := ms[..|ms| - 1], ms[|ms| - 1];
      if last.role == Role.Assistant then Assistants(front) + [last] else Assistants(front)
  }

  lemma AssistantsSnoc(ms: History, m: Message)
    ensures Assistants(ms + [m]) == if m.role == Role.Assistant then Assistants(ms) + [m] else Assistants(ms)
  {
    assert (ms + [m])[..|ms|] == ms;
  }

  /** The message holds the content of the stream and the tool calls in it, by ascending index. */
  ghost predicate Records(m: Message, p: Parser) {
    && m.role == Role.Assistant && m.content == p.content
    && exists keys :: ChatResponse.Listing(p.tools, keys, m.calls)
  }

  ghost predicate RecordsAll(ms: History, streams: seq<Parser>) {
    |ms| == |streams| && forall k :: 0 <= k < |ms| ==> Records(ms[k], streams[k])
  }

  /** What the worker has said is what it has been told; what it has completed is in the history. */
  ghost predicate LogInv(s: State, log: Log) {
    s.busy ==>
      && |s.trace.base| <= |s.history|
      && match s.worker
         case Absent => true
         case Starting(_, _) => true
         case AtTop(_, _) => RecordsAll(Assistants(Added(s)), log.done)
         case Streaming(_, _, todo, said) =>
           said + TextOf(todo) == log.reading.content && RecordsAll(Assistants(Added(s)), log.done)
         case Calling(_, _, _, _, _) => RecordsAll(Assistants(Added(s)), log.done)
         case _ => s.worker.end.Completed? ==> RecordsAll(Assistants(Added(s)), log.done)
  }

  // ----- the worker -----

  lemma BeginLogs(s: State, maxIters: int)
    requires s.busy && WorkerOk(s) && s.worker.Starting?
    ensures LogInv(WorkerStep(s, maxIters, Begin), NOTHING)
  {
    var user := UserMessage(s.worker.payload, s.worker.images);
    AssistantsSnoc([], user);
    assert [] + [user] == [user];
    assert RecordsAll(Assistants([user]), []);
    hide Assistants, RecordsAll;
    assert Added(WorkerStep(s, maxIters, Begin)) == [user];
  }

  lemma TestLogs(s: State, maxIters: int, parse: ChatResponse.Parse, log: Log, chunks: seq<string>)
    requires s.busy && WorkerOk(s) && s.worker.AtTop? && LogInv(s, log)
    ensures var pieces := PiecesOf(Read(parse, chunks).callbacks);
            LogInv(TestLoop(s, maxIters, pieces), log.(reading := Read(parse, chunks)))
  {
    hide TextOf, PiecesOf, Assistants, RecordsAll, Read;
    StreamSpells(parse, chunks);
    assert forall text: string :: "" + text == text;
  }

  lemma EmitLogs(s: State, log: Log)
    requires s.busy && s.worker.Streaming? && s.worker.todo != [] && LogInv(s, log)
    ensures LogInv(Emit(s), log)
  {
    hide Assistants, RecordsAll;
    var w := s.worker;
    var first := if w.todo[0].Content? then w.todo[0].text else "";
    assert w.said + (first + TextOf(w.todo[1..])) == (w.said + first) + TextOf(w.todo[1..]);
    assert w.said + "" == w.said;
    assert Added(Emit(s)) == Added(s);
  }

  lemma CompleteLogs(s: State, log: Log, calls: seq<ToolCall>)
    requires s.busy && s.worker.Streaming? && s.worker.todo == [] && LogInv(s, log)
    requires exists keys :: ChatResponse.Listing(log.reading.tools, keys, calls)
    ensures LogInv(EndReply(s, calls), log.(done := log.done + [log.reading]))
  {
    hide Assistants, ChatResponse.Listing;
    var m := AssistantMessage(s.worker.said, calls);
    assert s.worker.said + "" == s.worker.said;
    assert Records(m, log.reading);
    AssistantsSnoc(Added(s), m);
    assert Added(EndReply(s, calls)) == Added(s) + [m];
  }

  lemma ReportLogs(s: State, log: Log, ok: bool, output: string)
    requires s.busy && s.worker.Calling? && s.worker.j < |s.worker.calls| && s.worker.stage.Cleared? && LogInv(s, log)
    ensures LogInv(Report(s, ok, output), log)
  {
    hide Assistants, RecordsAll, Shortened;
    var text := if s.worker.stage.run then output else DECLINED;
    var m := ToolMessage(s.worker.calls[s.worker.j].id, text);
    AssistantsSnoc(Added(s), m);
    assert Added(Report(s, ok, output)) == Added(s) + [m];
  }

  lemma WorkerLogs(s: State, maxIters: int, parse: ChatResponse.Parse, log: Log, l: Label, chunks: seq<string>)
    requires s.busy && WorkerOk(s) && LogInv(s, log) && ByWorker(l) && WorkerCan(s.worker, s.cancel, l)
    requires Carries(parse, log, l, chunks)
    ensures LogInv(WorkerStep(s, maxIters, l), Logged(parse, log, l, chunks))
  {
    hide Assistants, RecordsAll, Report, TestLoop, Emit, EndReply, TextOf;
    match l {
      case Begin => BeginLogs(s, maxIters);
      case LoopTest(pieces) => TestLogs(s, maxIters, parse, log, chunks);
      case EmitPiece => EmitLogs(s, log);
      case CompleteReply(calls) => CompleteLogs(s, log, calls);
      case ReportResult(ok, output) => ReportLogs(s, log, ok, output);
      case _ =>
    }
  }

  // ----- all steps -----

  lemma StepLogs(s: State, maxIters: int, parse: ChatResponse.Parse, log: Log, l: Label, chunks: seq<string>)
    requires Inv(s) && LogInv(s, log) && Enabled(s, l) && Carries(parse, log, l, chunks)
    ensures LogInv(Step(s, maxIters, l), Logged(parse, log, l, chunks))
  {
    hide QueueOk, TraceOk, CancelOk, UserStep, WorkerStep, Pop, FinishTurn, Handled, Assistants, RecordsAll;
    StepKeeps(s, maxIters, l);
    if ByWorker(l) {
      WorkerLogs(s, maxIters, parse, log, l, chunks);
    } else if ByUserWhenIdle(l) {
      UserStarts(s, l);
    } else if l.Join? {
      FinishStarts(s, s.phase.end, l.full, l.writable, l.payload);
    } else if l.PopEvent? {
      PopDisplays(s);
    }
  }

  lemma {:induction false} AlwaysLogs(s: State, maxIters: int, parse: ChatResponse.Parse, log: Log, labels: seq<Label>,
                                      arrived: seq<seq<string>>, t: State)
    requires Inv(s) && LogInv(s, log) && Runs(s, maxIters, labels, t)
    requires |labels| == |arrived| && FromBytes(parse, log, labels, arrived)
    ensures LogInv(t, LogOf(parse, log, labels, arrived))
    decreases |labels|
  {
    hide Inv, LogInv, Step, Enabled, Carries, Logged;
    if labels != [] {
      StepKeeps(s, maxIters, labels[0]);
      StepLogs(s, maxIters, parse, log, labels[0], arrived[0]);
      AlwaysLogs(Step(s, maxIters, labels[0]), maxIters, parse, Logged(parse, log, labels[0], arrived[0]), labels[1..],
                 arrived[1..], t);
    }
  }

  /** The contents of the streams, in order. */
  function Texts(streams: seq<Parser>): seq<string> {
    seq(|streams|, k requires 0 <= k < |streams| => streams[k].content)
  }

  lemma {:induction false} ContentsAreTexts(ms: History, streams: seq<Parser>)
    requires RecordsAll(Assistants(ms), streams)
    ensures Contents(ms) == NonEmpty(Texts(streams))
    decreases |ms|
  {
    if ms != [] {
      var front, last := ms[..|ms| - 1], ms[|ms| - 1];
      if last.role == Role.Assistant {
        var before := streams[..|streams| - 1];
        assert Records(last, streams[|streams| - 1]);
        ContentsAreTexts(front, before);
        NonEmptySnoc(Texts(before), last.content);
        assert Texts(streams) == Texts(before) + [last.content];
      } else {
        ContentsAreTexts(front, streams);
      }
    }
  }

  lemma LoggedAtTheEnd(t: State, log: Log)
    requires Inv(t) && LogInv(t, log) && t.phase == Joining(Completed)
    ensures |t.trace.base| <= |t.history| && RecordsAll(Assistants(t.history[|t.trace.base|..]), log.done)
  {
    hide Assistants, RecordsAll, TraceOk, CancelOk;
  }

  /**
    From the bytes to the screen and the history, for every run, every cutting of the replies into chunks, every use of
    tools and every interleaving of the two threads. When the end of a successful turn is handled, the assistant
    messages the turn has added are, in order, the contents and tool calls of the streams of its completed replies;
    and its answer entries that are not empty are the contents of those streams that are not empty.
   */
  lemma AnswersAreTheStreams(prompt: string, maxIters: int, parse: ChatResponse.Parse, labels: seq<Label>,
                             arrived: seq<seq<string>>, t: State)
    requires Runs(Initial(prompt), maxIters, labels, t) && t.phase == Joining(Completed)
    requires |labels| == |arrived| && FromBytes(parse, NOTHING, labels, arrived)
    ensures t.trace.base <= t.history && t.trace.chatMark <= |t.screen.chat|
    ensures var streams := LogOf(parse, NOTHING, labels, arrived).done;
            && RecordsAll(Assistants(t.history[|t.trace.base|..]), streams)
            && NonEmpty(AnswersOf(t.screen.chat[t.trace.chatMark..])) == NonEmpty(Texts(streams))
  {
    hide Runs, FromBytes, LogOf, Assistants, RecordsAll, NonEmpty, Contents, Texts, AnswersOf, FinishTurn, Step;
    Reachable(prompt, maxIters, labels, t);
    AlwaysLogs(Initial(prompt), maxIters, parse, NOTHING, labels, arrived, t);
    LoggedAtTheEnd(t, LogOf(parse, NOTHING, labels, arrived));
    hide Inv, LogInv;
    ViewAgreesWithHistory(prompt, maxIters, labels, t, false, false, "");
    ContentsAreTexts(t.history[|t.trace.base|..], LogOf(parse, NOTHING, labels, arrived).done);
  }
}
