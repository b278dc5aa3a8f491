/** Beside the answers the user sees every tool result and all reasoning of a turn, for every interleaving. */
module ProtocolTranscript {
  import opened Options
  import opened Sequences
  import opened Conversation
  import opened Screens
  import opened ScreenEntries
  import opened Protocol
  import opened ProtocolSafety
  import opened ProtocolView
  import opened ProtocolStreams
  import ChatResponse
  import Framing

  // ----- what has been shown or will be -----

  function ThoughtOf(s: Screen): Option<string> {
    match s.thinking
    case Some(i) => if i < |s.chat| then Some(s.chat[i].text) else None
    case None => None
  }

  /** The turn's reasoning once everything queued has been displayed. */
  function PendingThought(s: State): string {
    GetOr(ThinkAll(ThoughtOf(s.screen), s.queue), "")
  }

  function PendingResults(s: State): seq<string>
    requires s.trace.chatMark <= |s.screen.chat|
  {
    ResultsAll(ResultsOf(s.screen.chat[s.trace.chatMark..]), s.queue)
  }

  /** The contents of the tool messages, in order. */
  function ToolContents(ms: History): seq<string> {
    if ms == [] then []
    else
      var front, last := ms[..|ms| - 1], ms[|ms| - 1];
      if last.role == ToolRole then ToolContents(front) + [last.content] else ToolContents(front)
  }

  lemma ToolContentsSnoc(ms: History, m: Message)
    ensures ToolContents(ms + [m]) == if m.role == ToolRole then ToolContents(ms) + [m.content] else ToolContents(ms)
  {
    assert (ms + [m])[..|ms|] == ms;
  }

  /** The text as it is shown: only what goes beyond 4000 characters is left out, and that is said. */
  predicate IsCut(full: string, shown: string) {
    if |full| <= 4000 then shown == full else shown == full[..4000] + "\n… [truncated]"
  }

  predicate AllCut(full: seq<string>, shown: seq<string>) {
    |shown| == |full| && forall k :: 0 <= k < |full| ==> IsCut(full[k], shown[k])
  }

  /** The reasoning in some pieces. */
  function ThoughtIn(pieces: seq<Piece>): string {
    if pieces == [] then "" else (if pieces[0].Thought? then pieces[0].text else "") + ThoughtIn(pieces[1..])
  }

  lemma {:induction false} ThoughtInSnoc(pieces: seq<Piece>, p: Piece)
    ensures ThoughtIn(pieces + [p]) == ThoughtIn(pieces) + if p.Thought? then p.text else ""
    decreases |pieces|
  {
    if pieces != [] {
      ThoughtInSnoc(pieces[1..], p);
      assert (pieces + [p])[1..] == pieces[1..] + [p];
    } else {
      assert [p][1..] == [];
    }
  }

  lemma {:induction false} PiecesThink(callbacks: seq<ChatResponse.Callback>)
    ensures ThoughtIn(PiecesOf(callbacks)) == ChatResponse.ReasoningOf(callbacks)
    decreases |callbacks|
  {
    if callbacks != [] {
      var front, last := callbacks[..|callbacks| - 1], callbacks[|callbacks| - 1];
      PiecesThink(front);
      ThoughtInSnoc(PiecesOf(front), PieceOf(last));
      assert PiecesOf(callbacks) == PiecesOf(front) + [PieceOf(last)];
    }
  }

  lemma StreamThinks(parse: ChatResponse.Parse, chunks: seq<string>)
    ensures ThoughtIn(PiecesOf(Read(parse, chunks).callbacks)) == Read(parse, chunks).reasoning
  {
    hide ChatResponse.ProcessLines;
    ChatResponse.OnePassOverTheLines(parse, chunks);
    ChatResponse.CallbacksSpellTheTexts(parse, ChatResponse.START, Framing.Complete(Framing.Flatten(chunks)));
    PiecesThink(Read(parse, chunks).callbacks);
  }

  /** The reasoning of the streams, one after the other. */
  function AllReasoning(streams: seq<Parser>): string {
    if streams == [] then "" else AllReasoning(streams[..|streams| - 1]) + streams[|streams| - 1].reasoning
  }

  lemma AllReasoningSnoc(streams: seq<Parser>, p: Parser)
    ensures AllReasoning(streams + [p]) == AllReasoning(streams) + p.reasoning
  {
    assert (streams + [p])[..|streams|] == streams;
  }

  // ----- what agrees -----

  predicate Tells(w: Worker, added: History, log: Log, thought: string, results: seq<string>) {
    match w
    case Absent => true
    case Starting(_, _) => thought == "" && results == []
    case Streaming(_, _, todo, _) =>
      && thought + ThoughtIn(todo) == AllReasoning(log.done) + log.reading.reasoning
      && AllCut(ToolContents(added), results)
    case AtTop(_, _) => thought == AllReasoning(log.done) && AllCut(ToolContents(added), results)
    case Calling(_, _, _, _, _) => thought == AllReasoning(log.done) && AllCut(ToolContents(added), results)
    case _ => w.end.Completed? ==> thought == AllReasoning(log.done) && AllCut(ToolContents(added), results)
  }

  ghost predicate TranscriptInv(s: State, log: Log) {
    s.busy ==>
      && s.trace.chatMark <= |s.screen.chat| && ScreenOk(s.screen, s.trace.chatMark)
      && ShowsThought(s.screen, s.trace.chatMark, ThoughtOf(s.screen))
      && |s.trace.base| <= |s.history|
      && Tells(s.worker, Added(s), log, PendingThought(s), PendingResults(s))
  }

  // ----- the worker -----

  lemma PostTells(s: State, e: Event)
    requires s.trace.chatMark <= |s.screen.chat|
    ensures PendingThought(Post(s, e)) == PendingThought(s) + if e.Reasoning? then e.text else ""
    ensures PendingResults(Post(s, e)) == PendingResults(s) + if e.ToolResult? then [e.text] else []
  {
    var posted := Posted(s.trace.turn, e);
    ThinkPosted(ThoughtOf(s.screen), s.queue, posted);
    ResultsPosted(ResultsOf(s.screen.chat[s.trace.chatMark..]), s.queue, posted);
    assert PendingThought(s) + "" == PendingThought(s) && PendingResults(s) + [] == PendingResults(s);
  }

  /** Posting an event is showing it later. */
  lemma PostedTells(s: State, log: Log, e: Event, thought: string, results: seq<string>)
    requires s.busy && s.trace.chatMark <= |s.screen.chat| && ScreenOk(s.screen, s.trace.chatMark)
    requires ShowsThought(s.screen, s.trace.chatMark, ThoughtOf(s.screen)) && |s.trace.base| <= |s.history|
    requires thought == PendingThought(s) + if e.Reasoning? then e.text else ""
    requires results == PendingResults(s) + if e.ToolResult? then [e.text] else []
    requires Tells(s.worker, Added(s), log, thought, results)
    ensures TranscriptInv(Post(s, e), log)
  {
    hide ScreenOk, ShowsThought, Tells, PendingThought, PendingResults;
    PostTells(s, e);
    assert Added(Post(s, e)) == Added(s);
  }

  /** A worker step that posts nothing and leaves the screen. */
  lemma SilentTells(s: State, t: State, log: Log)
    requires t.screen == s.screen && t.queue == s.queue && t.trace == s.trace
    requires s.trace.chatMark <= |s.screen.chat|
    ensures PendingThought(t) == PendingThought(s) && PendingResults(t) == PendingResults(s)
  {
  }

  lemma BeginTells(s: State, maxIters: int, log: Log)
    requires s.busy && WorkerOk(s) && s.worker.Starting? && TranscriptInv(s, log)
    ensures TranscriptInv(WorkerStep(s, maxIters, Begin), NOTHING)
  {
    var user := UserMessage(s.worker.payload, s.worker.images);
    ToolContentsSnoc([], user);
    assert [] + [user] == [user] && ToolContents([user]) == [] && AllReasoning(NOTHING.done) == "";
    hide ToolContents, ShowsThought, ScreenOk, AllReasoning;
    var t := WorkerStep(s, maxIters, Begin);
    SilentTells(s, t, log);
    assert Added(t) == [user];
  }

  lemma TestTells(s: State, maxIters: int, parse: ChatResponse.Parse, log: Log, chunks: seq<string>)
    requires s.busy && WorkerOk(s) && s.worker.AtTop? && TranscriptInv(s, log)
    ensures var pieces := PiecesOf(Read(parse, chunks).callbacks);
            TranscriptInv(TestLoop(s, maxIters, pieces), log.(reading := Read(parse, chunks)))
  {
    hide ThoughtIn, PiecesOf, ToolContents, AllCut, Read, ShowsThought, ScreenOk, AllReasoning;
    StreamThinks(parse, chunks);
    SilentTells(s, TestLoop(s, maxIters, PiecesOf(Read(parse, chunks).callbacks)), log);
  }

  lemma EmitTells(s: State, log: Log)
    requires s.busy && s.worker.Streaming? && s.worker.todo != [] && TranscriptInv(s, log)
    ensures TranscriptInv(Emit(s), log)
  {
    hide ToolContents, AllCut, ShowsThought, ScreenOk, AllReasoning, PendingThought, PendingResults;
    var w, piece := s.worker, s.worker.todo[0];
    var first := if piece.Thought? then piece.text else "";
    var next := s.(worker := w.(todo := w.todo[1..], said := if piece.Content? then w.said + piece.text else w.said));
    assert PendingThought(next) == PendingThought(s) && PendingResults(next) == PendingResults(s) by {
      SilentTells(s, next, log);
    }
    PostTells(next, if piece.Content? then Delta(piece.text) else Reasoning(piece.text));
    Assoc(PendingThought(s), first, ThoughtIn(w.todo[1..]));
    assert PendingThought(s) + "" == PendingThought(s) && PendingResults(s) + [] == PendingResults(s);
    assert Added(Emit(s)) == Added(s);
  }

  lemma StreamIsOver(w: Worker, added: History, log: Log, thought: string, results: seq<string>)
    requires w.Streaming? && w.todo == [] && Tells(w, added, log, thought, results)
    ensures thought == AllReasoning(log.done + [log.reading])
  {
    hide AllReasoning, AllCut, ToolContents;
    AllReasoningSnoc(log.done, log.reading);
    assert thought + "" == thought;
  }

  lemma CompleteTells(s: State, log: Log, calls: seq<ToolCall>)
    requires s.busy && s.worker.Streaming? && s.worker.todo == [] && TranscriptInv(s, log)
    ensures TranscriptInv(EndReply(s, calls), log.(done := log.done + [log.reading]))
  {
    hide ToolContents, AllCut, ShowsThought, ScreenOk, AllReasoning, PendingThought, PendingResults, ThoughtIn;
    var m := AssistantMessage(s.worker.said, calls);
    StreamIsOver(s.worker, Added(s), log, PendingThought(s), PendingResults(s));
    ToolContentsSnoc(Added(s), m);
    var t := EndReply(s, calls);
    SilentTells(s, t, log);
    assert Added(t) == Added(s) + [m];
  }

  lemma OneMoreCut(full: seq<string>, shown: seq<string>, text: string)
    requires AllCut(full, shown)
    ensures AllCut(full + [text], shown + [Shortened(text)])
  {
  }

  /** Recording a result is one more tool message, whose text is still to be shown. */
  lemma RecordTells(s: State, log: Log, text: string)
    requires s.busy && s.worker.Calling? && s.worker.j < |s.worker.calls| && TranscriptInv(s, log)
    ensures var t := Record(s, text);
            && |t.trace.base| <= |t.history| && t.screen == s.screen && t.trace == s.trace && t.busy
            && PendingThought(t) == PendingThought(s) && PendingResults(t) == PendingResults(s)
            && ToolContents(Added(t)) == ToolContents(Added(s)) + [text] && (t.worker.Calling? || t.worker.AtTop?)
  {
    hide ToolContents, AllCut, ShowsThought, ScreenOk, AllReasoning, PendingThought, PendingResults;
    var m := ToolMessage(s.worker.calls[s.worker.j].id, text);
    ToolContentsSnoc(Added(s), m);
    SilentTells(s, Record(s, text), log);
    assert Added(Record(s, text)) == Added(s) + [m];
  }

  lemma ReportTells(s: State, log: Log, ok: bool, output: string)
    requires s.busy && s.worker.Calling? && s.worker.j < |s.worker.calls| && s.worker.stage.Cleared?
    requires TranscriptInv(s, log)
    ensures TranscriptInv(Report(s, ok, output), log)
  {
    var text := if s.worker.stage.run then output else DECLINED;
    OneMoreCut(ToolContents(Added(s)), PendingResults(s), text);
    RecordTells(s, log, text);
    hide ToolContents, AllCut, ShowsThought, ScreenOk, AllReasoning, Shortened, PendingThought, PendingResults, Record;
    var recorded := Record(s, text);
    var header := s.worker.calls[s.worker.j].name + if ok && s.worker.stage.run then " ✓" else " ✗";
    var e := ToolResult(header, Shortened(text));
    assert PendingThought(s) + "" == PendingThought(s);
    assert Report(s, ok, output) == Post(recorded, e);
    hide Report, Post;
    PostedTells(recorded, log, e, PendingThought(s), PendingResults(s) + [Shortened(text)]);
  }

  /** The worker stays where everything it has been told is shown. */
  predicate SameTelling(w: Worker, next: Worker) {
    (w.Calling? && next.Calling?) || (EndOf(w).Some? && EndOf(w) == EndOf(next))
  }

  /** The other steps post no reasoning and no result, and add nothing to the history. */
  lemma OtherTells(s: State, maxIters: int, log: Log, l: Label)
    requires s.busy && WorkerOk(s) && ByWorker(l) && WorkerCan(s.worker, s.cancel, l) && TranscriptInv(s, log)
    requires l.AbortReply? || l.FailReply? || l.AnnounceCall? || l.Gate? || l.PostEnd? || l.Exit?
    ensures TranscriptInv(WorkerStep(s, maxIters, l), log)
  {
    hide ToolContents, AllCut, ShowsThought, ScreenOk, AllReasoning, PendingThought, PendingResults;
    var t := WorkerStep(s, maxIters, l);
    assert t.screen == s.screen && t.trace == s.trace;
    if !(l.AbortReply? || l.FailReply?) {
      assert Added(t) == Added(s) && SameTelling(s.worker, t.worker);
    }
    if t.queue == s.queue {
      hide WorkerStep;
      SilentTells(s, t, log);
    } else {
      var e := t.queue[|s.queue|].event;
      var quiet := t.(queue := s.queue);
      assert t == Post(quiet, e) && !e.Reasoning? && !e.ToolResult?;
      hide WorkerStep, Post;
      SilentTells(s, quiet, log);
      assert PendingThought(s) + "" == PendingThought(s) && PendingResults(s) + [] == PendingResults(s);
      PostedTells(quiet, log, e, PendingThought(s), PendingResults(s));
    }
  }

  lemma WorkerTells(s: State, maxIters: int, parse: ChatResponse.Parse, log: Log, l: Label, chunks: seq<string>)
    requires s.busy && WorkerOk(s) && TranscriptInv(s, log) && ByWorker(l) && WorkerCan(s.worker, s.cancel, l)
    requires Carries(parse, log, l, chunks)
    ensures TranscriptInv(WorkerStep(s, maxIters, l), Logged(parse, log, l, chunks))
  {
    hide TranscriptInv, Report, TestLoop, Emit, EndReply;
    match l {
      case Begin => BeginTells(s, maxIters, log);
      case LoopTest(pieces) => TestTells(s, maxIters, parse, log, chunks);
      case EmitPiece => EmitTells(s, log);
      case CompleteReply(calls) => CompleteTells(s, log, calls);
      case ReportResult(ok, output) => ReportTells(s, log, ok, output);
      case _ => OtherTells(s, maxIters, log, l);
    }
  }

  // ----- the UI thread -----

  lemma PopTells(s: State, log: Log)
    requires s.busy && s.queue != [] && TranscriptInv(s, log)
    ensures TranscriptInv(Pop(s), log)
  {
    hide Pop, Display, ScreenOk, ShowsThought, ThinkAll, Think, ResultsAll, ResultsOf, Tells;
    var mark, e := s.trace.chatMark, s.queue[0].event;
    PopDisplays(s);
    DisplayShows(s.screen, mark, e);
    DisplayThinks(s.screen, mark, e, ThoughtOf(s.screen));
    DisplayResults(s.screen, mark, e);
    ThinkPopped(ThoughtOf(s.screen), s.queue);
    ResultsPopped(ResultsOf(s.screen.chat[mark..]), s.queue);
    ShownThought(Display(s.screen, e), mark, Think(ThoughtOf(s.screen), e));
    assert Added(Pop(s)) == Added(s);
  }

  lemma ShownThought(s: Screen, mark: nat, thought: Option<string>)
    requires ShowsThought(s, mark, thought)
    ensures ThoughtOf(s) == thought
  {
  }

  lemma AsideKeepsThought(s: Screen, mark: nat, text: string, thought: Option<string>)
    requires ShowsThought(s, mark, thought)
    ensures ShowsThought(Add(s, Aside, text), mark, thought)
  {
  }

  lemma NoteTells(s: State, log: Log, text: string)
    requires TranscriptInv(s, log)
    ensures TranscriptInv(Note(s, text), log)
  {
    if s.busy {
      hide ResultsOf, ThinkAll, ResultsAll, Tells, ScreenOk, ShowsThought;
      var mark := s.trace.chatMark;
      AddKeepsView(s.screen, mark, Aside, text);
      AsideKeepsThought(s.screen, mark, text, ThoughtOf(s.screen));
      ShownThought(Add(s.screen, Aside, text), mark, ThoughtOf(s.screen));
      ResultsSnoc(s.screen.chat[mark..], Entry(Aside, text));
      assert Note(s, text).screen.chat[mark..] == s.screen.chat[mark..] + [Entry(Aside, text)];
      assert Added(Note(s, text)) == Added(s);
    }
  }

  lemma SubmitTells(s: State, kind: Kind, automatic: bool, display: string, payload: string, images: seq<Image>, log: Log)
    requires s.worker.Absent? && s.queue == []
    ensures TranscriptInv(Submit(s, kind, automatic, display, payload, images), log)
  {
    hide AddAll;
    var t := Submit(s, kind, automatic, display, payload, images);
    assert t.screen.chat[t.trace.chatMark..] == [];
  }

  lemma CompactTells(s: State, automatic: bool, payload: string, log: Log)
    requires s.worker.Absent? && s.queue == [] && !s.busy
    ensures TranscriptInv(RunCompact(s, automatic, payload), log)
  {
    hide Submit;
    SubmitTells(Note(s, SUMMARIZING).(compactPending := true), Compact, automatic, "/compact", payload, [], log);
  }

  lemma UserTells(s: State, l: Label, log: Log)
    requires Inv(s) && s.phase.Ready? && !s.busy && ByUserWhenIdle(l)
    ensures TranscriptInv(UserStep(s, l), log)
  {
    hide QueueOk, TraceOk, CancelOk, Submit, TranscriptInv, Attached;
    match l {
      case Send(display, payload, images, attached) =>
        SubmitTells(s, Ordinary, false, display, payload, images, log);
        NoteTells(Submit(s, Ordinary, false, display, payload, images), log, Attached(attached));
      case InitCommand(declined, payload) => InitTells(s, declined, payload, log);
      case CompactCommand(payload) => CompactTells(s, false, payload, log);
      case ClearCommand => IdleTells(s, UserStep(s, l), log);
      case NoticeCommand(text) => IdleTells(s, Note(s, text), log);
      case QuitCommand => IdleTells(s, UserStep(s, l), log);
    }
  }

  lemma IdleTells(s: State, t: State, log: Log)
    requires !t.busy
    ensures TranscriptInv(t, log)
  {
  }

  lemma InitTells(s: State, declined: bool, payload: string, log: Log)
    requires s.worker.Absent? && s.queue == [] && !s.busy
    ensures TranscriptInv(UserStep(s, InitCommand(declined, payload)), log)
  {
    hide Submit;
    SubmitTells(Note(s, SCANNING).(initPending := true), Init, false, "/init", payload, [], log);
  }

  lemma FinishTells(s: State, log: Log, full: bool, writable: bool, payload: string)
    requires Inv(s) && s.phase.Joining?
    ensures TranscriptInv(FinishTurn(s, s.phase.end, full, writable, payload), log)
  {
    hide FinishPending, RunCompact;
    var joined := Joined(s, s.phase.end);
    JoinedKeeps(s);
    PendingKeeps(joined, writable);
    CompactTells(Note(FinishPending(joined, writable), NEARLY_FULL), true, payload, log);
  }

  lemma AnswerTells(s: State, log: Log, l: Label)
    requires s.busy && TranscriptInv(s, log) && l.AnswerConfirm?
    ensures TranscriptInv(Answer(s, l.choice), log)
  {
    hide ScreenOk, ShowsThought, ToolContents, AllCut, AllReasoning;
    SilentTells(s, Answer(s, l.choice), log);
    assert Added(Answer(s, l.choice)) == Added(s);
  }

  lemma EscapeTells(s: State, log: Log)
    requires s.busy && TranscriptInv(s, log)
    ensures TranscriptInv(Interrupt(s), log)
  {
    var t := s.(cancel := true, trace := s.trace.(escaped := true));
    hide ScreenOk, ShowsThought, Tells, Note;
    assert Added(t) == Added(s) && PendingThought(t) == PendingThought(s) && PendingResults(t) == PendingResults(s);
    NoteTells(t, log, CANCELLING);
  }

  // ----- all steps -----

  lemma StepTells(s: State, maxIters: int, parse: ChatResponse.Parse, log: Log, l: Label, chunks: seq<string>)
    requires Inv(s) && TranscriptInv(s, log) && Enabled(s, l) && Carries(parse, log, l, chunks)
    ensures TranscriptInv(Step(s, maxIters, l), Logged(parse, log, l, chunks))
  {
    hide QueueOk, TraceOk, CancelOk, UserStep, WorkerStep, Pop, FinishTurn, TranscriptInv, Answer, Interrupt;
    if ByWorker(l) {
      WorkerTells(s, maxIters, parse, log, l, chunks);
    } else if ByUserWhenIdle(l) {
      UserTells(s, l, log);
    } else {
      match l {
        case PopEvent =>
          PopTellsAnyway(s, log);
        case Escape => EscapeTells(s, log);
        case AnswerConfirm(_) => AnswerTells(s, log, l);
        case Join(full, writable, payload) => FinishTells(s, log, full, writable, payload);
        case _ =>
      }
    }
  }

  lemma PopTellsAnyway(s: State, log: Log)
    requires s.queue != [] && Inv(s) && TranscriptInv(s, log)
    ensures TranscriptInv(Pop(s), log)
  {
    hide TranscriptInv, Pop;
    PopTells(s, log);
  }

  lemma {:induction false} AlwaysTells(s: State, maxIters: int, parse: ChatResponse.Parse, log: Log, labels: seq<Label>,
                                       arrived: seq<seq<string>>, t: State)
    requires Inv(s) && TranscriptInv(s, log) && Runs(s, maxIters, labels, t)
    requires |labels| == |arrived| && FromBytes(parse, log, labels, arrived)
    ensures TranscriptInv(t, LogOf(parse, log, labels, arrived))
    decreases |labels|
  {
    hide Inv, TranscriptInv, Step, Enabled, Carries, Logged;
    if labels != [] {
      StepKeeps(s, maxIters, labels[0]);
      StepTells(s, maxIters, parse, log, labels[0], arrived[0]);
      AlwaysTells(Step(s, maxIters, labels[0]), maxIters, parse, Logged(parse, log, labels[0], arrived[0]), labels[1..],
                  arrived[1..], t);
    }
  }

  lemma NothingRuns(s: State, maxIters: int)
    ensures Runs(s, maxIters, [], s)
  {
  }

  lemma TellsAtTheEnd(t: State, log: Log)
    requires Inv(t) && TranscriptInv(t, log) && t.phase == Joining(Completed)
    ensures t.trace.base <= t.history && t.trace.chatMark <= |t.screen.chat|
    ensures AllCut(ToolContents(t.history[|t.trace.base|..]), ResultsOf(t.screen.chat[t.trace.chatMark..]))
    ensures ShowsThought(t.screen, t.trace.chatMark, ThoughtOf(t.screen))
    ensures GetOr(ThoughtOf(t.screen), "") == AllReasoning(log.done)
  {
    hide ToolContents, ResultsOf, AllReasoning, AllCut, ShowsThought, TraceOk, CancelOk;
  }

  /**
    When the end of a successful turn is handled, for every run, cutting of the bytes and interleaving: the tool results
    shown in the turn are, in order, the contents of the tool messages it has added, cut where they are too long; and
    all reasoning of its replies is shown, in one entry if there is any.
   */
  lemma TurnIsShown(prompt: string, maxIters: int, parse: ChatResponse.Parse, labels: seq<Label>,
                    arrived: seq<seq<string>>, t: State)
    requires Runs(Initial(prompt), maxIters, labels, t) && t.phase == Joining(Completed)
    requires |labels| == |arrived| && FromBytes(parse, NOTHING, labels, arrived)
    ensures t.trace.base <= t.history && t.trace.chatMark <= |t.screen.chat|
    ensures AllCut(ToolContents(t.history[|t.trace.base|..]), ResultsOf(t.screen.chat[t.trace.chatMark..]))
    ensures var thought := AllReasoning(LogOf(parse, NOTHING, labels, arrived).done);
            || (ShowsThought(t.screen, t.trace.chatMark, None) && thought == "")
            || ShowsThought(t.screen, t.trace.chatMark, Some(thought))
  {
    hide Runs, FromBytes, LogOf, ToolContents, ResultsOf, AllReasoning, AllCut, ShowsThought, TranscriptInv, Inv;
    Reachable(prompt, maxIters, labels, t);
    assert TranscriptInv(Initial(prompt), NOTHING) by {
      IdleTells(Initial(prompt), Initial(prompt), NOTHING);
    }
    assert Inv(Initial(prompt)) by {
      assert Runs(Initial(prompt), maxIters, [], Initial(prompt)) by {
        NothingRuns(Initial(prompt), maxIters);
      }
      Reachable(prompt, maxIters, [], Initial(prompt));
    }
    AlwaysTells(Initial(prompt), maxIters, parse, NOTHING, labels, arrived, t);
    TellsAtTheEnd(t, LogOf(parse, NOTHING, labels, arrived));
  }
}
