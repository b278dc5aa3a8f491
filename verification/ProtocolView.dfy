/** What the user sees of a turn's answers is what the turn adds to the history. */
module ProtocolView {
  import opened Conversation
  import opened Fences
  import opened Screens
  import opened Protocol
  import opened ProtocolSafety
  import Agents

  function NonEmpty(texts: seq<string>): seq<string> {
    if texts == [] then []
    else
      var front, last := texts[..|texts| - 1], texts[|texts| - 1];
      if last != "" then NonEmpty(front) + [last] else NonEmpty(front)
  }

  /** The assistant texts among some messages that are not empty, in order. */
  function Contents(ms: History): seq<string> {
    if ms == [] then []
    else
      var front, last := ms[..|ms| - 1], ms[|ms| - 1];
      if last.role == Role.Assistant && last.content != "" then Contents(front) + [last.content] else Contents(front)
  }

  /** What the current turn has added to the history. */
  function Added(s: State): History
    requires |s.trace.base| <= |s.history|
  {
    s.history[|s.trace.base|..]
  }

  /** The turn's answers once everything queued has been displayed. */
  function Shown(s: State): View
    requires s.trace.chatMark <= |s.screen.chat|
  {
    ShowAll(ViewOf(s.screen, s.trace.chatMark), s.queue)
  }

  predicate Agrees(w: Worker, added: History, v: View) {
    match w
    case Absent => true
    case Starting(_, _) => v == View([], false)
    case AtTop(_, _) => !v.open && NonEmpty(v.texts) == Contents(added)
    case Streaming(_, _, _, said) =>
      if v.open then
        && v.texts != [] && v.texts[|v.texts| - 1] == said
        && NonEmpty(v.texts[..|v.texts| - 1]) == Contents(added)
      else said == "" && NonEmpty(v.texts) == Contents(added)
    case Calling(_, _, _, j, stage) =>
      NonEmpty(v.texts) == Contents(added) && (j > 0 || stage != Announcing ==> !v.open)
    case _ => w.end.Completed? ==> NonEmpty(v.texts) == Contents(added)
  }

  ghost predicate ViewInv(s: State) {
    s.busy ==>
      && ScreenOk(s.screen, s.trace.chatMark)
      && |s.trace.base| <= |s.history|
      && Agrees(s.worker, Added(s), Shown(s))
  }

  lemma NonEmptySnoc(texts: seq<string>, t: string)
    ensures NonEmpty(texts + [t]) == if t != "" then NonEmpty(texts) + [t] else NonEmpty(texts)
  {
    assert (texts + [t])[..|texts|] == texts;
  }

  lemma ContentsSnoc(ms: History, m: Message)
    ensures Contents(ms + [m])
            == if m.role == Role.Assistant && m.content != "" then Contents(ms) + [m.content] else Contents(ms)
  {
    assert (ms + [m])[..|ms|] == ms;
  }

  // ----- the worker -----

  lemma BeginAgrees(s: State, maxIters: int)
    requires s.busy && WorkerOk(s) && ViewInv(s) && s.worker.Starting?
    ensures ViewInv(WorkerStep(s, maxIters, Begin))
  {
    var user := UserMessage(s.worker.payload, s.worker.images);
    ContentsSnoc([], user);
    var t := WorkerStep(s, maxIters, Begin);
    assert Added(t) == [user] && [] + [user] == [user];
  }

  /** The text that was streamed becomes a message: the open answer is closed with exactly that text. */
  lemma CloseText(w: Worker, added: History, v: View, m: Message)
    requires w.Streaming? && Agrees(w, added, v) && m.role == Role.Assistant && m.content == w.said
    ensures NonEmpty(v.texts) == Contents(added + [m])
  {
    hide NonEmpty, Contents;
    ContentsSnoc(added, m);
    if v.open {
      var front := v.texts[..|v.texts| - 1];
      NonEmptySnoc(front, w.said);
      assert v.texts == front + [w.said];
    }
  }

  lemma CompleteAgrees(s: State, maxIters: int, calls: seq<ToolCall>)
    requires s.busy && ViewInv(s) && s.worker.Streaming? && s.worker.todo == []
    ensures ViewInv(WorkerStep(s, maxIters, CompleteReply(calls)))
  {
    var m := AssistantMessage(s.worker.said, calls);
    CloseText(s.worker, Added(s), Shown(s), m);
    assert Added(EndReply(s, calls)) == Added(s) + [m];
  }

  /** Posting an event is showing it later. */
  lemma PostShown(s: State, e: Event)
    requires s.trace.chatMark <= |s.screen.chat|
    ensures Shown(Post(s, e)) == Show(Shown(s), e)
  {
    ShowPosted(ViewOf(s.screen, s.trace.chatMark), s.queue, Posted(s.trace.turn, e));
  }

  lemma PostAgrees(s: State, e: Event)
    requires s.busy && ScreenOk(s.screen, s.trace.chatMark) && |s.trace.base| <= |s.history|
    requires Agrees(s.worker, Added(s), Show(Shown(s), e))
    ensures ViewInv(Post(s, e))
  {
    PostShown(s, e);
    assert Added(Post(s, e)) == Added(s);
  }

  /** One more piece of answer text, in the view and in what the worker has read. */
  lemma MoreText(w: Worker, next: Worker, added: History, v: View, text: string)
    requires w.Streaming? && next.Streaming? && next.said == w.said + text && Agrees(w, added, v)
    ensures Agrees(next, added, Show(v, Delta(text)))
  {
    if v.open {
      assert ExtendLast(v.texts, text)[..|v.texts| - 1] == v.texts[..|v.texts| - 1];
    } else {
      assert (v.texts + [text])[..|v.texts|] == v.texts;
      assert "" + text == text;
    }
  }

  lemma EmitAgrees(s: State, maxIters: int)
    requires s.busy && ViewInv(s) && s.worker.Streaming? && s.worker.todo != []
    ensures ViewInv(WorkerStep(s, maxIters, EmitPiece))
  {
    var w, piece := s.worker, s.worker.todo[0];
    var next := w.(todo := w.todo[1..], said := if piece.Content? then w.said + piece.text else w.said);
    if piece.Content? {
      MoreText(w, next, Added(s), Shown(s), piece.text);
      PostAgrees(s.(worker := next), Delta(piece.text));
    } else {
      PostAgrees(s.(worker := next), Reasoning(piece.text));
    }
  }

  lemma AnnounceAgrees(s: State, maxIters: int)
    requires s.busy && ViewInv(s) && WorkerCan(s.worker, s.cancel, AnnounceCall)
    ensures ViewInv(WorkerStep(s, maxIters, AnnounceCall))
  {
    var call := s.worker.calls[s.worker.j];
    PostAgrees(s.(worker := s.worker.(stage := Gating)), ToolInfo("↳ " + call.name + " " + call.arguments));
  }

  lemma GateAgrees(s: State, maxIters: int, verdict: Verdict)
    requires s.busy && ViewInv(s) && WorkerCan(s.worker, s.cancel, Gate(verdict))
    ensures ViewInv(WorkerStep(s, maxIters, Gate(verdict)))
  {
    if verdict.Ask? {
      var call := s.worker.calls[s.worker.j];
      PostAgrees(s.(worker := s.worker.(stage := Asking)), ConfirmRequest(call.name, verdict.details));
    }
  }

  lemma RecordAgrees(s: State, text: string)
    requires s.busy && ViewInv(s) && s.worker.Calling? && s.worker.j < |s.worker.calls|
    requires s.worker.stage.Cleared?
    ensures var t := Record(s, text);
            && |t.trace.base| <= |t.history| && Shown(t) == Shown(s)
            && Agrees(t.worker, Added(t), Shown(s).(open := false))
  {
    var m := ToolMessage(s.worker.calls[s.worker.j].id, text);
    ContentsSnoc(Added(s), m);
    assert Added(Record(s, text)) == Added(s) + [m];
  }

  lemma ReportAgrees(s: State, maxIters: int, ok: bool, output: string)
    requires s.busy && ViewInv(s) && WorkerCan(s.worker, s.cancel, ReportResult(ok, output))
    ensures ViewInv(WorkerStep(s, maxIters, ReportResult(ok, output)))
  {
    var ran := s.worker.stage.run;
    var text := if ran then output else DECLINED;
    RecordAgrees(s, text);
    PostAgrees(Record(s, text),
               ToolResult(s.worker.calls[s.worker.j].name + if ok && ran then " ✓" else " ✗", Shortened(text)));
  }

  lemma PostEndAgrees(s: State, maxIters: int)
    requires s.busy && ViewInv(s) && s.worker.Ended?
    ensures ViewInv(WorkerStep(s, maxIters, PostEnd))
  {
    PostAgrees(s.(worker := Leaving(s.worker.end)), Terminal(s.worker.end));
  }

  lemma RollBackAgrees(s: State, end: Ending)
    requires s.busy && ViewInv(s) && !end.Completed?
    ensures ViewInv(RollBack(s, |s.trace.base|, end))
  {
  }

  lemma LoopTestAgrees(s: State, maxIters: int, pieces: seq<Piece>)
    requires s.busy && WorkerOk(s) && ViewInv(s) && s.worker.AtTop?
    ensures ViewInv(WorkerStep(s, maxIters, LoopTest(pieces)))
  {
    hide RollBack;
    RollBackAgrees(s, Cancelled);
    RollBackAgrees(s, Broken(Agents.Exceeded(maxIters).error));
  }

  lemma ExitAgrees(s: State, maxIters: int)
    requires s.busy && ViewInv(s) && s.worker.Leaving?
    ensures ViewInv(WorkerStep(s, maxIters, Exit))
  {
  }

  lemma WorkerAgrees(s: State, maxIters: int, l: Label)
    requires s.busy && WorkerOk(s) && ViewInv(s) && ByWorker(l) && WorkerCan(s.worker, s.cancel, l)
    ensures ViewInv(WorkerStep(s, maxIters, l))
  {
    hide ViewInv, RollBack, Report;
    match l {
      case Begin => BeginAgrees(s, maxIters);
      case LoopTest(pieces) => LoopTestAgrees(s, maxIters, pieces);
      case EmitPiece => EmitAgrees(s, maxIters);
      case AbortReply => RollBackAgrees(s, Cancelled);
      case FailReply(error) => RollBackAgrees(s, Broken(error));
      case CompleteReply(calls) => CompleteAgrees(s, maxIters, calls);
      case AnnounceCall => AnnounceAgrees(s, maxIters);
      case Gate(verdict) => GateAgrees(s, maxIters, verdict);
      case ReportResult(ok, output) => ReportAgrees(s, maxIters, ok, output);
      case PostEnd => PostEndAgrees(s, maxIters);
      case Exit => ExitAgrees(s, maxIters);
    }
  }

  // ----- the UI thread -----

  lemma SubmitAgrees(s: State, kind: Kind, automatic: bool, display: string, payload: string, images: seq<Image>)
    requires s.worker.Absent? && s.queue == []
    ensures ViewInv(Submit(s, kind, automatic, display, payload, images))
  {
    var t := Submit(s, kind, automatic, display, payload, images);
    assert t.screen.chat[t.trace.chatMark..] == [];
  }

  lemma CompactAgrees(s: State, automatic: bool, payload: string)
    requires s.worker.Absent? && s.queue == [] && !s.busy
    ensures ViewInv(RunCompact(s, automatic, payload))
  {
    if HasTurns(s.history) {
      SubmitAgrees(Note(s, SUMMARIZING).(compactPending := true), Compact, automatic, "/compact", payload, []);
    }
  }

  lemma NoteAgrees(s: State, text: string)
    requires ViewInv(s)
    ensures ViewInv(Note(s, text))
  {
    if s.busy {
      AddKeepsView(s.screen, s.trace.chatMark, Aside, text);
    }
  }

  lemma UserAgrees(s: State, l: Label)
    requires Inv(s) && s.phase.Ready? && !s.busy && ByUserWhenIdle(l)
    ensures ViewInv(UserStep(s, l))
  {
    match l {
      case Send(display, payload, images, attached) =>
        SubmitAgrees(s, Ordinary, false, display, payload, images);
        NoteAgrees(Submit(s, Ordinary, false, display, payload, images), Attached(attached));
      case InitCommand(declined, payload) =>
        if !declined {
          SubmitAgrees(Note(s, SCANNING).(initPending := true), Init, false, "/init", payload, []);
        }
      case CompactCommand(payload) => CompactAgrees(s, false, payload);
      case _ =>
    }
  }

  lemma PopAgrees(s: State)
    requires s.busy && ViewInv(s) && s.queue != []
    ensures ViewInv(Pop(s))
  {
    hide Pop, Display, Show, ShowAll, Agrees;
    var mark, e := s.trace.chatMark, s.queue[0].event;
    PopDisplays(s);
    ShowPopped(ViewOf(s.screen, mark), s.queue);
    DisplayShows(s.screen, mark, e);
  }

  lemma FinishAgrees(s: State, full: bool, writable: bool, payload: string)
    requires Inv(s) && s.phase.Joining?
    ensures ViewInv(FinishTurn(s, s.phase.end, full, writable, payload))
  {
    hide FinishPending, RunCompact;
    var joined := Joined(s, s.phase.end);
    JoinedKeeps(s);
    PendingKeeps(joined, writable);
    CompactAgrees(Note(FinishPending(joined, writable), NEARLY_FULL), true, payload);
  }

  lemma StepAgrees(s: State, maxIters: int, l: Label)
    requires Inv(s) && ViewInv(s) && Enabled(s, l)
    ensures ViewInv(Step(s, maxIters, l))
  {
    hide QueueOk, TraceOk, CancelOk, UserStep, WorkerStep, Pop, FinishTurn, Handled;
    if ByUserWhenIdle(l) {
      UserAgrees(s, l);
    } else if ByWorker(l) {
      WorkerAgrees(s, maxIters, l);
    } else {
      match l {
        case PopEvent => PopAgrees(s);
        case Escape => AddKeepsView(s.screen, s.trace.chatMark, Aside, CANCELLING);
        case Join(full, writable, payload) => FinishAgrees(s, full, writable, payload);
        case _ =>
      }
    }
  }

  lemma {:induction false} AlwaysAgrees(s: State, maxIters: int, labels: seq<Label>, t: State)
    requires Inv(s) && ViewInv(s) && Runs(s, maxIters, labels, t)
    ensures ViewInv(t)
    decreases |labels|
  {
    hide Inv, ViewInv, Step, Enabled;
    if labels != [] {
      StepKeeps(s, maxIters, labels[0]);
      StepAgrees(s, maxIters, labels[0]);
      AlwaysAgrees(Step(s, maxIters, labels[0]), maxIters, labels[1..], t);
    }
  }

  /**
    When the end of a successful turn is handled, the answer entries of that turn that are not empty are, in order,
    the assistant texts that are not empty among the messages the turn added to the history: for every chunking of
    the replies, every use of tools, every interleaving of the two threads. Handling the end only adds entries.
   */
  lemma ViewAgreesWithHistory(prompt: string, maxIters: int, labels: seq<Label>, t: State, full: bool,
                              writable: bool, payload: string)
    requires Runs(Initial(prompt), maxIters, labels, t) && t.phase == Joining(Completed)
    ensures t.trace.base <= t.history && t.trace.chatMark <= |t.screen.chat|
    ensures NonEmpty(AnswersOf(t.screen.chat[t.trace.chatMark..])) == Contents(t.history[|t.trace.base|..])
    ensures t.screen.chat <= FinishTurn(t, Completed, full, writable, payload).screen.chat
  {
    hide Runs, FinishTurn;
    Reachable(prompt, maxIters, labels, t);
    AlwaysAgrees(Initial(prompt), maxIters, labels, t);
    FinishOnlyAdds(t, full, writable, payload);
  }

  lemma {:induction false} AddAllOnlyAdds(s: Screen, lines: seq<string>)
    ensures s.chat <= AddAll(s, lines).chat
    decreases |lines|
  {
    if lines != [] {
      AddAllOnlyAdds(Add(s, Aside, lines[0]), lines[1..]);
    }
  }

  lemma OpenedOnlyAdds(s: Screen, display: string, images: seq<Image>)
    ensures s.chat <= Opened(s, display, images).chat
  {
    hide Placeholders;
    AddAllOnlyAdds(Add(s, You, display), Placeholders(images));
  }

  lemma CompactOnlyAdds(s: State, automatic: bool, payload: string)
    ensures s.screen.chat <= RunCompact(s, automatic, payload).screen.chat
  {
    hide Opened, AddAll;
    OpenedOnlyAdds(Add(s.screen, Aside, SUMMARIZING), "/compact", []);
  }

  lemma InitOnlyAdds(s: State, writable: bool)
    ensures s.screen.chat <= FinishInit(s, writable).screen.chat
  {
    hide LastAnswerText, StripCodeFence;
  }

  lemma SummaryOnlyAdds(s: State)
    ensures s.screen.chat <= FinishCompact(s).screen.chat
  {
    hide LastAnswerText, Agents.Fresh;
  }

  lemma PendingOnlyAdds(s: State, writable: bool)
    ensures s.screen.chat <= FinishPending(s, writable).screen.chat
  {
    hide FinishInit, FinishCompact;
    InitOnlyAdds(s, writable);
    SummaryOnlyAdds(if s.initPending then FinishInit(s, writable).(initPending := false) else s);
  }

  lemma FinishOnlyAdds(s: State, full: bool, writable: bool, payload: string)
    ensures s.phase.Joining? ==> s.screen.chat <= FinishTurn(s, s.phase.end, full, writable, payload).screen.chat
  {
    hide FinishPending, RunCompact;
    if s.phase.Joining? {
      var t := Joined(s, s.phase.end);
      PendingOnlyAdds(t, writable);
      CompactOnlyAdds(Note(FinishPending(t, writable), NEARLY_FULL), true, payload);
    }
  }

  // ----- what compaction keeps -----

  lemma {:induction false} LastAnswerOf(base: History, added: History)
    ensures LastAnswerText(base + added)
            == if Contents(added) != [] then Contents(added)[|Contents(added)| - 1] else LastAnswerText(base)
    decreases |added|
  {
    if added == [] {
      assert base + added == base;
    } else {
      LastAnswerOf(base, added[..|added| - 1]);
      assert (base + added)[..|base + added| - 1] == base + added[..|added| - 1];
    }
  }

  /** The turn's answers on screen that are not empty. */
  function ShownAnswers(s: State): seq<string>
    requires s.trace.chatMark <= |s.screen.chat|
  {
    NonEmpty(AnswersOf(s.screen.chat[s.trace.chatMark..]))
  }

  /** The last answer shown in this turn, or else the last one from before it. */
  function TextToKeep(s: State): string
    requires s.trace.chatMark <= |s.screen.chat|
  {
    var shown := ShownAnswers(s);
    if shown != [] then shown[|shown| - 1] else LastAnswerText(s.trace.base)
  }

  lemma LastAnswerIsShown(prompt: string, maxIters: int, labels: seq<Label>, t: State)
    requires Runs(Initial(prompt), maxIters, labels, t) && t.phase == Joining(Completed)
    ensures t.trace.chatMark <= |t.screen.chat| && LastAnswerText(t.history) == TextToKeep(t)
  {
    hide Runs, NonEmpty, Contents, AnswersOf, LastAnswerText, FinishTurn;
    ViewAgreesWithHistory(prompt, maxIters, labels, t, false, false, "");
    var added := t.history[|t.trace.base|..];
    LastAnswerOf(t.trace.base, added);
    assert t.history == t.trace.base + added;
  }

  /**
    A completed compaction keeps the last answer that is not empty and was shown in its own turn; only if there is
    none does it fall back to an answer of an earlier turn, and without any the history stays.
   */
  lemma CompactionKeepsLastShown(prompt: string, maxIters: int, labels: seq<Label>, t: State, full: bool,
                                 writable: bool, payload: string)
    requires Runs(Initial(prompt), maxIters, labels, t) && t.phase == Joining(Completed) && t.trace.kind.Compact?
    ensures t.trace.chatMark <= |t.screen.chat|
    ensures FinishTurn(t, Completed, full, writable, payload).history
            == if TextToKeep(t) == "" then t.history
               else Agents.Fresh(t.prompt) + [SystemMessage(Agents.SUMMARY_NOTE + TextToKeep(t))]
    ensures var u := FinishTurn(t, Completed, full, writable, payload);
            && u.prompt == t.prompt && !u.busy
            && u.screen.chat
               == t.screen.chat + [if TextToKeep(t) == "" then Entry(Failure, NO_SUMMARY) else Entry(Aside, COMPACTED)]
  {
    hide Inv, Runs, FinishTurn, TextToKeep, LastAnswerText;
    LastAnswerIsShown(prompt, maxIters, labels, t);
    Reachable(prompt, maxIters, labels, t);
    FlagsAtTheEnd(t);
    SummaryOnly(t, full, writable, payload);
  }

  /**
    A completed project scan takes the same text, without a code fence around it, as the system prompt, if the project
    file can be written and something is left of it.
   */
  lemma InitKeepsLastShown(prompt: string, maxIters: int, labels: seq<Label>, t: State, full: bool, writable: bool,
                           payload: string)
    requires Runs(Initial(prompt), maxIters, labels, t) && t.phase == Joining(Completed) && t.trace.kind.Init?
    ensures t.trace.chatMark <= |t.screen.chat|
    ensures var content := StripCodeFence(TextToKeep(t));
            var u := FinishTurn(t, Completed, full, writable, payload);
            && u.history == t.history && !u.busy
            && u.prompt == (if content == "" || !writable then t.prompt else content)
            && u.screen.chat
               == t.screen.chat + [if content == "" then Entry(Failure, "/init produced no content.")
                                   else if !writable then Entry(Failure, "Could not write AGENTS.md.")
                                   else Entry(Aside, WROTE)]
  {
    hide Inv, Runs, FinishTurn, TextToKeep, LastAnswerText, StripCodeFence;
    LastAnswerIsShown(prompt, maxIters, labels, t);
    Reachable(prompt, maxIters, labels, t);
    InitFlagsAtTheEnd(t);
    PromptOnly(t, full, writable, payload);
  }

  lemma InitFlagsAtTheEnd(s: State)
    requires Inv(s) && s.phase.Joining? && s.trace.kind.Init?
    ensures s.initPending && !s.compactPending
  {
  }

  lemma PromptOnly(s: State, full: bool, writable: bool, payload: string)
    requires s.initPending && !s.compactPending
    ensures var content := StripCodeFence(LastAnswerText(s.history));
            var u := FinishTurn(s, Completed, full, writable, payload);
            && u.history == s.history && !u.busy
            && u.prompt == (if content == "" || !writable then s.prompt else content)
            && u.screen.chat
               == s.screen.chat + [if content == "" then Entry(Failure, "/init produced no content.")
                                   else if !writable then Entry(Failure, "Could not write AGENTS.md.")
                                   else Entry(Aside, WROTE)]
  {
    hide LastAnswerText, RunCompact, StripCodeFence;
  }

  lemma SummaryOnly(s: State, full: bool, writable: bool, payload: string)
    requires s.compactPending && !s.initPending
    ensures FinishTurn(s, Completed, full, writable, payload).history
            == if LastAnswerText(s.history) == "" then s.history
               else Agents.Fresh(s.prompt) + [SystemMessage(Agents.SUMMARY_NOTE + LastAnswerText(s.history))]
    ensures var u := FinishTurn(s, Completed, full, writable, payload);
            && u.prompt == s.prompt && !u.busy
            && u.screen.chat
               == s.screen.chat
                  + [if LastAnswerText(s.history) == "" then Entry(Failure, NO_SUMMARY) else Entry(Aside, COMPACTED)]
  {
    hide LastAnswerText, RunCompact;
  }

  lemma FlagsAtTheEnd(s: State)
    requires Inv(s) && s.phase.Joining? && s.trace.kind.Compact?
    ensures s.compactPending && !s.initPending
  {
  }
}
