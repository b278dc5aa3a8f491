/** The history stays well formed while the two threads take turns with it. */
module ProtocolHistory {
  import opened Conversation
  import opened Screens
  import opened Protocol
  import opened ProtocolSafety
  import Agents

  /** A user message and whole rounds. */
  predicate Underway(added: History) {
    added != [] && added[0].role == User && Rounds(added[1..])
  }

  /** Underway, then a request for tools of which the first `j` calls are answered. */
  predicate UnderwayIn(added: History, calls: seq<ToolCall>, j: nat) {
    j <= |calls| && j + 1 < |added|
    && var n := |added| - j - 1;
       && Underway(added[..n])
       && added[n].role == Role.Assistant && added[n].calls == calls
       && Answers(added[n + 1..], calls[..j])
  }

  predicate Fits(w: Worker, added: History) {
    match w
    case AtTop(_, _) => Underway(added)
    case Streaming(_, _, _, _) => Underway(added)
    case Calling(_, _, calls, j, _) => j < |calls| && UnderwayIn(added, calls, j)
    case Ended(end) => end.Completed? ==> Turn(added)
    case Leaving(end) => end.Completed? ==> Turn(added)
    case Exited(end) => end.Completed? ==> Turn(added)
    case _ => true
  }

  ghost predicate HistoryInv(s: State) {
    if s.busy then
      && WellFormedHistory(s.trace.base) && |s.trace.base| <= |s.history|
      && Fits(s.worker, s.history[|s.trace.base|..])
    else WellFormedHistory(s.history)
  }

  // ----- the worker -----

  lemma OneMore(base: History, h: History, m: Message)
    requires |base| <= |h|
    ensures (h + [m])[|base|..] == h[|base|..] + [m]
  {
  }

  lemma EndUnderway(added: History, m: Message)
    requires Underway(added) && m.role == Role.Assistant
    ensures m.calls == [] ==> Turn(added + [m])
    ensures m.calls != [] ==> UnderwayIn(added + [m], m.calls, 0)
  {
    var all := added + [m];
    if m.calls == [] {
      assert all[1..|all| - 1] == added[1..];
    } else {
      assert all[..|all| - 1] == added && all[|all|..] == [];
    }
  }

  lemma AnswerOne(added: History, calls: seq<ToolCall>, j: nat, m: Message)
    requires j < |calls| && UnderwayIn(added, calls, j) && m.role == ToolRole && m.callId == calls[j].id
    ensures UnderwayIn(added + [m], calls, j + 1)
  {
    var n := |added| - j - 1;
    var all := added + [m];
    assert all[..n] == added[..n];
    assert all[n + 1..] == added[n + 1..] + [m];
  }

  lemma AllAnswered(added: History, calls: seq<ToolCall>)
    requires UnderwayIn(added, calls, |calls|) && calls != []
    ensures Underway(added)
  {
    var n := |added| - |calls| - 1;
    var done, results := added[..n][1..], added[n + 1..];
    assert calls[..|calls|] == calls;
    RoundsSnoc(done, added[n], results);
    assert added[1..] == done + [added[n]] + results;
  }

  lemma RecordFits(s: State, text: string)
    requires s.busy && HistoryInv(s) && s.worker.Calling?
    ensures HistoryInv(Record(s, text))
  {
    var w := s.worker;
    var added, m := s.history[|s.trace.base|..], ToolMessage(w.calls[w.j].id, text);
    OneMore(s.trace.base, s.history, m);
    AnswerOne(added, w.calls, w.j, m);
    if w.j + 1 == |w.calls| {
      AllAnswered(added + [m], w.calls);
    }
  }

  lemma ReplyFits(s: State, calls: seq<ToolCall>)
    requires s.busy && HistoryInv(s) && s.worker.Streaming?
    ensures HistoryInv(EndReply(s, calls))
  {
    var m := AssistantMessage(s.worker.said, calls);
    OneMore(s.trace.base, s.history, m);
    EndUnderway(s.history[|s.trace.base|..], m);
  }

  lemma BeginFits(s: State, maxIters: int)
    requires s.busy && HistoryInv(s) && s.worker.Starting? && WorkerOk(s)
    ensures HistoryInv(WorkerStep(s, maxIters, Begin))
  {
    var m := UserMessage(s.worker.payload, s.worker.images);
    OneMore(s.trace.base, s.history, m);
    assert s.history[|s.trace.base|..] + [m] == [m];
  }

  /** A turn that fails has nothing left to fit. */
  lemma RollBackFits(s: State, end: Ending)
    requires s.busy && HistoryInv(s) && !end.Completed?
    ensures HistoryInv(RollBack(s, |s.trace.base|, end))
  {
  }

  /** The same place in the conversation. */
  predicate SamePlace(v: Worker, w: Worker) {
    || (v.Streaming? && w.Streaming?)
    || (v.Calling? && w.Calling? && v.calls == w.calls && v.j == w.j)
    || (EndOf(v).Some? && EndOf(v) == EndOf(w))
  }

  lemma SamePlaceFits(v: Worker, w: Worker, added: History)
    requires SamePlace(v, w) && Fits(v, added)
    ensures Fits(w, added)
  {
  }

  predicate Kept(s: State, t: State) {
    SamePlace(s.worker, t.worker) && t.history == s.history && t.trace == s.trace && t.busy == s.busy
  }

  lemma EmitKeepsPlace(s: State)
    requires s.worker.Streaming? && s.worker.todo != []
    ensures Kept(s, Emit(s))
  {
  }

  lemma GateKeepsPlace(s: State, verdict: Verdict)
    requires s.worker.Calling? && s.worker.j < |s.worker.calls|
    ensures Kept(s, PassGate(s, verdict))
  {
  }

  lemma TellingKeepsPlace(s: State, maxIters: int, l: Label)
    requires ByWorker(l) && WorkerCan(s.worker, s.cancel, l)
    requires Tells(l)
    ensures Kept(s, WorkerStep(s, maxIters, l))
  {
    hide Shortened, Report, TestLoop, EndReply, RollBack, Emit, PassGate;
    match l {
      case EmitPiece => EmitKeepsPlace(s);
      case Gate(verdict) => GateKeepsPlace(s, verdict);
      case _ =>
    }
  }

  /** Telling the UI thread something changes nothing here. */
  lemma TellingFits(s: State, maxIters: int, l: Label)
    requires s.busy && HistoryInv(s) && ByWorker(l) && WorkerCan(s.worker, s.cancel, l)
    requires Tells(l)
    ensures HistoryInv(WorkerStep(s, maxIters, l))
  {
    TellingKeepsPlace(s, maxIters, l);
    SamePlaceFits(s.worker, WorkerStep(s, maxIters, l).worker, s.history[|s.trace.base|..]);
  }

  lemma WorkerFits(s: State, maxIters: int, l: Label)
    requires s.busy && WorkerOk(s) && HistoryInv(s) && ByWorker(l) && WorkerCan(s.worker, s.cancel, l)
    ensures HistoryInv(WorkerStep(s, maxIters, l))
  {
    match l {
      case Begin => BeginFits(s, maxIters);
      case LoopTest(pieces) =>
        RollBackFits(s, Cancelled);
        RollBackFits(s, Broken(Agents.Exceeded(maxIters).error));
      case AbortReply => RollBackFits(s, Cancelled);
      case FailReply(error) => RollBackFits(s, Broken(error));
      case CompleteReply(calls) => ReplyFits(s, calls);
      case ReportResult(ok, output) => RecordFits(s, if s.worker.stage.run then output else DECLINED);
      case _ => TellingFits(s, maxIters, l);
    }
  }

  // ----- the UI thread -----

  lemma CompactFits(s: State, automatic: bool, payload: string)
    requires WellFormedHistory(s.history) && s.worker.Absent? && !s.busy
    ensures HistoryInv(RunCompact(s, automatic, payload))
  {
  }

  lemma UserFits(s: State, l: Label)
    requires Inv(s) && HistoryInv(s) && s.phase.Ready? && !s.busy && ByUserWhenIdle(l)
    ensures HistoryInv(UserStep(s, l))
  {
    if l.CompactCommand? {
      CompactFits(s, false, l.payload);
    } else if l.ClearCommand? {
      Agents.FreshIsWellFormed(s.prompt, "");
    }
  }

  lemma PendingFits(s: State, writable: bool)
    requires WellFormedHistory(s.history)
    ensures WellFormedHistory(FinishPending(s, writable).history)
  {
    hide WellFormedHistory;
    var a := if s.initPending then FinishInit(s, writable).(initPending := false) else s;
    assert a.history == s.history;
    Agents.FreshIsWellFormed(a.prompt, Agents.SUMMARY_NOTE + LastAnswerText(a.history));
  }

  lemma FinishFits(s: State, full: bool, writable: bool, payload: string)
    requires Inv(s) && HistoryInv(s) && s.phase.Joining?
    ensures HistoryInv(FinishTurn(s, s.phase.end, full, writable, payload))
  {
    hide FinishPending, RunCompact, WellFormedHistory, QueueOk, TraceOk, CancelOk;
    var base, t := s.trace.base, Joined(s, s.phase.end);
    JoiningMeansTold(s);
    if s.phase.end.Completed? {
      var added := s.history[|base|..];
      assert s.history == base + added;
      WellFormedSnoc(base, added);
      PendingFits(t, writable);
      PendingKeeps(t, writable);
      if !t.initPending && !t.compactPending && full {
        CompactFits(Note(FinishPending(t, writable), NEARLY_FULL), true, payload);
      }
    }
  }

  lemma StepFits(s: State, maxIters: int, l: Label)
    requires Inv(s) && HistoryInv(s) && Enabled(s, l)
    ensures HistoryInv(Step(s, maxIters, l))
  {
    hide QueueOk, TraceOk, CancelOk, UserStep, WorkerStep, FinishTurn, Handled, Rounds, Answers, Pop;
    if ByUserWhenIdle(l) {
      UserFits(s, l);
    } else if ByWorker(l) {
      WorkerFits(s, maxIters, l);
    } else if l.PopEvent? {
      PopDisplays(s);
    } else if l.Join? {
      FinishFits(s, l.full, l.writable, l.payload);
    }
  }

  lemma {:induction false} AlwaysFits(s: State, maxIters: int, labels: seq<Label>, t: State)
    requires Inv(s) && HistoryInv(s) && Runs(s, maxIters, labels, t)
    ensures HistoryInv(t)
    decreases |labels|
  {
    hide Inv, HistoryInv, Step, Enabled;
    if labels != [] {
      StepKeeps(s, maxIters, labels[0]);
      StepFits(s, maxIters, labels[0]);
      AlwaysFits(Step(s, maxIters, labels[0]), maxIters, labels[1..], t);
    }
  }

  lemma UnderwayIsAnswered(base: History, added: History)
    requires WellFormedHistory(base) && Underway(added)
    ensures EveryCallAnswered(base + added)
  {
    WellFormedIsAnswered(base);
    UserIsAnswered(added[0]);
    RoundsAreAnswered(added[1..]);
    AnsweredConcat([added[0]], added[1..]);
    assert added == [added[0]] + added[1..];
    AnsweredConcat(base, added);
  }

  /**
    Over every run, whatever the user does and however the threads interleave: between turns the history is at most
    two system messages and whole turns, and whenever a request is out, every tool call in it is answered.
   */
  lemma HistoryStaysWellFormed(prompt: string, maxIters: int, labels: seq<Label>, t: State)
    requires Runs(Initial(prompt), maxIters, labels, t)
    ensures !t.busy ==> WellFormedHistory(t.history)
    ensures t.worker.Streaming? ==> EveryCallAnswered(t.history)
  {
    hide Runs, WellFormedHistory, EveryCallAnswered;
    Agents.FreshIsWellFormed(prompt, "");
    Reachable(prompt, maxIters, labels, t);
    AlwaysFits(Initial(prompt), maxIters, labels, t);
    if t.worker.Streaming? {
      UnderwayIsAnswered(t.trace.base, t.history[|t.trace.base|..]);
      assert t.history == t.trace.base + t.history[|t.trace.base|..];
    }
  }
}
