/** What every reachable state of the two threads satisfies. */
module ProtocolSafety {
  import opened Options
  import opened Conversation
  import opened Fences
  import opened Screens
  import opened Protocol
  import Agents
  import Confirm

  /** The worker waits for an answer. */
  predicate Blocked(w: Worker) {
    w.Calling? && w.stage.Asking?
  }

  /** The worker has posted its terminal event. */
  predicate Told(w: Worker) {
    w.Leaving? || w.Exited?
  }

  /** How the turn has ended for the worker. */
  function EndOf(w: Worker): Option<Ending> {
    if w.Ended? || w.Leaving? || w.Exited? then Some(w.end) else None
  }

  /** The event a worker in this state has posted last, as far as it matters who handles it. */
  predicate LastFits(w: Worker, e: Event) {
    if Blocked(w) then e.ConfirmRequest?
    else if Told(w) then e == Terminal(w.end)
    else IsStream(e)
  }

  ghost predicate QueueOk(s: State) {
    && (forall i :: 0 <= i < |s.queue| ==> s.queue[i].turn == s.trace.turn)
    && (forall i :: 0 <= i < |s.queue| - 1 ==> IsStream(s.queue[i].event))
    && match s.phase
       case Ready =>
         && (Blocked(s.worker) || Told(s.worker) ==> s.queue != [])
         && (s.queue != [] ==> LastFits(s.worker, s.queue[|s.queue| - 1].event))
       case Answering => s.queue == [] && Blocked(s.worker)
       case Joining(end) => s.queue == [] && Told(s.worker) && s.worker.end == end
       case _ => s.queue == []
  }

  /** Where the worker stands fits what it has done to the history. */
  predicate WorkerOk(s: State) {
    && (s.worker.Calling? ==> s.worker.j < |s.worker.calls|)
    && match s.worker
       case Absent => true
       case Starting(_, _) => s.history == s.trace.base
       case AtTop(mark, _) => mark == |s.trace.base| && s.trace.base <= s.history
       case Streaming(mark, _, _, _) => mark == |s.trace.base| && s.trace.base <= s.history
       case Calling(mark, _, _, _, _) => mark == |s.trace.base| && s.trace.base <= s.history
       case _ => if s.worker.end.Completed? then s.trace.base <= s.history else s.history == s.trace.base
  }

  /** The flags tell what kind of turn runs. */
  predicate FlagsOk(s: State) {
    && (s.busy <==> s.worker != Absent)
    && (s.initPending <==> s.busy && s.trace.kind.Init?)
    && (s.compactPending <==> s.busy && s.trace.kind.Compact?)
    && (!s.busy ==> s.queue == [] && (s.phase.Ready? || s.phase.Closed?))
    && (s.busy ==> !s.phase.Closed?)
    && !s.phase.Crashed?
  }

  /** A turn is cancelled only if Esc was pressed after its own submit. */
  predicate CancelOk(s: State) {
    && (s.busy && s.cancel ==> s.trace.escaped)
    && (EndOf(s.worker) == Some(Cancelled) ==> s.trace.escaped)
  }

  /** An automatic turn is a compaction right behind a completed ordinary turn. */
  predicate FollowsOrdinary(before: seq<Finished>, kind: Kind) {
    && kind.Compact? && before != []
    && before[|before| - 1].kind.Ordinary? && before[|before| - 1].end.Completed?
  }

  predicate FinishedOk(finished: seq<Finished>, k: nat)
    requires k < |finished|
  {
    && (finished[k].automatic ==> FollowsOrdinary(finished[..k], finished[k].kind))
    && (finished[k].end.Cancelled? ==> finished[k].escaped)
  }

  ghost predicate TraceOk(s: State) {
    && (forall k :: 0 <= k < |s.trace.finished| ==> FinishedOk(s.trace.finished, k))
    && (s.busy && s.trace.automatic ==> FollowsOrdinary(s.trace.finished, s.trace.kind))
    && s.trace.turn == |s.trace.finished| + if s.busy then 1 else 0
  }

  ghost predicate Inv(s: State) {
    QueueOk(s) && WorkerOk(s) && FlagsOk(s) && CancelOk(s) && TraceOk(s)
  }

  // ----- submitting -----

  /** Submitting finds no thread to overwrite, and an empty queue. */
  lemma SubmitKeeps(s: State, kind: Kind, automatic: bool, display: string, payload: string, images: seq<Image>)
    requires s.phase.Ready? && s.worker.Absent? && s.queue == [] && !s.busy
    requires s.initPending == kind.Init? && s.compactPending == kind.Compact? && TraceOk(s)
    requires automatic ==> FollowsOrdinary(s.trace.finished, kind)
    ensures Inv(Submit(s, kind, automatic, display, payload, images))
  {
  }

  lemma CompactKeeps(s: State, automatic: bool, payload: string)
    requires Inv(s) && s.phase.Ready? && !s.busy
    requires automatic ==> FollowsOrdinary(s.trace.finished, Compact)
    ensures Inv(RunCompact(s, automatic, payload))
  {
    if HasTurns(s.history) {
      SubmitKeeps(Note(s, SUMMARIZING).(compactPending := true), Compact, automatic, "/compact", payload, []);
    }
  }

  lemma NoteKeeps(s: State, text: string)
    requires Inv(s)
    ensures Inv(Note(s, text))
  {
  }

  lemma UserKeeps(s: State, l: Label)
    requires Inv(s) && s.phase.Ready? && !s.busy && ByUserWhenIdle(l)
    ensures Inv(UserStep(s, l))
  {
    match l {
      case Send(display, payload, images, attached) =>
        SubmitKeeps(s, Ordinary, false, display, payload, images);
        NoteKeeps(Submit(s, Ordinary, false, display, payload, images), Attached(attached));
      case InitCommand(declined, payload) =>
        if !declined {
          SubmitKeeps(Note(s, SCANNING).(initPending := true), Init, false, "/init", payload, []);
        }
      case CompactCommand(payload) => CompactKeeps(s, false, payload);
      case _ =>
    }
  }

  // ----- the worker -----

  /** A worker that is neither waiting nor finished has only stream events in the queue. */
  lemma RunningQueue(s: State)
    requires Inv(s) && s.busy && !Blocked(s.worker) && !Told(s.worker)
    ensures s.phase.Ready? && forall i :: 0 <= i < |s.queue| ==> IsStream(s.queue[i].event)
  {
  }

  /** A step that posts nothing leaves a worker that still has nothing to wait for. */
  lemma SilentKeepsQueue(s: State, t: State)
    requires QueueOk(s) && s.phase.Ready? && t.phase.Ready? && t.queue == s.queue && t.trace == s.trace
    requires forall i :: 0 <= i < |s.queue| ==> IsStream(s.queue[i].event)
    requires !Blocked(t.worker) && !Told(t.worker)
    ensures QueueOk(t)
  {
  }

  predicate Posts(l: Label) {
    l.EmitPiece? || l.AnnounceCall? || (l.Gate? && l.verdict.Ask?) || l.ReportResult? || l.PostEnd?
  }

  predicate Silent(s: State, t: State) {
    t.phase == s.phase && t.queue == s.queue && t.trace == s.trace && !Blocked(t.worker) && !Told(t.worker)
  }

  lemma LoopTestIsSilent(s: State, maxIters: int, pieces: seq<Piece>)
    requires s.worker.AtTop?
    ensures Silent(s, TestLoop(s, maxIters, pieces))
  {
    hide Agents.Exceeded;
  }

  lemma SilentStep(s: State, maxIters: int, l: Label)
    requires ByWorker(l) && WorkerCan(s.worker, s.cancel, l) && !Posts(l) && !l.Exit?
    ensures Silent(s, WorkerStep(s, maxIters, l))
  {
    hide Shortened, Agents.Exceeded, Report, Emit, TestLoop;
    match l {
      case LoopTest(pieces) => LoopTestIsSilent(s, maxIters, pieces);
      case CompleteReply(_) =>
      case Gate(_) =>
      case _ =>
    }
  }

  /** `t` is `s` with one event more in the queue. */
  predicate HasPosted(s: State, t: State) {
    && t.phase == s.phase && t.trace == s.trace
    && |t.queue| == |s.queue| + 1 && t.queue[..|s.queue|] == s.queue
    && t.queue[|s.queue|].turn == s.trace.turn && LastFits(t.worker, t.queue[|s.queue|].event)
  }

  lemma PostHasPosted(s: State, t: State, e: Event)
    requires t.phase == s.phase && t.trace == s.trace && t.queue == s.queue && LastFits(t.worker, e)
    ensures HasPosted(s, Post(t, e))
  {
  }

  lemma EmitPosts(s: State)
    requires s.worker.Streaming? && s.worker.todo != []
    ensures HasPosted(s, Emit(s))
  {
    var t := Emit(s);
    PostHasPosted(s, t.(queue := s.queue), t.queue[|s.queue|].event);
  }

  lemma ReportPosts(s: State, ok: bool, output: string)
    requires WorkerCan(s.worker, s.cancel, ReportResult(ok, output))
    ensures HasPosted(s, Report(s, ok, output))
  {
    hide Shortened;
    var text := if s.worker.stage.run then output else DECLINED;
    var header := s.worker.calls[s.worker.j].name + if ok && s.worker.stage.run then " ✓" else " ✗";
    PostHasPosted(s, Record(s, text), ToolResult(header, Shortened(text)));
  }

  lemma PostingStep(s: State, maxIters: int, l: Label)
    requires ByWorker(l) && WorkerCan(s.worker, s.cancel, l) && Posts(l)
    ensures HasPosted(s, WorkerStep(s, maxIters, l))
  {
    hide Emit, Report, TestLoop, EndReply, RollBack, Shortened;
    var w := s.worker;
    match l {
      case EmitPiece => EmitPosts(s);
      case AnnounceCall =>
        PostHasPosted(s, s.(worker := w.(stage := Gating)),
                      ToolInfo("↳ " + w.calls[w.j].name + " " + w.calls[w.j].arguments));
      case Gate(verdict) =>
        PostHasPosted(s, s.(worker := w.(stage := Asking)), ConfirmRequest(w.calls[w.j].name, verdict.details));
      case ReportResult(ok, output) => ReportPosts(s, ok, output);
      case PostEnd => PostHasPosted(s, s.(worker := Leaving(w.end)), Terminal(w.end));
    }
  }

  lemma PostKeepsQueue(s: State, t: State)
    requires QueueOk(s) && s.phase.Ready? && HasPosted(s, t)
    requires forall i :: 0 <= i < |s.queue| ==> IsStream(s.queue[i].event)
    ensures QueueOk(t)
  {
    assert forall i :: 0 <= i < |s.queue| ==> t.queue[i] == t.queue[..|s.queue|][i];
  }

  lemma WorkerKeepsQueue(s: State, maxIters: int, l: Label)
    requires Inv(s) && ByWorker(l) && WorkerCan(s.worker, s.cancel, l)
    ensures QueueOk(WorkerStep(s, maxIters, l))
  {
    if !l.Exit? {
      RunningQueue(s);
      var t := WorkerStep(s, maxIters, l);
      if Posts(l) {
        PostingStep(s, maxIters, l);
        PostKeepsQueue(s, t);
      } else {
        SilentStep(s, maxIters, l);
        SilentKeepsQueue(s, t);
      }
    }
  }

  /** Steps that leave the history alone. */
  predicate Tells(l: Label) {
    l.EmitPiece? || l.AnnounceCall? || l.Gate? || l.PostEnd? || l.Exit?
  }

  lemma TellingKeepsWorker(s: State, maxIters: int, l: Label)
    requires WorkerOk(s) && ByWorker(l) && WorkerCan(s.worker, s.cancel, l) && Tells(l)
    ensures WorkerOk(WorkerStep(s, maxIters, l))
  {
    hide Shortened, Agents.Exceeded, Report, TestLoop, EndReply, RollBack;
    match l {
      case AnnounceCall =>
      case Gate(_) =>
      case EmitPiece =>
      case _ =>
    }
  }

  lemma RollBackKeepsWorker(s: State, end: Ending)
    requires s.trace.base <= s.history && !end.Completed?
    ensures WorkerOk(RollBack(s, |s.trace.base|, end))
  {
    assert s.history[..|s.trace.base|] == s.trace.base;
  }

  lemma WorkerKeepsWorker(s: State, maxIters: int, l: Label)
    requires WorkerOk(s) && ByWorker(l) && WorkerCan(s.worker, s.cancel, l)
    ensures WorkerOk(WorkerStep(s, maxIters, l))
  {
    match l {
      case LoopTest(_) =>
        RollBackKeepsWorker(s, Cancelled);
        RollBackKeepsWorker(s, Broken(Agents.Exceeded(maxIters).error));
      case AbortReply => RollBackKeepsWorker(s, Cancelled);
      case FailReply(error) => RollBackKeepsWorker(s, Broken(error));
      case Begin =>
      case CompleteReply(_) =>
      case ReportResult(_, _) =>
      case _ => TellingKeepsWorker(s, maxIters, l);
    }
  }

  /** What no step of the worker touches. */
  predicate SameFrame(s: State, t: State) {
    && t.trace == s.trace && t.busy == s.busy && t.phase == s.phase && t.cancel == s.cancel
    && t.initPending == s.initPending && t.compactPending == s.compactPending && t.worker != Absent
  }

  lemma TellingFrame(s: State, maxIters: int, l: Label)
    requires ByWorker(l) && WorkerCan(s.worker, s.cancel, l) && Tells(l)
    ensures SameFrame(s, WorkerStep(s, maxIters, l))
  {
    hide Shortened, Agents.Exceeded, Report, TestLoop, EndReply, RollBack;
    match l {
      case AnnounceCall =>
      case Gate(_) =>
      case EmitPiece =>
      case _ =>
    }
  }

  lemma ReportFrame(s: State, ok: bool, output: string)
    requires WorkerCan(s.worker, s.cancel, ReportResult(ok, output))
    ensures SameFrame(s, Report(s, ok, output))
  {
    hide Shortened;
  }

  lemma LoopTestFrame(s: State, maxIters: int, pieces: seq<Piece>)
    requires s.worker.AtTop?
    ensures SameFrame(s, TestLoop(s, maxIters, pieces))
  {
    hide Agents.Exceeded;
  }

  lemma WorkerFrame(s: State, maxIters: int, l: Label)
    requires ByWorker(l) && WorkerCan(s.worker, s.cancel, l)
    ensures SameFrame(s, WorkerStep(s, maxIters, l))
  {
    hide Report, TestLoop;
    match l {
      case ReportResult(ok, output) => ReportFrame(s, ok, output);
      case LoopTest(pieces) => LoopTestFrame(s, maxIters, pieces);
      case Begin =>
      case CompleteReply(_) =>
      case AbortReply =>
      case FailReply(_) =>
      case _ => TellingFrame(s, maxIters, l);
    }
  }

  /** A worker ends cancelled only when it has seen the flag. */
  lemma CancelledBecauseAsked(s: State, maxIters: int, l: Label)
    requires ByWorker(l) && WorkerCan(s.worker, s.cancel, l)
    ensures EndOf(WorkerStep(s, maxIters, l).worker) == Some(Cancelled) ==> s.cancel || EndOf(s.worker) == Some(Cancelled)
  {
    hide Shortened, Agents.Exceeded;
    match l {
      case AnnounceCall =>
      case Gate(_) =>
      case ReportResult(_, _) =>
      case EmitPiece =>
      case _ =>
    }
  }

  lemma WorkerKeepsRest(s: State, maxIters: int, l: Label)
    requires Inv(s) && ByWorker(l) && WorkerCan(s.worker, s.cancel, l)
    ensures var t := WorkerStep(s, maxIters, l); FlagsOk(t) && CancelOk(t) && TraceOk(t)
  {
    hide WorkerStep, QueueOk, WorkerOk;
    WorkerFrame(s, maxIters, l);
    CancelledBecauseAsked(s, maxIters, l);
  }

  lemma WorkerKeeps(s: State, maxIters: int, l: Label)
    requires Inv(s) && ByWorker(l) && WorkerCan(s.worker, s.cancel, l)
    ensures Inv(WorkerStep(s, maxIters, l))
  {
    WorkerKeepsQueue(s, maxIters, l);
    WorkerKeepsWorker(s, maxIters, l);
    WorkerKeepsRest(s, maxIters, l);
  }

  // ----- the UI thread -----

  /** Popping displays the event; a dialog or a join displays nothing. */
  lemma PopDisplays(s: State)
    requires s.queue != []
    ensures var t := Pop(s);
            && t.screen == Display(s.screen, s.queue[0].event) && t.queue == s.queue[1..]
            && t.worker == s.worker && t.history == s.history && t.trace == s.trace && t.busy == s.busy
  {
    hide DisplayDelta, DisplayReasoning;
  }

  lemma PopKeeps(s: State)
    requires Inv(s) && s.phase.Ready? && s.queue != []
    ensures Inv(Pop(s))
  {
    hide Display;
    var e := s.queue[0].event;
    if IsStream(e) {
      assert Pop(s) == s.(queue := s.queue[1..], screen := Display(s.screen, e));
    } else {
      assert |s.queue| == 1;
    }
  }

  lemma FinishedGrows(before: seq<Finished>, last: Finished)
    requires forall k :: 0 <= k < |before| ==> FinishedOk(before, k)
    requires last.automatic ==> FollowsOrdinary(before, last.kind)
    requires last.end.Cancelled? ==> last.escaped
    ensures forall k :: 0 <= k < |before + [last]| ==> FinishedOk(before + [last], k)
  {
    var all := before + [last];
    forall k | 0 <= k < |all|
      ensures FinishedOk(all, k)
    {
      if k < |before| {
        assert FinishedOk(before, k) && all[..k] == before[..k];
      } else {
        assert all[..k] == before;
      }
    }
  }

  /** A terminal event is handled only when the worker has posted it. */
  lemma JoiningMeansTold(s: State)
    requires Inv(s) && s.phase.Joining?
    ensures s.busy && s.queue == [] && Told(s.worker) && s.worker.end == s.phase.end
  {
  }

  /** The state once the worker is joined and the turn is on record. */
  lemma JoinedKeeps(s: State)
    requires Inv(s) && s.phase.Joining?
    ensures var t := Joined(s, s.phase.end);
            && t.phase.Ready? && !t.busy && t.worker.Absent? && t.queue == [] && TraceOk(t)
            && (s.phase.end.Completed? && s.trace.kind.Ordinary? ==> FollowsOrdinary(t.trace.finished, Compact))
  {
    FinishedGrows(s.trace.finished, Finished(s.trace.kind, s.trace.automatic, s.phase.end, s.trace.escaped));
  }

  /** Idle, but for the pending flags. */
  lemma IdleKeeps(s: State)
    requires s.phase.Ready? && !s.busy && s.worker.Absent? && s.queue == [] && TraceOk(s)
    requires !s.initPending && !s.compactPending
    ensures Inv(s)
  {
  }

  /** `t` differs from `s` in the chat, the history, the prompt and the pending flags at most. */
  predicate SameThreads(s: State, t: State) {
    t.phase == s.phase && t.busy == s.busy && t.worker == s.worker && t.queue == s.queue && t.trace == s.trace
  }

  lemma InitKeeps(s: State, writable: bool)
    ensures var t := FinishInit(s, writable); SameThreads(s, t) && t.compactPending == s.compactPending
  {
    hide StripCodeFence, LastAnswerText;
  }

  lemma SummaryKeeps(s: State)
    ensures var t := FinishCompact(s); SameThreads(s, t) && t.initPending == s.initPending
  {
    hide LastAnswerText, Agents.Fresh;
  }

  lemma PendingKeeps(s: State, writable: bool)
    ensures var t := FinishPending(s, writable); SameThreads(s, t) && !t.initPending && !t.compactPending
  {
    hide FinishInit, FinishCompact;
    InitKeeps(s, writable);
    var a := if s.initPending then FinishInit(s, writable).(initPending := false) else s;
    SummaryKeeps(a);
  }

  lemma FinishKeeps(s: State, full: bool, writable: bool, payload: string)
    requires Inv(s) && s.phase.Joining?
    ensures Inv(FinishTurn(s, s.phase.end, full, writable, payload))
  {
    hide RunCompact, FinishPending, QueueOk, WorkerOk, TraceOk, CancelOk;
    var t := Joined(s, s.phase.end);
    JoinedKeeps(s);
    match s.phase.end {
      case Completed =>
        var b := FinishPending(t, writable);
        PendingKeeps(t, writable);
        SameTrace(t, b);
        IdleKeeps(b);
        if !t.initPending && !t.compactPending && full {
          SameTrace(b, Note(b, NEARLY_FULL));
          IdleKeeps(Note(b, NEARLY_FULL));
          CompactKeeps(Note(b, NEARLY_FULL), true, payload);
        }
      case Cancelled =>
        var b := Note(t.(initPending := false, compactPending := false), CANCELLED);
        SameTrace(t, b);
        IdleKeeps(b);
      case Broken(error) =>
        var b := Fail(t.(initPending := false, compactPending := false), error);
        SameTrace(t, b);
        IdleKeeps(b);
    }
  }

  lemma SameTrace(s: State, t: State)
    requires TraceOk(s) && t.trace == s.trace && t.busy == s.busy
    ensures TraceOk(t)
  {
  }

  lemma EscapeKeeps(s: State, maxIters: int)
    requires Inv(s) && Enabled(s, Escape)
    ensures Inv(Step(s, maxIters, Escape))
  {
  }

  lemma AnswerKeeps(s: State, choice: Confirm.Choice)
    requires Inv(s) && s.phase.Answering?
    ensures Inv(Answer(s, choice))
  {
  }

  lemma StepKeeps(s: State, maxIters: int, l: Label)
    requires Inv(s) && Enabled(s, l)
    ensures Inv(Step(s, maxIters, l))
  {
    hide Inv, UserStep, WorkerStep, Pop, FinishTurn;
    if ByUserWhenIdle(l) {
      UserKeeps(s, l);
    } else if ByWorker(l) {
      WorkerKeeps(s, maxIters, l);
    } else if l.PopEvent? {
      PopKeeps(s);
    } else if l.Join? {
      FinishKeeps(s, l.full, l.writable, l.payload);
    } else if l.Escape? {
      EscapeKeeps(s, maxIters);
    } else if l.AnswerConfirm? {
      AnswerKeeps(s, l.choice);
    }
  }

  /** The invariant holds in every reachable state, for every interleaving. */
  lemma {:induction false} AlwaysInv(s: State, maxIters: int, labels: seq<Label>, t: State)
    requires Inv(s) && Runs(s, maxIters, labels, t)
    ensures Inv(t)
    decreases |labels|
  {
    hide Inv, Step, Enabled;
    if labels != [] {
      StepKeeps(s, maxIters, labels[0]);
      AlwaysInv(Step(s, maxIters, labels[0]), maxIters, labels[1..], t);
    }
  }

  lemma Reachable(prompt: string, maxIters: int, labels: seq<Label>, t: State)
    requires Runs(Initial(prompt), maxIters, labels, t)
    ensures Inv(t)
  {
    hide Runs;
    AlwaysInv(Initial(prompt), maxIters, labels, t);
  }

  // ----- turns do not mix -----

  /** Steps of the UI thread that read or replace the agent's history. */
  predicate TouchesHistory(l: Label) {
    ByUserWhenIdle(l) || l.Join?
  }

  /**
    In every reachable state: a turn runs exactly while there is a worker to join; between turns the queue is empty;
    no thread is ever assigned over one that was not joined; every queued event belongs to the current turn; at most
    one pending flag is set, and only during a turn; and the UI thread touches the history only when no worker
    does.
   */
  lemma TurnsAreIsolated(prompt: string, maxIters: int, labels: seq<Label>, t: State)
    requires Runs(Initial(prompt), maxIters, labels, t)
    ensures t.busy <==> t.worker != Absent
    ensures !t.busy ==> t.queue == []
    ensures t.phase != Crashed
    ensures forall e :: e in t.queue ==> e.turn == t.trace.turn
    ensures !(t.initPending && t.compactPending) && (t.initPending || t.compactPending ==> t.busy)
    ensures forall l :: TouchesHistory(l) && Enabled(t, l) ==> t.worker.Absent? || t.worker.Exited?
  {
    hide Runs, WorkerOk, CancelOk, TraceOk;
    Reachable(prompt, maxIters, labels, t);
  }

  function Count(queue: seq<Posted>, terminal: bool): nat {
    if queue == [] then 0
    else
      var e := queue[|queue| - 1].event;
      Count(queue[..|queue| - 1], terminal) + if (if terminal then e.Terminal? else e.ConfirmRequest?) then 1 else 0
  }

  lemma {:induction false} NoneInStream(queue: seq<Posted>, terminal: bool)
    requires forall i :: 0 <= i < |queue| ==> IsStream(queue[i].event)
    ensures Count(queue, terminal) == 0
    decreases |queue|
  {
    if queue != [] {
      NoneInStream(queue[..|queue| - 1], terminal);
    }
  }

  /**
    A worker that waits has exactly one unanswered request, queued or on screen, and no other request is ever there;
    a turn's terminal event is there exactly once, from the moment it is posted until it is handled, and only the
    last event of the queue can be one.
   */
  lemma OneRequestOneTerminal(prompt: string, maxIters: int, labels: seq<Label>, t: State)
    requires Runs(Initial(prompt), maxIters, labels, t)
    ensures Count(t.queue, false) + (if t.phase.Answering? then 1 else 0) == if Blocked(t.worker) then 1 else 0
    ensures Count(t.queue, true) + (if t.phase.Joining? then 1 else 0) == if Told(t.worker) then 1 else 0
    ensures forall i :: 0 <= i < |t.queue| && t.queue[i].event.Terminal? ==>
              i == |t.queue| - 1 && Told(t.worker) && t.queue[i].event.end == t.worker.end
  {
    hide Runs, WorkerOk, CancelOk, TraceOk;
    Reachable(prompt, maxIters, labels, t);
    if t.queue != [] {
      var front := t.queue[..|t.queue| - 1];
      NoneInStream(front, false);
      NoneInStream(front, true);
    }
  }

  // ----- no deadlock -----

  /** A step that the worker can take unless it waits for the UI thread. */
  function WorkerLabel(w: Worker): Label {
    match w
    case Starting(_, _) => Begin
    case AtTop(_, _) => LoopTest([])
    case Streaming(_, _, todo, _) => if todo != [] then EmitPiece else CompleteReply([])
    case Calling(_, _, _, _, stage) =>
      (match stage
       case Announcing => AnnounceCall
       case Gating => Gate(Run)
       case _ => ReportResult(true, ""))
    case Ended(_) => PostEnd
    case Leaving(_) => Exit
    case _ => Pause
  }

  /** A worker that waits, or is gone, has left the UI thread something to do. */
  lemma UiHasWork(s: State)
    requires Inv(s) && (Blocked(s.worker) || s.worker.Exited?)
    ensures (s.phase.Ready? && s.queue != []) || s.phase.Answering? || (s.phase.Joining? && s.worker.Exited?)
  {
    hide CancelOk, TraceOk, WorkerOk;
  }

  lemma WorkerHasWork(s: State)
    requires Inv(s) && s.busy && !Blocked(s.worker) && !s.worker.Exited?
    ensures ByWorker(WorkerLabel(s.worker)) && WorkerCan(s.worker, s.cancel, WorkerLabel(s.worker))
  {
    hide CancelOk, TraceOk, QueueOk;
  }

  /** While a turn runs, one of the two threads can take a step towards its end. */
  lemma NoDeadlock(prompt: string, maxIters: int, labels: seq<Label>, t: State)
    requires Runs(Initial(prompt), maxIters, labels, t) && t.busy
    ensures exists l :: IsProgress(l) && Enabled(t, l)
  {
    hide Runs, Inv;
    Reachable(prompt, maxIters, labels, t);
    if Blocked(t.worker) || t.worker.Exited? {
      UiHasWork(t);
      var l := match t.phase
        case Ready => PopEvent
        case Answering => AnswerConfirm(Confirm.No)
        case _ => Join(false, false, "");
      assert IsProgress(l) && Enabled(t, l);
    } else {
      hide WorkerCan;
      WorkerHasWork(t);
      assert IsProgress(WorkerLabel(t.worker)) && Enabled(t, WorkerLabel(t.worker));
    }
  }

  /** The UI thread waits for a worker only when that worker has nothing left to wait for. */
  lemma JoinAlwaysReturns(prompt: string, maxIters: int, labels: seq<Label>, t: State)
    requires Runs(Initial(prompt), maxIters, labels, t) && t.phase.Joining?
    ensures Enabled(t, Exit) || Enabled(t, Join(false, false, ""))
    ensures t.worker.Leaving? ==> Enabled(Step(t, maxIters, Exit), Join(false, false, ""))
  {
    hide Runs, FinishTurn, CancelOk, TraceOk, WorkerOk;
    Reachable(prompt, maxIters, labels, t);
  }

  // ----- compaction and cancellation -----

  /**
    Over every run: an automatic turn is a compaction that directly follows a completed ordinary turn, so that
    automatic turns never follow one another; and a turn ends cancelled only if Esc was pressed after its own submit.
   */
  lemma CompactionNeverCascades(prompt: string, maxIters: int, labels: seq<Label>, t: State, k: nat)
    requires Runs(Initial(prompt), maxIters, labels, t) && k < |t.trace.finished|
    ensures t.trace.finished[k].automatic ==>
              && t.trace.finished[k].kind.Compact?
              && k > 0 && !t.trace.finished[k - 1].automatic
              && t.trace.finished[k - 1].kind.Ordinary? && t.trace.finished[k - 1].end.Completed?
    ensures t.trace.finished[k].end.Cancelled? ==> t.trace.finished[k].escaped
  {
    hide Runs, QueueOk, WorkerOk, CancelOk, FlagsOk;
    Reachable(prompt, maxIters, labels, t);
    var f := t.trace.finished;
    assert FinishedOk(f, k);
    if f[k].automatic {
      assert f[k - 1] == f[..k][|f[..k]| - 1];
      assert FinishedOk(f, k - 1);
    }
  }

  /** A turn that fails or is cancelled leaves the history exactly as it was when the turn was submitted. */
  lemma FailureRestoresHistory(prompt: string, maxIters: int, labels: seq<Label>, t: State, full: bool,
                               writable: bool, payload: string)
    requires Runs(Initial(prompt), maxIters, labels, t) && t.phase.Joining? && !t.phase.end.Completed?
    ensures FinishTurn(t, t.phase.end, full, writable, payload).history == t.trace.base
  {
    hide Runs;
    Reachable(prompt, maxIters, labels, t);
  }
}
