/**
  The two threads of src/app/App.cpp as a step relation: the UI thread takes user input and drains events, the worker
  thread runs one turn of the agent; they share the event queue, the cancel flag and a one-shot answer.
 */
module Protocol {
  import opened Options
  import opened Conversation
  import opened Fences
  import opened Screens
  import Agents
  import Confirm

  // ----- the worker thread -----

  /** A piece of a streamed reply. */
  datatype Piece = Content(text: string) | Thought(text: string)

  /** The answer text in some pieces. */
  function TextOf(pieces: seq<Piece>): string {
    if pieces == [] then "" else (if pieces[0].Content? then pieces[0].text else "") + TextOf(pieces[1..])
  }

  /** Where the worker stands with one tool call; while Asking it is blocked. */
  datatype Stage = Announcing | Gating | Asking | Cleared(run: bool)

  datatype Worker =
    | Absent                                                    // no thread to join
    | Starting(payload: string, images: seq<Image>)
    | AtTop(mark: nat, iter: nat)                               // about to test the loop condition and the flag
    | Streaming(mark: nat, iter: nat, todo: seq<Piece>, said: string)
    | Calling(mark: nat, iter: nat, calls: seq<ToolCall>, j: nat, stage: Stage)
    | Ended(end: Ending)                                        // the turn is over, nobody has been told
    | Leaving(end: Ending)                                      // the terminal event is posted
    | Exited(end: Ending)

  // ----- the UI thread -----

  datatype Phase =
    | Ready                       // in the event loop
    | Answering                   // showing a confirmation dialog
    | Joining(end: Ending)        // handling a terminal event, waiting for the worker to exit
    | Closed                      // the program has quit
    | Crashed                     // a thread was assigned over one that had not been joined

  datatype Kind = Ordinary | Init | Compact

  datatype Finished = Finished(kind: Kind, automatic: bool, end: Ending, escaped: bool)

  /** Not in the program: what the current turn is, what it started from, and the turns before it. */
  datatype Trace = Trace(turn: nat, kind: Kind, automatic: bool, escaped: bool, chatMark: nat, base: History,
                         finished: seq<Finished>)

  datatype State = State(phase: Phase, busy: bool, initPending: bool, compactPending: bool, screen: Screen,
                         queue: seq<Posted>, cancel: bool, history: History, prompt: string, worker: Worker,
                         trace: Trace)

  // ----- what the UI thread does -----

  const CANCELLING := "⏹ Cancelling…"
  const CANCELLED := "⏹ Generation cancelled."
  const NOTHING_TO_COMPACT := "Nothing to compact yet."
  const SUMMARIZING := "Summarizing the conversation to compact the context…"
  const NO_SUMMARY := "/compact produced no summary; context left unchanged."
  const COMPACTED := "✓ Context compacted — the model now continues from the summary above."
  const NEARLY_FULL := "Context is nearly full — auto-compacting…"
  const NO_CONTENT := "/init produced no content."
  const NOT_WRITTEN := "Could not write AGENTS.md."
  const WROTE := "Wrote AGENTS.md. Use /clear to start a conversation with it as the system prompt."
  const SCANNING := "Scanning the project and generating AGENTS.md…"
  const INIT_CANCELLED := "/init cancelled."

  function Note(s: State, text: string): State {
    s.(screen := Add(s.screen, Aside, text))
  }

  function Fail(s: State, text: string): State {
    s.(screen := Add(s.screen, Failure, text))
  }

  function AddAll(s: Screen, lines: seq<string>): Screen
    decreases |lines|
  {
    if lines == [] then s else AddAll(Add(s, Aside, lines[0]), lines[1..])
  }

  /** The line that stands for an image on screen. */
  function Placeholder(image: Image): string {
    "🖼 " + image.name + " (" + image.size + ")"
  }

  function Placeholders(images: seq<Image>): seq<string> {
    seq(|images|, k requires 0 <= k < |images| => Placeholder(images[k]))
  }

  /** The screen when a turn is submitted: the user's text and a line per image. */
  function Opened(s: Screen, display: string, images: seq<Image>): Screen {
    AddAll(Add(s, You, display), Placeholders(images)).(thinking := None, content := None)
  }

  function Submit(s: State, kind: Kind, automatic: bool, display: string, payload: string, images: seq<Image>): State {
    if s.worker != Absent then s.(phase := Crashed)
    else
      var screen := Opened(s.screen, display, images);
      s.(screen := screen, busy := true, cancel := false, worker := Starting(payload, images),
         trace := Trace(s.trace.turn + 1, kind, automatic, false, |screen.chat|, s.history, s.trace.finished))
  }

  /** The note that lists the attached files, behind the submitted turn. */
  function Attached(paths: seq<string>): string {
    if paths == [] then "attached:" else Attached(paths[..|paths| - 1]) + " " + paths[|paths| - 1]
  }

  predicate HasTurns(h: History) {
    exists i :: 0 <= i < |h| && h[i].role != System
  }

  function RunCompact(s: State, automatic: bool, payload: string): State {
    if !HasTurns(s.history) then Note(s, NOTHING_TO_COMPACT)
    else Submit(Note(s, SUMMARIZING).(compactPending := true), Compact, automatic, "/compact", payload, [])
  }

  /** The last assistant text that is not empty, anywhere in the history, or the empty text. */
  function LastAnswerText(h: History): string {
    if h == [] then ""
    else
      var m := h[|h| - 1];
      if m.role == Role.Assistant && m.content != "" then m.content else LastAnswerText(h[..|h| - 1])
  }

  function FinishCompact(s: State): State {
    var summary := LastAnswerText(s.history);
    if summary == "" then Fail(s, NO_SUMMARY)
    else
      Note(s.(history := Agents.Fresh(s.prompt) + [SystemMessage(Agents.SUMMARY_NOTE + summary)]), COMPACTED)
  }

  /** The last answer, without a code fence around it, becomes the system prompt if the project file is `writable`. */
  function FinishInit(s: State, writable: bool): State {
    var content := StripCodeFence(LastAnswerText(s.history));
    if content == "" then Fail(s, NO_CONTENT)
    else if !writable then Fail(s, NOT_WRITTEN)
    else Note(s.(prompt := content), WROTE)
  }

  function FinishPending(s: State, writable: bool): State {
    var a := if s.initPending then FinishInit(s, writable).(initPending := false) else s;
    if a.compactPending then FinishCompact(a).(compactPending := false) else a
  }

  /** The worker is joined, and the turn goes on record. */
  function Joined(s: State, end: Ending): State {
    s.(phase := Ready, worker := Absent, busy := false,
       trace := s.trace.(finished := s.trace.finished
                                     + [Finished(s.trace.kind, s.trace.automatic, end, s.trace.escaped)]))
  }

  /**
    Handling the terminal event once the worker is joined; `full` says that the context is nearly full, and `payload` is
    what the model is then asked.
   */
  function FinishTurn(s: State, end: Ending, full: bool, writable: bool, payload: string): State {
    var joined := Joined(s, end);
    match end
    case Completed =>
      var b := FinishPending(joined, writable);
      if joined.initPending || joined.compactPending || !full then b
      else RunCompact(Note(b, NEARLY_FULL), true, payload)
    case Cancelled => Note(joined.(initPending := false, compactPending := false), CANCELLED)
    case Broken(error) => Fail(joined.(initPending := false, compactPending := false), error)
  }

  /** What handling an event comes to: a dialog, a join, or something to display. */
  function Handled(s: State, e: Event): State {
    match e
    case ConfirmRequest(_, _) => s.(phase := Answering)
    case Terminal(end) => s.(phase := Joining(end))
    case _ => s.(screen := Display(s.screen, e))
  }

  /** Takes one event from the queue. */
  function Pop(s: State): State
    requires s.queue != []
  {
    Handled(s.(queue := s.queue[1..]), s.queue[0].event)
  }

  // ----- what the worker thread does -----

  function Post(s: State, e: Event): State {
    s.(queue := s.queue + [Posted(s.trace.turn, e)])
  }

  /** The turn fails: everything it added to the history is dropped. */
  function RollBack(s: State, mark: nat, end: Ending): State {
    s.(history := if mark <= |s.history| then s.history[..mark] else s.history, worker := Ended(end))
  }

  function TestLoop(s: State, maxIters: int, pieces: seq<Piece>): State
    requires s.worker.AtTop?
  {
    var w := s.worker;
    if w.iter >= maxIters then RollBack(s, w.mark, Broken(Agents.Exceeded(maxIters).error))
    else if s.cancel then RollBack(s, w.mark, Cancelled)
    else s.(worker := Streaming(w.mark, w.iter, pieces, ""))
  }

  function Emit(s: State): State
    requires s.worker.Streaming? && s.worker.todo != []
  {
    var w, piece := s.worker, s.worker.todo[0];
    Post(s.(worker := w.(todo := w.todo[1..], said := if piece.Content? then w.said + piece.text else w.said)),
         if piece.Content? then Delta(piece.text) else Reasoning(piece.text))
  }

  /** The reply is complete: its text is what was streamed. */
  function EndReply(s: State, calls: seq<ToolCall>): State
    requires s.worker.Streaming?
  {
    var w := s.worker;
    s.(history := s.history + [AssistantMessage(w.said, calls)],
       worker := if calls == [] then Ended(Completed) else Calling(w.mark, w.iter, calls, 0, Announcing))
  }

  datatype Verdict = Ask(details: string) | Run | Refuse

  function PassGate(s: State, verdict: Verdict): State
    requires s.worker.Calling? && s.worker.j < |s.worker.calls|
  {
    match verdict
    case Ask(details) =>
      Post(s.(worker := s.worker.(stage := Asking)), ConfirmRequest(s.worker.calls[s.worker.j].name, details))
    case Run => s.(worker := s.worker.(stage := Cleared(true)))
    case Refuse => s.(worker := s.worker.(stage := Cleared(false)))
  }

  const DECLINED := "User declined to run this tool."

  /** Only the display of a long result is cut. */
  function Shortened(output: string): string {
    if |output| > 4000 then output[..4000] + "\n… [truncated]" else output
  }

  /** The result of a call goes into the history, and the worker on to the next call or iteration. */
  function Record(s: State, text: string): State
    requires s.worker.Calling? && s.worker.j < |s.worker.calls|
  {
    var w := s.worker;
    s.(history := s.history + [ToolMessage(w.calls[w.j].id, text)],
       worker := if w.j + 1 < |w.calls| then w.(j := w.j + 1, stage := Announcing) else AtTop(w.mark, w.iter + 1))
  }

  function Report(s: State, ok: bool, output: string): State
    requires s.worker.Calling? && s.worker.j < |s.worker.calls| && s.worker.stage.Cleared?
  {
    var ran := s.worker.stage.run;
    var text := if ran then output else DECLINED;
    Post(Record(s, text), ToolResult(s.worker.calls[s.worker.j].name + if ok && ran then " ✓" else " ✗", Shortened(text)))
  }

  // ----- steps -----

  datatype Label =
    // the user, when no turn runs
    | Send(display: string, payload: string, images: seq<Image>, attached: seq<string>)
    | InitCommand(declined: bool, payload: string)
    | CompactCommand(payload: string)
    | ClearCommand
    | NoticeCommand(text: string)
    | QuitCommand
    // the user, during a turn
    | Escape
    // the UI thread
    | PopEvent
    | AnswerConfirm(choice: Confirm.Choice)
    | Join(full: bool, writable: bool, payload: string)
    // the worker thread
    | Begin
    | LoopTest(pieces: seq<Piece>)
    | EmitPiece
    | AbortReply
    | FailReply(error: string)
    | CompleteReply(calls: seq<ToolCall>)
    | AnnounceCall
    | Gate(verdict: Verdict)
    | ReportResult(ok: bool, output: string)
    | PostEnd
    | Exit
    // nothing happens: a key that does nothing, or a thread that is not scheduled
    | Pause

  predicate ByUserWhenIdle(l: Label) {
    l.Send? || l.InitCommand? || l.CompactCommand? || l.ClearCommand? || l.NoticeCommand? || l.QuitCommand?
  }

  predicate ByUi(l: Label) {
    l.PopEvent? || l.AnswerConfirm? || l.Join?
  }

  predicate ByWorker(l: Label) {
    l.Begin? || l.LoopTest? || l.EmitPiece? || l.AbortReply? || l.FailReply? || l.CompleteReply? || l.AnnounceCall?
    || l.Gate? || l.ReportResult? || l.PostEnd? || l.Exit?
  }

  /** Steps that take a turn towards its end. */
  predicate IsProgress(l: Label) {
    ByUi(l) || ByWorker(l)
  }

  predicate WorkerCan(w: Worker, cancel: bool, l: Label) {
    match l
    case Begin => w.Starting?
    case LoopTest(_) => w.AtTop?
    case EmitPiece => w.Streaming? && w.todo != []
    case AbortReply => w.Streaming? && cancel
    case FailReply(_) => w.Streaming?
    case CompleteReply(_) => w.Streaming? && w.todo == []
    case AnnounceCall => w.Calling? && w.j < |w.calls| && w.stage.Announcing?
    case Gate(_) => w.Calling? && w.j < |w.calls| && w.stage.Gating?
    case ReportResult(_, _) => w.Calling? && w.j < |w.calls| && w.stage.Cleared?
    case PostEnd => w.Ended?
    case Exit => w.Leaving?
    case _ => false
  }

  predicate Enabled(s: State, l: Label) {
    if ByUserWhenIdle(l) then s.phase.Ready? && !s.busy
    else if ByWorker(l) then WorkerCan(s.worker, s.cancel, l)
    else
      match l
      case Escape => s.phase.Ready? && s.busy
      case PopEvent => s.phase.Ready? && s.queue != []
      case AnswerConfirm(_) => s.phase.Answering?
      case Join(_, _, _) => s.phase.Joining? && (s.worker.Absent? || s.worker.Exited?)
      case _ => l.Pause?
  }

  function UserStep(s: State, l: Label): State
    requires ByUserWhenIdle(l)
  {
    match l
    case Send(display, payload, images, attached) =>
      var t := Submit(s, Ordinary, false, display, payload, images);
      if attached == [] then t else Note(t, Attached(attached))
    case InitCommand(declined, payload) =>
      if declined then Note(s, INIT_CANCELLED)
      else Submit(Note(s, SCANNING).(initPending := true), Init, false, "/init", payload, [])
    case CompactCommand(payload) => RunCompact(s, false, payload)
    case ClearCommand => s.(screen := s.screen.(chat := []), history := Agents.Fresh(s.prompt))
    case NoticeCommand(text) => Note(s, text)
    case QuitCommand => s.(phase := Closed)
  }

  function WorkerStep(s: State, maxIters: int, l: Label): State
    requires ByWorker(l) && WorkerCan(s.worker, s.cancel, l)
  {
    match l
    case Begin =>
      s.(history := s.history + [UserMessage(s.worker.payload, s.worker.images)], worker := AtTop(|s.history|, 0))
    case LoopTest(pieces) => TestLoop(s, maxIters, pieces)
    case EmitPiece => Emit(s)
    case AbortReply => RollBack(s, s.worker.mark, Cancelled)
    case FailReply(error) => RollBack(s, s.worker.mark, Broken(error))
    case CompleteReply(calls) => EndReply(s, calls)
    case AnnounceCall =>
      Post(s.(worker := s.worker.(stage := Gating)),
           ToolInfo("↳ " + s.worker.calls[s.worker.j].name + " " + s.worker.calls[s.worker.j].arguments))
    case Gate(verdict) => PassGate(s, verdict)
    case ReportResult(ok, output) => Report(s, ok, output)
    case PostEnd => Post(s.(worker := Leaving(s.worker.end)), Terminal(s.worker.end))
    case Exit => s.(worker := Exited(s.worker.end))
  }

  /** Fulfils the promise the worker waits for. */
  function Answer(s: State, choice: Confirm.Choice): State {
    if s.worker.Calling? && s.worker.stage.Asking?
    then s.(phase := Ready, worker := s.worker.(stage := Cleared(!choice.No?)))
    else s.(phase := Ready)
  }

  /** Esc: the flag is set, and the user told the first time. */
  function Interrupt(s: State): State {
    var t := s.(cancel := true, trace := s.trace.(escaped := true));
    if s.cancel then t else Note(t, CANCELLING)
  }

  function Step(s: State, maxIters: int, l: Label): State
    requires Enabled(s, l)
  {
    if ByUserWhenIdle(l) then UserStep(s, l)
    else if ByWorker(l) then WorkerStep(s, maxIters, l)
    else
      match l
      case Escape => Interrupt(s)
      case PopEvent => Pop(s)
      case AnswerConfirm(choice) => Answer(s, choice)
      case Join(full, writable, payload) => FinishTurn(s, s.phase.end, full, writable, payload)
      case _ => s
  }

  function Initial(prompt: string): State {
    State(Ready, false, false, false, Screen([], None, None), [], false, Agents.Fresh(prompt), prompt, Absent,
          Trace(0, Ordinary, false, false, 0, [], []))
  }

  /** A run of the program: every label is enabled where it is taken. */
  ghost predicate Runs(s: State, maxIters: int, labels: seq<Label>, t: State)
    decreases |labels|
  {
    if labels == [] then s == t
    else Enabled(s, labels[0]) && Runs(Step(s, maxIters, labels[0]), maxIters, labels[1..], t)
  }
}
