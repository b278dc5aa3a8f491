/** The controller of src/app/App.cpp: what each of its methods does to the shared state. */
module Apps {
  import opened Options
  import opened Conversation
  import opened Fences
  import opened Screens
  import opened Protocol
  import opened ProtocolSafety
  import Agents
  import Confirm
  import Queues

  /** What draining the queue needs to find: during a turn, indices that point to entries of this turn. */
  ghost predicate CanDrain(s: State) {
    Inv(s) && (s.busy ==> ScreenOk(s.screen, s.trace.chatMark))
  }

  lemma PopCanDrain(s: State)
    requires CanDrain(s) && s.phase == Ready && s.queue != []
    ensures CanDrain(Pop(s))
  {
    PopKeeps(s);
    DisplayShows(s.screen, s.trace.chatMark, s.queue[0].event);
  }

  lemma PopShortens(s: State)
    requires s.queue != []
    ensures |Pop(s).queue| < |s.queue|
  {
    hide Screens.Display;
  }

  /** The UI thread with nothing else running: it takes events until the queue is empty or one makes it wait. */
  function Drained(s: State): State
    decreases |s.queue|
  {
    if s.queue == [] || s.phase != Ready then s else PopShortens(s); Drained(Pop(s))
  }

  lemma DrainedNext(s: State)
    ensures Drained(s) == if s.queue == [] || s.phase != Ready then s else Drained(Pop(s))
  {
    hide Pop;
  }

  class App {
    var phase: Phase
    var busy: bool
    var initPending: bool
    var compactPending: bool
    var chat: seq<Entry>
    var thinkingIdx: Option<nat>
    var contentIdx: Option<nat>
    const events: Queues.ThreadQueue<Posted>
    var cancelRequested: bool
    var history: History
    var systemPrompt: string
    var worker: Worker
    var turn: nat
    ghost var trace: Trace

    ghost function Display(): Screen
      reads this
    {
      Screen(chat, thinkingIdx, contentIdx)
    }

    ghost function State(): State
      reads this, events
    {
      Protocol.State(phase, busy, initPending, compactPending, Display(), events.queue, cancelRequested, history,
                     systemPrompt, worker, trace)
    }

    ghost predicate Valid()
      reads this
    {
      turn == trace.turn
    }

    constructor (prompt: string)
      ensures Valid() && State() == Initial(prompt) && fresh(events)
    {
      phase := Ready;
      busy, initPending, compactPending := false, false, false;
      chat, thinkingIdx, contentIdx := [], None, None;
      events := new Queues.ThreadQueue<Posted>();
      cancelRequested := false;
      history := if prompt == "" then [] else [SystemMessage(prompt)];
      systemPrompt := prompt;
      worker := Absent;
      turn := 0;
      trace := Trace(0, Ordinary, false, false, 0, [], []);
    }

    method AddEntry(speaker: Speaker, text: string)
      modifies this`chat
      ensures Display() == Add(old(Display()), speaker, text)
    {
      chat := chat + [Entry(speaker, text)];
    }

    method ShowSubmitted(display: string, images: seq<Image>)
      modifies this`chat, this`thinkingIdx, this`contentIdx
      ensures Display() == Opened(old(Display()), display, images)
    {
      AddEntry(You, display);
      ghost var start := Display();
      var i := 0;
      while i < |images|
        invariant 0 <= i <= |images| && contentIdx == start.content && thinkingIdx == start.thinking
        invariant AddAll(Display(), Placeholders(images)[i..]) == AddAll(start, Placeholders(images))
        decreases |images| - i
      {
        assert Placeholders(images)[i..][1..] == Placeholders(images)[i + 1..];
        AddEntry(Aside, Placeholder(images[i]));
        i := i + 1;
      }
      thinkingIdx, contentIdx := None, None;
    }

    /** Starting a thread over one that is joinable would end the program. */
    method Submit(ghost kind: Kind, ghost automatic: bool, display: string, payload: string, images: seq<Image>)
      requires Valid() && worker == Absent
      modifies this
      ensures Valid() && State() == Protocol.Submit(old(State()), kind, automatic, display, payload, images)
    {
      hide AddAll, Placeholders, Opened;
      ShowSubmitted(display, images);
      busy := true;
      cancelRequested := false;
      worker := Starting(payload, images);
      turn := turn + 1;
      trace := Trace(turn, kind, automatic, false, |chat|, history, trace.finished);
    }

    /** Sends a typed line with what its attachments expand to, and then lists the attached files. */
    method HandleUserInput(line: string, payload: string, images: seq<Image>, attached: seq<string>)
      requires Valid() && worker == Absent
      modifies this
      ensures Valid() && State() == UserStep(old(State()), Send(line, payload, images, attached))
    {
      hide Protocol.Submit;
      Submit(Ordinary, false, line, payload, images);
      if attached != [] {
        var note := "attached:";
        for i := 0 to |attached|
          invariant note == Attached(attached[..i])
        {
          assert attached[..i + 1][..i] == attached[..i];
          note := note + " " + attached[i];
        }
        assert attached[..|attached|] == attached;
        AddEntry(Aside, note);
      }
    }

    /** `declined` is the answer to the question whether an existing project file may be overwritten. */
    method RunInit(declined: bool, payload: string)
      requires Valid() && worker == Absent
      modifies this
      ensures Valid() && State() == UserStep(old(State()), InitCommand(declined, payload))
    {
      if declined {
        AddEntry(Aside, INIT_CANCELLED);
        return;
      }
      AddEntry(Aside, SCANNING);
      initPending := true;
      Submit(Init, false, "/init", payload, []);
    }

    method HasTurns() returns (found: bool)
      ensures found == Protocol.HasTurns(history)
    {
      found := false;
      for i := 0 to |history|
        invariant found == exists k :: 0 <= k < i && history[k].role != System
      {
        if history[i].role != System {
          found := true;
        }
      }
    }

    method RunCompact(ghost automatic: bool, payload: string)
      requires Valid() && worker == Absent
      modifies this
      ensures Valid() && State() == Protocol.RunCompact(old(State()), automatic, payload)
    {
      var hasTurns := HasTurns();
      if !hasTurns {
        AddEntry(Aside, NOTHING_TO_COMPACT);
        return;
      }
      AddEntry(Aside, SUMMARIZING);
      compactPending := true;
      Submit(Compact, automatic, "/compact", payload, []);
    }

    method LastAnswer() returns (text: string)
      ensures text == LastAnswerText(history)
    {
      var i := |history|;
      text := "";
      assert history[..i] == history;
      while i > 0
        invariant 0 <= i <= |history|
        invariant LastAnswerText(history) == LastAnswerText(history[..i])
        decreases i
      {
        i := i - 1;
        assert history[..i + 1][..i] == history[..i];
        if history[i].role == Role.Assistant && history[i].content != "" {
          return history[i].content;
        }
      }
    }

    method FinishInit(writable: bool)
      modifies this
      ensures State() == Protocol.FinishInit(old(State()), writable) && turn == old(turn)
    {
      hide StripCodeFence;
      var last := LastAnswer();
      var content := StripCodeFence(last);
      if content == "" {
        AddEntry(Failure, NO_CONTENT);
        return;
      }
      if !writable {
        AddEntry(Failure, NOT_WRITTEN);
        return;
      }
      systemPrompt := content;
      AddEntry(Aside, WROTE);
    }

    method FinishCompact()
      modifies this
      ensures State() == Protocol.FinishCompact(old(State())) && turn == old(turn)
    {
      hide LastAnswerText;
      var summary := LastAnswer();
      if summary == "" {
        AddEntry(Failure, NO_SUMMARY);
        return;
      }
      history := [];
      if systemPrompt != "" {
        history := history + [SystemMessage(systemPrompt)];
      }
      history := history + [SystemMessage(Agents.SUMMARY_NOTE + summary)];
      AddEntry(Aside, COMPACTED);
    }

    /** `full` says that automatic compaction is on and the context nearly full. */
    method MaybeAutoCompact(full: bool, payload: string)
      requires Valid() && worker == Absent
      modifies this
      ensures Valid()
      ensures State() == if full then Protocol.RunCompact(Note(old(State()), NEARLY_FULL), true, payload)
                         else old(State())
    {
      if !full {
        return;
      }
      AddEntry(Aside, NEARLY_FULL);
      RunCompact(true, payload);
    }

    method ShowReasoning(text: string)
      requires thinkingIdx.Some? ==> thinkingIdx.value < |chat|
      modifies this`chat, this`thinkingIdx
      ensures Display() == DisplayReasoning(old(Display()), text)
    {
      if thinkingIdx == None {
        AddEntry(Thinker, "");
        thinkingIdx := Some(|chat| - 1);
      }
      var i := thinkingIdx.value;
      chat := chat[i := chat[i].(text := chat[i].text + text)];
    }

    method ShowDelta(text: string)
      requires contentIdx.Some? ==> contentIdx.value < |chat|
      modifies this`chat, this`contentIdx
      ensures Display() == DisplayDelta(old(Display()), text)
    {
      if contentIdx == None {
        AddEntry(Speaker.Assistant, "");
        contentIdx := Some(|chat| - 1);
      }
      var i := contentIdx.value;
      chat := chat[i := chat[i].(text := chat[i].text + text)];
    }

    /** Handles one event from the queue, up to the point where it makes the thread wait. */
    method HandleNext() returns (handled: bool)
      requires CanDrain(State()) && phase == Ready
      modifies this, events
      ensures handled == (old(events.queue) != [])
      ensures State() == if handled then Pop(old(State())) else old(State())
      ensures turn == old(turn)
    {
      hide QueueOk, WorkerOk, CancelOk, TraceOk, ViewOf, ShowAll, Handled;
      var popped := events.TryPop();
      if popped.None? {
        return false;
      }
      assert events.queue == old(events.queue)[1..];
      HandleEvent(popped.value.event);
      handled := true;
    }

    /** What an event adds to the chat, or what the thread then waits for. */
    method HandleEvent(e: Event)
      requires phase == Ready
      requires (thinkingIdx.Some? ==> thinkingIdx.value < |chat|) && (contentIdx.Some? ==> contentIdx.value < |chat|)
      modifies this
      ensures State() == Handled(old(State()), e) && turn == old(turn)
    {
      match e {
        case Reasoning(text) => ShowReasoning(text);
        case Delta(text) => ShowDelta(text);
        case ToolInfo(text) =>
          AddEntry(Aside, text);
          contentIdx := None;
        case ToolResult(header, text) =>
          AddEntry(Tool(header), text);
          contentIdx := None;
        case ConfirmRequest(_, _) => phase := Answering;
        case Terminal(end) => phase := Joining(end);
      }
    }

    method DrainEvents()
      requires CanDrain(State()) && phase == Ready
      modifies this, events
      ensures State() == Drained(old(State())) && CanDrain(State()) && turn == old(turn)
    {
      hide CanDrain, Pop, Drained;
      var more := true;
      while more && phase == Ready
        invariant CanDrain(State()) && turn == old(turn)
        invariant Drained(State()) == Drained(old(State()))
        invariant more || events.queue == []
        decreases more, |events.queue|
      {
        ghost var before := State();
        DrainedNext(before);
        if before.queue != [] {
          PopShortens(before);
          PopCanDrain(before);
        }
        more := HandleNext();
      }
      DrainedNext(State());
    }

    /** The dialog is answered: the promise is fulfilled and the worker may go on. */
    method AnswerDialog(choice: Confirm.Choice)
      requires Inv(State()) && phase == Answering
      modifies this
      ensures State() == Answer(old(State()), choice) && turn == old(turn)
    {
      worker := worker.(stage := Cleared(!choice.No?));
      phase := Ready;
    }

    method FinishPending(writable: bool)
      requires Valid()
      modifies this
      ensures Valid() && State() == Protocol.FinishPending(old(State()), writable)
    {
      hide Protocol.FinishInit, Protocol.FinishCompact;
      InitKeeps(State(), writable);
      if initPending {
        FinishInit(writable);
        initPending := false;
      }
      SummaryKeeps(State());
      if compactPending {
        FinishCompact();
        compactPending := false;
      }
    }

    /** The terminal event: joining waits until the worker has exited, which is the precondition here. */
    method FinishTurn(full: bool, writable: bool, payload: string)
      requires Valid() && phase.Joining? && worker.Exited?
      modifies this
      ensures Valid() && State() == Protocol.FinishTurn(old(State()), old(phase).end, full, writable, payload)
    {
      hide Protocol.FinishPending, Protocol.RunCompact;
      var end := phase.end;
      JoinWorker();
      match end {
        case Completed =>
          var wasInit, wasCompact := initPending, compactPending;
          PendingKeeps(State(), writable);
          FinishPending(writable);
          if !wasInit && !wasCompact {
            MaybeAutoCompact(full, payload);
          }
        case Cancelled =>
          initPending, compactPending := false, false;
          AddEntry(Aside, CANCELLED);
        case Broken(error) =>
          initPending, compactPending := false, false;
          AddEntry(Failure, error);
      }
    }

    method JoinWorker()
      requires Valid() && phase.Joining? && worker.Exited?
      modifies this
      ensures Valid() && State() == Joined(old(State()), old(phase).end)
    {
      trace := trace.(finished := trace.finished + [Finished(trace.kind, trace.automatic, phase.end, trace.escaped)]);
      phase, worker, busy := Ready, Absent, false;
    }

    method PressEscape()
      requires phase == Ready && busy
      modifies this
      ensures State() == Interrupt(old(State())) && turn == old(turn)
    {
      var before := cancelRequested;
      cancelRequested := true;
      trace := trace.(escaped := true);
      if !before {
        AddEntry(Aside, CANCELLING);
      }
    }

    method Clear()
      modifies this
      ensures State() == UserStep(old(State()), ClearCommand) && turn == old(turn)
    {
      chat := [];
      history := if systemPrompt == "" then [] else [SystemMessage(systemPrompt)];
    }

    /** On the worker thread: posts the request; until it is answered the worker waits. */
    method RequestConfirmation(details: string)
      requires Valid() && worker.Calling? && worker.j < |worker.calls| && worker.stage.Gating?
      modifies this, events
      ensures State() == PassGate(old(State()), Ask(details)) && turn == old(turn)
    {
      var call := worker.calls[worker.j];
      worker := worker.(stage := Asking);
      events.Push(Posted(turn, ConfirmRequest(call.name, details)));
    }
  }
}
