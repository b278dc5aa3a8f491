/** What the user's commands and the end of a turn do, in every reachable state. */
module ProtocolCommands {
  import opened Sequences
  import opened Conversation
  import opened Screens
  import opened Protocol
  import opened ProtocolSafety
  import opened ProtocolHistory
  import Agents

  // ----- clearing -----

  /** Nothing is left of the conversation: no chat entry, and of the history exactly the system prompt. */
  lemma ClearForgets(s: State, maxIters: int)
    requires Enabled(s, ClearCommand)
    ensures var t := Step(s, maxIters, ClearCommand);
            && t.screen.chat == [] && HoldsOnly(t.history, s.prompt)
            && t == s.(screen := t.screen, history := t.history)
  {
  }

  /** From a history `h` at the end of turn `n`: the next turn starts from `h`, and sends it with one user message. */
  predicate StartsFrom(s: State, h: History, n: nat) {
    && n <= s.trace.turn
    && (s.trace.turn == n ==> !s.busy && s.history == h && h == Agents.Fresh(s.prompt))
    && (s.trace.turn == n + 1 && s.busy ==>
          && (s.worker.Starting? ==> s.history == h)
          && (s.worker.AtTop? && s.worker.iter == 0 ==>
                s.history != [] && s.history[..|s.history| - 1] == h && s.history[|s.history| - 1].role == User))
  }

  lemma SubmitStartsFrom(s: State, kind: Kind, automatic: bool, display: string, payload: string, images: seq<Image>,
                         h: History, n: nat)
    requires StartsFrom(s, h, n) && s.worker.Absent?
    ensures StartsFrom(Submit(s, kind, automatic, display, payload, images), h, n)
  {
    hide Opened;
  }

  lemma CompactStartsFrom(s: State, automatic: bool, payload: string, h: History, n: nat)
    requires StartsFrom(s, h, n) && s.worker.Absent?
    ensures StartsFrom(RunCompact(s, automatic, payload), h, n)
  {
    hide Submit, HasTurns;
    SubmitStartsFrom(Note(s, SUMMARIZING).(compactPending := true), Compact, automatic, "/compact", payload, [], h, n);
  }

  lemma UserStartsFrom(s: State, l: Label, h: History, n: nat)
    requires StartsFrom(s, h, n) && Inv(s) && s.phase.Ready? && !s.busy && ByUserWhenIdle(l)
    ensures StartsFrom(UserStep(s, l), h, n)
  {
    hide Submit, RunCompact, QueueOk, TraceOk, CancelOk, WorkerOk, Attached;
    match l {
      case Send(display, payload, images, attached) =>
        SubmitStartsFrom(s, Ordinary, false, display, payload, images, h, n);
      case InitCommand(declined, payload) =>
        SubmitStartsFrom(Note(s, SCANNING).(initPending := true), Init, false, "/init", payload, [], h, n);
      case CompactCommand(payload) => CompactStartsFrom(s, false, payload, h, n);
      case _ =>
    }
  }

  lemma WorkerStartsFrom(s: State, maxIters: int, l: Label, h: History, n: nat)
    requires StartsFrom(s, h, n) && Inv(s) && ByWorker(l) && WorkerCan(s.worker, s.cancel, l)
    ensures StartsFrom(WorkerStep(s, maxIters, l), h, n)
  {
    hide QueueOk, TraceOk, CancelOk, Agents.Fresh;
    if l.Begin? {
      var all := s.history + [UserMessage(s.worker.payload, s.worker.images)];
      assert all[..|all| - 1] == s.history;
    }
  }

  lemma FinishStartsFrom(s: State, h: History, n: nat, full: bool, writable: bool, payload: string)
    requires StartsFrom(s, h, n) && Inv(s) && s.phase.Joining? && s.busy
    ensures StartsFrom(FinishTurn(s, s.phase.end, full, writable, payload), h, n)
  {
    hide FinishPending, RunCompact, QueueOk, WorkerOk, TraceOk, CancelOk;
    var joined := Joined(s, s.phase.end);
    PendingKeeps(joined, writable);
    CompactStartsFrom(Note(FinishPending(joined, writable), NEARLY_FULL), true, payload, h, n);
  }

  lemma StepStartsFrom(s: State, maxIters: int, l: Label, h: History, n: nat)
    requires StartsFrom(s, h, n) && Inv(s) && Enabled(s, l)
    ensures StartsFrom(Step(s, maxIters, l), h, n)
  {
    hide UserStep, WorkerStep, FinishTurn, Pop, QueueOk, TraceOk, CancelOk, Agents.Fresh;
    if ByUserWhenIdle(l) {
      UserStartsFrom(s, l, h, n);
    } else if ByWorker(l) {
      WorkerStartsFrom(s, maxIters, l, h, n);
    } else if l.Join? {
      FinishStartsFrom(s, h, n, l.full, l.writable, l.payload);
    } else if l.PopEvent? {
      PopDisplays(s);
      PopKeepsFlags(s);
    }
  }

  lemma PopKeepsFlags(s: State)
    requires s.queue != []
    ensures Pop(s).prompt == s.prompt && Pop(s).cancel == s.cancel
  {
    hide Display;
  }

  lemma {:induction false} AlwaysStartsFrom(s: State, maxIters: int, labels: seq<Label>, t: State, h: History, n: nat)
    requires StartsFrom(s, h, n) && Inv(s) && Runs(s, maxIters, labels, t)
    ensures StartsFrom(t, h, n)
    decreases |labels|
  {
    hide Inv, StartsFrom, Step, Enabled;
    if labels != [] {
      StepKeeps(s, maxIters, labels[0]);
      StepStartsFrom(s, maxIters, labels[0], h, n);
      AlwaysStartsFrom(Step(s, maxIters, labels[0]), maxIters, labels[1..], t, h, n);
    }
  }

  /**
    After /clear, whatever comes in between: the first request of the next turn holds the system prompt, if there is
    one, and one message of the user, and so nothing from before.
   */
  lemma NextTurnKnowsNothing(prompt: string, maxIters: int, labels: seq<Label>, s: State, more: seq<Label>, t: State)
    requires Runs(Initial(prompt), maxIters, labels, s) && Enabled(s, ClearCommand)
    requires Runs(Step(s, maxIters, ClearCommand), maxIters, more, t)
    requires t.trace.turn == s.trace.turn + 1 && t.worker.AtTop? && t.worker.iter == 0
    ensures t.history != [] && HoldsOnly(t.history[..|t.history| - 1], s.prompt)
    ensures t.history[|t.history| - 1].role == User
  {
    hide Runs;
    Reachable(prompt, maxIters, labels, s);
    var cleared := Step(s, maxIters, ClearCommand);
    ClearForgets(s, maxIters);
    StepKeeps(s, maxIters, ClearCommand);
    AlwaysStartsFrom(cleared, maxIters, more, t, cleared.history, s.trace.turn);
    AlwaysInv(cleared, maxIters, more, t);
  }

  // ----- Esc -----

  /** The turn is being stopped: no request goes out any more, and the reply that is coming in can be aborted. */
  predicate Stopping(before: Worker, s: State) {
    s.cancel && (s.worker.Streaming? ==> before.Streaming? && s.worker.iter == before.iter)
  }

  predicate StoppingIn(before: Worker, n: nat, s: State) {
    n <= s.trace.turn && (s.trace.turn == n && s.busy ==> Stopping(before, s))
  }

  lemma FinishKeepsStopping(before: Worker, n: nat, s: State, full: bool, writable: bool, payload: string)
    requires StoppingIn(before, n, s) && s.phase.Joining?
    ensures StoppingIn(before, n, FinishTurn(s, s.phase.end, full, writable, payload))
  {
    hide FinishPending, Submit;
    var joined := Joined(s, s.phase.end);
    PendingKeeps(joined, writable);
    SubmitIsNext(Note(Note(FinishPending(joined, writable), NEARLY_FULL), SUMMARIZING).(compactPending := true), Compact,
                 true, "/compact", payload, []);
  }

  lemma SubmitIsNext(s: State, kind: Kind, automatic: bool, display: string, payload: string, images: seq<Image>)
    ensures var t := Submit(s, kind, automatic, display, payload, images);
            if s.worker.Absent? then t.trace.turn == s.trace.turn + 1 else t.trace == s.trace && t.busy == s.busy
  {
    hide Opened;
  }

  lemma UserKeepsStopping(before: Worker, n: nat, s: State, l: Label)
    requires StoppingIn(before, n, s) && !s.busy && s.worker.Absent? && ByUserWhenIdle(l)
    ensures StoppingIn(before, n, UserStep(s, l))
  {
    hide Submit, Attached;
    match l {
      case Send(display, payload, images, attached) =>
        SubmitIsNext(s, Ordinary, false, display, payload, images);
      case InitCommand(declined, payload) =>
        SubmitIsNext(Note(s, SCANNING).(initPending := true), Init, false, "/init", payload, []);
      case CompactCommand(payload) =>
        SubmitIsNext(Note(s, SUMMARIZING).(compactPending := true), Compact, false, "/compact", payload, []);
      case _ =>
    }
  }

  lemma WorkerKeepsStopping(before: Worker, n: nat, s: State, maxIters: int, l: Label)
    requires StoppingIn(before, n, s) && s.busy && ByWorker(l) && WorkerCan(s.worker, s.cancel, l)
    ensures StoppingIn(before, n, WorkerStep(s, maxIters, l))
  {
    hide Shortened;
  }

  lemma StepKeepsStopping(before: Worker, n: nat, s: State, maxIters: int, l: Label)
    requires StoppingIn(before, n, s) && Inv(s) && Enabled(s, l)
    ensures StoppingIn(before, n, Step(s, maxIters, l))
  {
    hide QueueOk, WorkerOk, TraceOk, CancelOk, UserStep, FinishTurn, Pop, WorkerStep;
    if ByUserWhenIdle(l) {
      UserKeepsStopping(before, n, s, l);
    } else if ByWorker(l) {
      WorkerKeepsStopping(before, n, s, maxIters, l);
    } else if l.Join? {
      FinishKeepsStopping(before, n, s, l.full, l.writable, l.payload);
    } else if l.PopEvent? {
      PopDisplays(s);
      PopKeepsFlags(s);
    }
  }

  lemma {:induction false} AlwaysStopping(before: Worker, n: nat, s: State, maxIters: int, labels: seq<Label>, t: State)
    requires StoppingIn(before, n, s) && Inv(s) && Runs(s, maxIters, labels, t)
    ensures StoppingIn(before, n, t)
    decreases |labels|
  {
    hide Inv, StoppingIn, Step, Enabled;
    if labels != [] {
      StepKeeps(s, maxIters, labels[0]);
      StepKeepsStopping(before, n, s, maxIters, labels[0]);
      AlwaysStopping(before, n, Step(s, maxIters, labels[0]), maxIters, labels[1..], t);
    }
  }

  lemma EscapeStarts(s: State, maxIters: int)
    requires Enabled(s, Escape)
    ensures StoppingIn(s.worker, s.trace.turn, Step(s, maxIters, Escape))
    ensures Step(s, maxIters, Escape).screen.chat
            == s.screen.chat + if s.cancel then [] else [Entry(Aside, "⏹ Cancelling…")]
  {
  }

  lemma CancelledBeforeRequest(t: State, maxIters: int, pieces: seq<Piece>)
    requires t.cancel && t.worker.AtTop?
    ensures Enabled(t, LoopTest(pieces)) && Step(t, maxIters, LoopTest(pieces)).worker.Ended?
    ensures Step(t, maxIters, LoopTest(pieces)).worker.end.Cancelled? <==> t.worker.iter < maxIters
  {
  }

  /**
    Esc during a turn: from then on, in every run, this turn sends no further request, and a reply that is still
    coming in can be aborted at any time. The user is told the first time.
   */
  lemma EscStopsTheTurn(prompt: string, maxIters: int, labels: seq<Label>, s: State, more: seq<Label>, t: State)
    requires Runs(Initial(prompt), maxIters, labels, s) && Enabled(s, Escape)
    requires Runs(Step(s, maxIters, Escape), maxIters, more, t) && t.trace.turn == s.trace.turn && t.busy
    ensures t.worker.Streaming? ==> s.worker.Streaming? && t.worker.iter == s.worker.iter && Enabled(t, AbortReply)
    ensures t.worker.AtTop? ==>
              forall pieces :: Enabled(t, LoopTest(pieces)) && Step(t, maxIters, LoopTest(pieces)).worker.Ended?
    ensures Step(s, maxIters, Escape).screen.chat
            == s.screen.chat + if s.cancel then [] else [Entry(Aside, "⏹ Cancelling…")]
  {
    hide Runs, Step, Inv;
    Reachable(prompt, maxIters, labels, s);
    var u := Step(s, maxIters, Escape);
    EscapeStarts(s, maxIters);
    StepKeeps(s, maxIters, Escape);
    AlwaysStopping(s.worker, s.trace.turn, u, maxIters, more, t);
    if t.worker.AtTop? {
      forall pieces
        ensures Enabled(t, LoopTest(pieces)) && Step(t, maxIters, LoopTest(pieces)).worker.Ended?
      {
        CancelledBeforeRequest(t, maxIters, pieces);
      }
    }
  }

  // ----- how a turn starts and ends -----

  /** The entries of a screen when a turn is submitted: what was there, the user's text, and a line for every image. */
  lemma {:induction false} EntriesAreAdded(s: Screen, lines: seq<string>)
    ensures var chat := AddAll(s, lines).chat;
            && |chat| == |s.chat| + |lines| && s.chat <= chat
            && forall k :: 0 <= k < |lines| ==> chat[|s.chat| + k] == Entry(Aside, lines[k])
    decreases |lines|
  {
    if lines != [] {
      EntriesAreAdded(Add(s, Aside, lines[0]), lines[1..]);
    }
  }

  /** Submitting shows what the user typed, names every image, and starts the worker with the payload. */
  lemma SubmitShows(s: State, kind: Kind, automatic: bool, display: string, payload: string, images: seq<Image>)
    requires s.worker.Absent?
    ensures var t := Submit(s, kind, automatic, display, payload, images);
            var n, chat := |s.screen.chat|, t.screen.chat;
            && |chat| == n + 1 + |images| && s.screen.chat <= chat && chat[n] == Entry(You, display)
            && (forall k :: 0 <= k < |images| ==>
                  chat[n + 1 + k] == Entry(Aside, "🖼 " + images[k].name + " (" + images[k].size + ")"))
            && t.busy && !t.cancel && t.worker == Starting(payload, images) && t.history == s.history
  {
    hide AddAll;
    var shown := Add(s.screen, You, display);
    EntriesAreAdded(shown, Placeholders(images));
    var chat := AddAll(shown, Placeholders(images)).chat;
    assert Submit(s, kind, automatic, display, payload, images).screen.chat == chat;
    assert shown.chat <= chat && shown.chat[|s.screen.chat|] == Entry(You, display);
    forall k | 0 <= k < |images|
      ensures chat[|s.screen.chat| + 1 + k] == Entry(Aside, "🖼 " + images[k].name + " (" + images[k].size + ")")
    {
      assert chat[|shown.chat| + k] == Entry(Aside, Placeholders(images)[k]);
    }
  }

  /** Which commands start a turn: an answered /init, and a /compact as soon as there is a turn to compact. */
  lemma CommandsStartTurnsIff(s: State, maxIters: int, declined: bool, payload: string)
    requires Inv(s) && s.phase.Ready? && !s.busy
    ensures var t := Step(s, maxIters, InitCommand(declined, payload));
            && (t.busy <==> !declined)
            && (t.busy ==> t.worker == Starting(payload, []) && t.trace.kind == Init && t.initPending)
    ensures var t := Step(s, maxIters, CompactCommand(payload));
            && (t.busy <==> exists i :: 0 <= i < |s.history| && s.history[i].role != System)
            && (t.busy ==> t.worker == Starting(payload, []) && t.trace.kind == Compact && t.compactPending)
    ensures Step(s, maxIters, InitCommand(declined, payload)).history == s.history
    ensures Step(s, maxIters, CompactCommand(payload)).history == s.history
  {
    hide Opened, QueueOk, TraceOk, CancelOk;
  }

  /** A typed line is submitted as an ordinary turn, and behind it the attached files are listed, if there are any. */
  lemma SendSubmits(s: State, maxIters: int, display: string, payload: string, images: seq<Image>, attached: seq<string>)
    requires Inv(s) && s.phase.Ready? && !s.busy
    ensures var t := Step(s, maxIters, Send(display, payload, images, attached));
            var n := |s.screen.chat| + 1 + |images|;
            && t.busy && t.worker == Starting(payload, images) && t.trace.kind == Ordinary && t.history == s.history
            && !t.initPending && !t.compactPending
            && |t.screen.chat| == n + (if attached == [] then 0 else 1)
            && s.screen.chat + [Entry(You, display)] <= t.screen.chat
            && (attached != [] ==> t.screen.chat[n].speaker == Aside && t.screen.chat[n].text == Listed(attached))
  {
    hide Opened, QueueOk, TraceOk, CancelOk;
    SubmitShows(s, Ordinary, false, display, payload, images);
    IsListed(attached);
  }

  /** "attached:" and then every path behind a space. */
  function Listed(paths: seq<string>): string {
    "attached:" + EachBehindSpace(paths)
  }

  function EachBehindSpace(paths: seq<string>): string {
    if paths == [] then "" else " " + paths[0] + EachBehindSpace(paths[1..])
  }

  lemma {:induction false} OneMorePath(paths: seq<string>, path: string)
    ensures EachBehindSpace(paths + [path]) == EachBehindSpace(paths) + (" " + path)
    decreases |paths|
  {
    if paths == [] {
      assert [path][1..] == [] && [] + [path] == [path];
    } else {
      OneMorePath(paths[1..], path);
      assert (paths + [path])[1..] == paths[1..] + [path];
    }
  }

  lemma {:induction false} IsListed(paths: seq<string>)
    ensures Attached(paths) == Listed(paths)
    decreases |paths|
  {
    if paths != [] {
      var front, last := paths[..|paths| - 1], paths[|paths| - 1];
      IsListed(front);
      OneMorePath(front, last);
      assert paths == front + [last];
      assert Attached(paths) == Attached(front) + " " + last;
      hide Attached, EachBehindSpace;
      Assoc("attached:", EachBehindSpace(front), " " + last);
      Assoc(Attached(front), " ", last);
    }
  }

  /** A notice is shown and does nothing else; after quitting no command is accepted. */
  lemma NoticesAndQuitting(s: State, maxIters: int, text: string, l: Label)
    requires Enabled(s, NoticeCommand(text))
    ensures var t := Step(s, maxIters, NoticeCommand(text));
            t == s.(screen := t.screen) && t.screen == s.screen.(chat := s.screen.chat + [Entry(Aside, text)])
    ensures ByUserWhenIdle(l) || l.Escape? ==> !Enabled(Step(s, maxIters, QuitCommand), l)
  {
  }

  /** A turn that fails tells its error, a cancelled one that it was cancelled, and no other turn follows by itself. */
  lemma BadEndIsTold(s: State, full: bool, writable: bool, payload: string)
    requires s.phase.Joining? && !s.phase.end.Completed?
    ensures var t := FinishTurn(s, s.phase.end, full, writable, payload);
            && !t.busy && t.worker.Absent? && !t.initPending && !t.compactPending
            && t.history == s.history && t.prompt == s.prompt
            && t.screen.chat
               == s.screen.chat + [match s.phase.end
                                   case Broken(error) => Entry(Failure, error)
                                   case _ => Entry(Aside, "⏹ Generation cancelled.")]
  {
  }

  lemma TurnIsNotEmpty(prompt: string, maxIters: int, labels: seq<Label>, t: State)
    requires Runs(Initial(prompt), maxIters, labels, t) && t.phase == Joining(Completed)
    ensures HasTurns(t.history)
  {
    hide Runs, WellFormedHistory, Rounds, Turns;
    Agents.FreshIsWellFormed(prompt, "");
    Reachable(prompt, maxIters, labels, t);
    AlwaysFits(Initial(prompt), maxIters, labels, t);
    assert t.history[|t.trace.base|..][0] == t.history[|t.trace.base|];
  }

  /** When an ordinary turn has completed, the conversation is compacted if and only if the context is full. */
  lemma FullContextIsCompactedIff(prompt: string, maxIters: int, labels: seq<Label>, t: State, full: bool,
                                  writable: bool, payload: string)
    requires Runs(Initial(prompt), maxIters, labels, t) && t.phase == Joining(Completed) && t.trace.kind.Ordinary?
    ensures var u := FinishTurn(t, Completed, full, writable, payload);
            && u.history == t.history && u.prompt == t.prompt
            && (u.busy <==> full)
            && (u.busy ==>
                  u.worker == Starting(payload, []) && u.trace.kind == Compact && u.trace.automatic && u.compactPending)
            && (!u.busy ==> u.screen == t.screen)
  {
    hide Runs, HasTurns, Opened, QueueOk, TraceOk, CancelOk;
    Reachable(prompt, maxIters, labels, t);
    TurnIsNotEmpty(prompt, maxIters, labels, t);
  }

  // ----- tool calls -----

  /** The user is asked about the tool by name, with the details of this call. */
  lemma UserIsAsked(s: State, maxIters: int, details: string)
    requires Enabled(s, Gate(Ask(details)))
    ensures var t := Step(s, maxIters, Gate(Ask(details)));
            && t.queue == s.queue + [Posted(s.trace.turn, ConfirmRequest(s.worker.calls[s.worker.j].name, details))]
            && Blocked(t.worker) && t.history == s.history
  {
  }

  /**
    Each call is announced with its name and arguments, and its result with a mark that says whether the tool was
    allowed to run and succeeded; the model is told the whole output, or that the user declined.
   */
  lemma CallsAreTold(s: State, maxIters: int, ok: bool, output: string)
    requires s.worker.Calling? && s.worker.j < |s.worker.calls|
    ensures var call := s.worker.calls[s.worker.j];
            Enabled(s, AnnounceCall) ==>
              Step(s, maxIters, AnnounceCall).queue
              == s.queue + [Posted(s.trace.turn, ToolInfo("↳ " + call.name + " " + call.arguments))]
    ensures var call, l := s.worker.calls[s.worker.j], ReportResult(ok, output);
            Enabled(s, l) ==>
              var t, ran := Step(s, maxIters, l), s.worker.stage.run;
              && |t.queue| == |s.queue| + 1 && t.queue[|s.queue|].event.ToolResult?
              && t.queue[|s.queue|].event.header == call.name + (if ran && ok then " ✓" else " ✗")
              && t.history
                 == s.history + [ToolMessage(call.id, if ran then output else "User declined to run this tool.")]
  {
    hide Shortened;
  }
}
