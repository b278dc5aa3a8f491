/** Compaction can keep an answer that is older than its own turn. */
module ProtocolCompaction {
  import opened Conversation
  import opened Screens
  import opened Protocol
  import opened ProtocolSafety
  import opened ProtocolAgent
  import opened ProtocolView
  import Agents
  import Confirm

  /** A model server that answers every request with this text. */
  function Says(text: string): Agents.World {
    Agents.World(i => false, (i, h) => Agents.ApiResult(true, false, "", text, [], 0),
                 (i, j) => "", (i, j) => Confirm.No, (i, j) => "")
  }

  /** The text comes in one piece. */
  function InOnePiece(text: string): Arrivals {
    (i, h) => [Content(text)]
  }

  lemma OnePieceSpells(text: string)
    ensures Spells(InOnePiece(text), Says(text))
  {
    assert [Content(text)][1..] == [] && text + "" == text;
  }

  const NO_RULES := Confirm.Gate({}, {}, false, {})

  lemma SaysOnce(s: State, maxIters: int, payload: string, images: seq<Image>, text: string)
    requires maxIters >= 1
    ensures var a := Agents.AgentState(s.prompt, s.history, NO_RULES, 0);
            && Agents.SendEnd(a, [], maxIters, payload, images, Says(text)).result.ok
            && Agents.Send(a, [], maxIters, payload, images, Says(text)).history
               == s.history + [UserMessage(payload, images), AssistantMessage(text, [])]
  {
  }

  /** A step that starts a turn, and the turn up to the join if the model answers at once. */
  lemma AnsweredTurn(prompt: string, maxIters: int, labels: seq<Label>, s: State, l: Label, text: string)
    returns (all: seq<Label>, t: State)
    requires Runs(Initial(prompt), maxIters, labels, s) && maxIters >= 1
    requires Enabled(s, l) && !l.LoopTest?
    requires var u := Step(s, maxIters, l); u.phase.Ready? && u.busy && !u.cancel && u.worker.Starting?
    ensures Runs(Initial(prompt), maxIters, all, t) && t.phase == Joining(Completed) && t.worker.Exited?
    ensures var u := Step(s, maxIters, l);
            && OneTurn(u, t)
            && t.history == u.history + [UserMessage(u.worker.payload, u.worker.images), AssistantMessage(text, [])]
  {
    hide Runs, RunsOn, Step, Enabled, Spells, Says, Agents.Send, Agents.SendEnd, Inv;
    var arrive := InOnePiece(text);
    Reachable(prompt, maxIters, labels, s);
    var u := Take(s, maxIters, arrive, l);
    OnePieceSpells(text);
    t := TurnIsARun(u, maxIters, arrive, [], NO_RULES, 0, Says(text));
    SaysOnce(u, maxIters, u.worker.payload, u.worker.images, text);
    Trans(s, maxIters, arrive, u, t);
    var turn :| RunsOn(s, maxIters, arrive, turn, t);
    RunsBehind(Initial(prompt), maxIters, labels, s, arrive, turn, t);
    all := labels + turn;
  }

  lemma OneMore(prompt: string, maxIters: int, labels: seq<Label>, s: State, l: Label) returns (t: State)
    requires Runs(Initial(prompt), maxIters, labels, s) && Enabled(s, l) && !l.LoopTest?
    ensures t == Step(s, maxIters, l) && Runs(Initial(prompt), maxIters, labels + [l], t)
  {
    hide Runs, Step, Enabled;
    t := Step(s, maxIters, l);
    var arrive := InOnePiece("");
    assert [l][1..] == [] && RunsOn(t, maxIters, arrive, [], t);
    assert RunsOn(s, maxIters, arrive, [l], t);
    RunsBehind(Initial(prompt), maxIters, labels, s, arrive, [l], t);
  }

  /** What compaction keeps if the model answers its request with no text. */
  lemma LastOfTwo(before: History, text: string, payload: string)
    requires text != ""
    ensures LastAnswerText(before + [AssistantMessage(text, [])] + [UserMessage(payload, []), AssistantMessage("", [])])
            == text
  {
    var h := before + [AssistantMessage(text, [])];
    var asked := h + [UserMessage(payload, [])];
    assert h + [UserMessage(payload, []), AssistantMessage("", [])] == asked + [AssistantMessage("", [])];
    assert (asked + [AssistantMessage("", [])])[..|asked|] == asked;
    assert asked[..|h|] == h && h[..|before|] == before;
    assert LastAnswerText(asked + [AssistantMessage("", [])]) == LastAnswerText(asked) == LastAnswerText(h);
  }

  /** A turn has been submitted, and its worker started. */
  predicate Started(s: State, u: State, kind: Kind, payload: string) {
    && u.phase.Ready? && u.busy && !u.cancel && u.worker == Starting(payload, [])
    && u.history == s.history && u.prompt == s.prompt && u.trace.base == s.history && u.trace.kind == kind
  }

  lemma QuestionStarts(s: State, maxIters: int, question: string)
    requires Inv(s) && s.phase.Ready? && !s.busy
    ensures var l := Send(question, question, [], []);
            Enabled(s, l) && Started(s, Step(s, maxIters, l), Ordinary, question)
  {
    hide Opened;
  }

  lemma CompactionStarts(s: State, maxIters: int, payload: string)
    requires Inv(s) && s.phase.Ready? && !s.busy && HasTurns(s.history)
    ensures var l := CompactCommand(payload);
            Enabled(s, l) && Started(s, Step(s, maxIters, l), Compact, payload)
  {
    hide Opened;
  }

  lemma OrdinaryJoin(s: State, maxIters: int)
    requires Inv(s) && s.phase == Joining(Completed) && s.worker.Exited? && s.trace.kind.Ordinary?
    ensures var l := Join(false, false, "");
            && Enabled(s, l)
            && Step(s, maxIters, l).phase.Ready? && !Step(s, maxIters, l).busy
            && Step(s, maxIters, l).history == s.history && Step(s, maxIters, l).prompt == s.prompt
  {
  }

  /** A run to an idle state with one answered question. */
  lemma OneQuestion(prompt: string, maxIters: int, question: string, answer: string)
    returns (labels: seq<Label>, t: State)
    requires maxIters >= 1
    ensures Runs(Initial(prompt), maxIters, labels, t) && t.phase.Ready? && !t.busy && t.prompt == prompt
    ensures t.history == Agents.Fresh(prompt) + [UserMessage(question, []), AssistantMessage(answer, [])]
  {
    var start := Initial(prompt);
    assert Runs(start, maxIters, [], start);
    hide Runs, Inv, Step, Enabled, Agents.Fresh;
    Reachable(prompt, maxIters, [], start);
    QuestionStarts(start, maxIters, question);
    var asked, answered := AnsweredTurn(prompt, maxIters, [], start, Send(question, question, [], []), answer);
    Reachable(prompt, maxIters, asked, answered);
    OrdinaryJoin(answered, maxIters);
    labels := asked + [Join(false, false, "")];
    t := OneMore(prompt, maxIters, asked, answered, Join(false, false, ""));
  }

  /**
    A run in which a compaction keeps an older answer: the model answers the user, and then its request for a summary
    with no text. The answer to the user is then taken for the summary.
   */
  lemma CompactionKeepsOlder(prompt: string, maxIters: int, question: string, answer: string, payload: string)
    returns (labels: seq<Label>, t: State)
    requires maxIters >= 1 && answer != ""
    ensures Runs(Initial(prompt), maxIters, labels, t)
    ensures t.phase == Joining(Completed) && t.trace.kind.Compact?
    ensures t.trace.base == Agents.Fresh(prompt) + [UserMessage(question, []), AssistantMessage(answer, [])]
    ensures t.history == t.trace.base + [UserMessage(payload, []), AssistantMessage("", [])]
    ensures FinishTurn(t, Completed, false, false, "").history
            == Agents.Fresh(prompt) + [SystemMessage(Agents.SUMMARY_NOTE + answer)]
  {
    hide Runs, Inv, LastAnswerText, Step, Enabled, FinishTurn, Agents.Fresh;
    var before, idle := OneQuestion(prompt, maxIters, question, answer);
    Reachable(prompt, maxIters, before, idle);
    assert idle.history[|Agents.Fresh(prompt)|] == UserMessage(question, []);
    CompactionStarts(idle, maxIters, payload);
    labels, t := AnsweredTurn(prompt, maxIters, before, idle, CompactCommand(payload), "");
    Reachable(prompt, maxIters, labels, t);
    FlagsAtTheEnd(t);
    SummaryOnly(t, false, false, "");
    var h := Agents.Fresh(prompt) + [UserMessage(question, [])];
    assert t.history == h + [AssistantMessage(answer, [])] + [UserMessage(payload, []), AssistantMessage("", [])];
    LastOfTwo(h, answer, payload);
  }
}
