/** The agent's turn is a run of the worker: everything the agent can do is among the steps of the two threads. */
module ProtocolAgent {
  import opened Sequences
  import opened Conversation
  import opened Screens
  import opened Protocol
  import opened ProtocolSafety
  import Agents
  import Confirm

  /** The pieces that arrive of the reply to a request: for every iteration and the history that is sent. */
  type Arrivals = (nat, History) -> seq<Piece>

  predicate Arrives(s: State, arrive: Arrivals, l: Label) {
    l.LoopTest? && s.worker.AtTop? ==> l.pieces == arrive(s.worker.iter, s.history)
  }

  /** A run in which the replies come in these pieces. */
  ghost predicate RunsOn(s: State, maxIters: int, arrive: Arrivals, labels: seq<Label>, t: State)
    decreases |labels|
  {
    if labels == [] then s == t
    else
      && Enabled(s, labels[0]) && Arrives(s, arrive, labels[0])
      && RunsOn(Step(s, maxIters, labels[0]), maxIters, arrive, labels[1..], t)
  }

  ghost predicate Reaches(s: State, maxIters: int, arrive: Arrivals, t: State) {
    exists labels :: RunsOn(s, maxIters, arrive, labels, t)
  }

  lemma {:induction false} RunsConcat(s: State, maxIters: int, arrive: Arrivals, a: seq<Label>, u: State, b: seq<Label>,
                                      t: State)
    requires RunsOn(s, maxIters, arrive, a, u) && RunsOn(u, maxIters, arrive, b, t)
    ensures RunsOn(s, maxIters, arrive, a + b, t)
    decreases |a|
  {
    hide Step, Enabled, Arrives;
    if a == [] {
      assert a + b == b;
    } else {
      RunsConcat(Step(s, maxIters, a[0]), maxIters, arrive, a[1..], u, b, t);
      assert (a + b)[0] == a[0] && (a + b)[1..] == a[1..] + b;
    }
  }

  /** Such a run is a run, also behind any other one. */
  lemma {:induction false} RunsBehind(s: State, maxIters: int, a: seq<Label>, u: State, arrive: Arrivals, b: seq<Label>,
                                      t: State)
    requires Runs(s, maxIters, a, u) && RunsOn(u, maxIters, arrive, b, t)
    ensures Runs(s, maxIters, a + b, t)
    decreases |a| + |b|
  {
    hide Step, Enabled, Arrives;
    var all := a + b;
    if a != [] {
      RunsBehind(Step(s, maxIters, a[0]), maxIters, a[1..], u, arrive, b, t);
      assert all[0] == a[0] && all[1..] == a[1..] + b;
    } else if b != [] {
      RunsBehind(Step(s, maxIters, b[0]), maxIters, [], Step(s, maxIters, b[0]), arrive, b[1..], t);
      assert all[0] == b[0] && all[1..] == [] + b[1..];
    }
  }

  lemma Trans(s: State, maxIters: int, arrive: Arrivals, u: State, t: State)
    requires Reaches(s, maxIters, arrive, u) && Reaches(u, maxIters, arrive, t)
    ensures Reaches(s, maxIters, arrive, t)
  {
    var a :| RunsOn(s, maxIters, arrive, a, u);
    var b :| RunsOn(u, maxIters, arrive, b, t);
    RunsConcat(s, maxIters, arrive, a, u, b, t);
  }

  lemma Here(s: State, maxIters: int, arrive: Arrivals)
    ensures Reaches(s, maxIters, arrive, s)
  {
    assert RunsOn(s, maxIters, arrive, [], s);
  }

  lemma Take(s: State, maxIters: int, arrive: Arrivals, l: Label) returns (t: State)
    requires Inv(s) && Enabled(s, l) && Arrives(s, arrive, l)
    ensures t == Step(s, maxIters, l) && Inv(t) && Reaches(s, maxIters, arrive, t)
  {
    hide Step, Enabled, Inv;
    t := Step(s, maxIters, l);
    StepKeeps(s, maxIters, l);
    assert [l][1..] == [];
    assert RunsOn(t, maxIters, arrive, [], t);
    assert RunsOn(s, maxIters, arrive, [l], t);
  }

  /** Takes one more step at the end of a run. */
  lemma Then(s: State, maxIters: int, arrive: Arrivals, u: State, l: Label) returns (t: State)
    requires Reaches(s, maxIters, arrive, u) && Inv(u) && Enabled(u, l) && Arrives(u, arrive, l)
    ensures t == Step(u, maxIters, l) && Inv(t) && Reaches(s, maxIters, arrive, t)
  {
    t := Take(u, maxIters, arrive, l);
    Trans(s, maxIters, arrive, u, t);
  }

  /** The same turn, in which Esc may have been pressed. */
  predicate OneTurn(s: State, t: State) {
    t.busy && t.prompt == s.prompt && t.trace == s.trace.(escaped := t.trace.escaped)
  }

  /** The same turn, with the UI thread in its loop and the cancel flag as it was. */
  predicate SameTurn(s: State, t: State) {
    OneTurn(s, t) && t.phase.Ready? && t.cancel == s.cancel
  }

  // ----- one tool call -----

  /** The UI thread takes what is queued until it shows the confirmation dialog. */
  lemma {:induction false} DrainToDialog(s: State, maxIters: int, arrive: Arrivals) returns (t: State)
    requires Inv(s) && s.phase.Ready? && Blocked(s.worker)
    ensures Inv(t) && Reaches(s, maxIters, arrive, t)
    ensures t == s.(phase := Answering, queue := [], screen := t.screen)
    decreases |s.queue|
  {
    hide Reaches, UserStep, WorkerStep, FinishTurn, Display, CancelOk, TraceOk, WorkerOk;
    t := Take(s, maxIters, arrive, PopEvent);
    var e := s.queue[0].event;
    if |s.queue| == 1 {
      assert s.queue[1..] == [];
    } else {
      assert IsStream(e) && t == s.(queue := s.queue[1..], screen := Display(s.screen, e));
      var u := t;
      t := DrainToDialog(u, maxIters, arrive);
      Trans(s, maxIters, arrive, u, t);
    }
  }

  /** What the gate makes of a call, for the worker. */
  ghost function VerdictOf(tools: seq<Confirm.Tool>, gate: Confirm.Gate, call: ToolCall, details: string): Verdict {
    match Agents.FindTool(tools, call.name)
    case Missing => Run
    case Found(tool) =>
      if Confirm.Asks(gate, tool, details) then Ask(details)
      else if Confirm.Pass(gate, tool, details, Confirm.No).1.allowed then Run
      else Refuse
  }

  function OutputOf(tools: seq<Confirm.Tool>, call: ToolCall, output: string): string {
    if Agents.FindTool(tools, call.name).Missing? then "error: unknown tool '" + call.name + "'" else output
  }

  /** The gate's verdict and the user's answer decide what is fed back, as in the agent. */
  lemma VerdictDecides(tools: seq<Confirm.Tool>, gate: Confirm.Gate, call: ToolCall, details: string,
                       answer: Confirm.Choice, output: string)
    ensures var verdict := VerdictOf(tools, gate, call, details);
            var run := if verdict.Ask? then answer != Confirm.No else verdict.Run?;
            Agents.RunCall(tools, gate, call, details, answer, output).0
            == if run then OutputOf(tools, call, output) else DECLINED
  {
    match Agents.FindTool(tools, call.name) {
      case Missing =>
      case Found(tool) =>
        if !Confirm.Asks(gate, tool, details) {
          assert Confirm.Pass(gate, tool, details, answer) == Confirm.Pass(gate, tool, details, Confirm.No);
        }
    }
  }

  /** From the gate to the result, with the user's answer if one is asked for. */
  lemma ClearCall(s: State, maxIters: int, arrive: Arrivals, verdict: Verdict, answer: Confirm.Choice)
    returns (t: State)
    requires Inv(s) && s.phase.Ready? && s.busy && s.worker.Calling? && s.worker.j < |s.worker.calls|
    requires s.worker.stage.Gating?
    ensures Inv(t) && Reaches(s, maxIters, arrive, t) && SameTurn(s, t) && t.history == s.history
    ensures var run := if verdict.Ask? then answer != Confirm.No else verdict.Run?;
            t.worker == s.worker.(stage := Cleared(run))
  {
    hide Inv, UserStep, Pop, FinishTurn, Reaches, TestLoop, Emit, EndReply, RollBack, Report;
    t := Take(s, maxIters, arrive, Gate(verdict));
    if verdict.Ask? {
      var asked := t;
      var shown := DrainToDialog(asked, maxIters, arrive);
      Trans(s, maxIters, arrive, asked, shown);
      t := Then(s, maxIters, arrive, shown, AnswerConfirm(answer));
    }
  }

  lemma OneCall(s: State, maxIters: int, arrive: Arrivals, verdict: Verdict, answer: Confirm.Choice,
                output: string) returns (t: State)
    requires Inv(s) && s.phase.Ready? && s.busy && s.worker.Calling? && s.worker.j < |s.worker.calls|
    requires s.worker.stage.Announcing?
    ensures Inv(t) && Reaches(s, maxIters, arrive, t) && SameTurn(s, t)
    ensures var run := if verdict.Ask? then answer != Confirm.No else verdict.Run?;
            var text := if run then output else DECLINED;
            var recorded := Record(s, text);
            t.history == recorded.history && t.worker == recorded.worker
  {
    hide Inv, Shortened, UserStep, Pop, FinishTurn, Reaches, TestLoop, Emit, EndReply, RollBack, PassGate;
    var gating := Take(s, maxIters, arrive, AnnounceCall);
    var cleared := ClearCall(gating, maxIters, arrive, verdict, answer);
    Trans(s, maxIters, arrive, gating, cleared);
    t := Then(s, maxIters, arrive, cleared, ReportResult(true, output));
  }

  // ----- the calls of one reply -----

  /** The worker is at call `n` of iteration `i`, with the results so far in the history. */
  ghost predicate AtCall(s: State, w: Agents.World, tools: seq<Confirm.Tool>, gate: Confirm.Gate, mark: nat, i: nat,
                         calls: seq<ToolCall>, n: nat, before: History) {
    && n <= |calls| && s.history == before + Agents.RunCalls(w, tools, gate, i, calls, n).0
    && s.worker == if n < |calls| then Calling(mark, i, calls, n, Announcing) else AtTop(mark, i + 1)
  }

  lemma NextCall(s: State, maxIters: int, arrive: Arrivals, w: Agents.World, tools: seq<Confirm.Tool>,
                 gate: Confirm.Gate, mark: nat, i: nat, calls: seq<ToolCall>, n: nat, before: History)
    returns (t: State)
    requires Inv(s) && s.phase.Ready? && n < |calls| && AtCall(s, w, tools, gate, mark, i, calls, n, before)
    ensures Inv(t) && Reaches(s, maxIters, arrive, t) && SameTurn(s, t)
    ensures AtCall(t, w, tools, gate, mark, i, calls, n + 1, before)
  {
    hide Reaches, VerdictOf, OutputOf, QueueOk, CancelOk, TraceOk;
    var (results, g) := Agents.RunCalls(w, tools, gate, i, calls, n);
    var call, details, answer, output := calls[n], w.details(i, n), w.answer(i, n), w.output(i, n);
    VerdictDecides(tools, g, call, details, answer, output);
    t := OneCall(s, maxIters, arrive, VerdictOf(tools, g, call, details), answer, OutputOf(tools, call, output));
    var text := Agents.RunCall(tools, g, call, details, answer, output).0;
    Assoc(before, results, [ToolMessage(call.id, text)]);
  }

  lemma {:induction false} AllCalls(s: State, maxIters: int, arrive: Arrivals, w: Agents.World,
                                    tools: seq<Confirm.Tool>, gate: Confirm.Gate, mark: nat, i: nat,
                                    calls: seq<ToolCall>, n: nat, before: History) returns (t: State)
    requires Inv(s) && s.phase.Ready? && s.busy && AtCall(s, w, tools, gate, mark, i, calls, n, before)
    ensures Inv(t) && Reaches(s, maxIters, arrive, t) && SameTurn(s, t)
    ensures AtCall(t, w, tools, gate, mark, i, calls, |calls|, before)
    decreases |calls| - n
  {
    hide Reaches, Inv;
    if n == |calls| {
      Here(s, maxIters, arrive);
      t := s;
    } else {
      var u := NextCall(s, maxIters, arrive, w, tools, gate, mark, i, calls, n, before);
      t := AllCalls(u, maxIters, arrive, w, tools, gate, mark, i, calls, n + 1, before);
      Trans(s, maxIters, arrive, u, t);
    }
  }

  // ----- the loop -----

  function EndingOf(result: Agents.ApiResult): Ending {
    if result.ok then Completed else if result.canceled then Cancelled else Broken(result.error)
  }

  /** The worker has come to the end that the agent comes to. */
  predicate EndsAs(t: State, end: Agents.LoopEnd, base: History, mark: nat)
    requires mark <= |base|
  {
    && t.worker == Ended(EndingOf(end.result))
    && t.history == if end.result.ok then base + end.appended else base[..mark]
  }

  /** The user presses Esc. */
  lemma Press(s: State, maxIters: int, arrive: Arrivals) returns (t: State)
    requires Inv(s) && s.phase.Ready? && s.busy
    ensures Inv(t) && Reaches(s, maxIters, arrive, t) && OneTurn(s, t) && t.phase.Ready? && t.cancel
    ensures t.worker == s.worker && t.history == s.history
  {
    t := Take(s, maxIters, arrive, Escape);
  }

  /** All pieces that are still to come are read. */
  lemma {:induction false} EmitAll(s: State, maxIters: int, arrive: Arrivals) returns (t: State)
    requires Inv(s) && s.phase.Ready? && s.busy && s.worker.Streaming?
    ensures Inv(t) && Reaches(s, maxIters, arrive, t) && SameTurn(s, t) && t.history == s.history
    ensures t.worker == s.worker.(todo := [], said := s.worker.said + TextOf(s.worker.todo))
    decreases |s.worker.todo|
  {
    hide Inv, UserStep, Pop, FinishTurn, Reaches;
    var w := s.worker;
    if w.todo == [] {
      Here(s, maxIters, arrive);
      t := s;
      assert w.said + "" == w.said;
    } else {
      var u := Take(s, maxIters, arrive, EmitPiece);
      t := EmitAll(u, maxIters, arrive);
      Trans(s, maxIters, arrive, u, t);
      var first := if w.todo[0].Content? then w.todo[0].text else "";
      assert w.said + "" == w.said;
      Assoc(w.said, first, TextOf(w.todo[1..]));
    }
  }

  /** A request is sent, and its reply arrives. */
  lemma Receive(s: State, maxIters: int, arrive: Arrivals, mark: nat, i: nat) returns (t: State)
    requires Inv(s) && s.phase.Ready? && s.busy && !s.cancel && s.worker == AtTop(mark, i) && i < maxIters
    ensures Inv(t) && Reaches(s, maxIters, arrive, t) && SameTurn(s, t) && t.history == s.history
    ensures t.worker == Streaming(mark, i, [], TextOf(arrive(i, s.history)))
  {
    hide Inv, UserStep, Pop, FinishTurn, Reaches;
    var u := Take(s, maxIters, arrive, LoopTest(arrive(i, s.history)));
    t := EmitAll(u, maxIters, arrive);
    Trans(s, maxIters, arrive, u, t);
    assert "" + TextOf(arrive(i, s.history)) == TextOf(arrive(i, s.history));
  }

  /** A reply that does not succeed, after some pieces of it. */
  lemma BadReply(s: State, maxIters: int, arrive: Arrivals, mark: nat, i: nat, result: Agents.ApiResult)
    returns (t: State)
    requires Inv(s) && s.phase.Ready? && s.busy && !s.cancel && s.worker == AtTop(mark, i) && i < maxIters && !result.ok
    requires mark <= |s.history|
    ensures Inv(t) && Reaches(s, maxIters, arrive, t) && OneTurn(s, t) && t.phase.Ready?
    ensures t.worker == Ended(EndingOf(result)) && t.history == s.history[..mark]
  {
    hide Inv, UserStep, Pop, FinishTurn, Reaches;
    var u := Receive(s, maxIters, arrive, mark, i);
    if result.canceled {
      var v := Press(u, maxIters, arrive);
      Trans(s, maxIters, arrive, u, v);
      t := Then(s, maxIters, arrive, v, AbortReply);
    } else {
      t := Then(s, maxIters, arrive, u, FailReply(result.error));
    }
  }

  /** A reply that succeeds: its text is that of the pieces it came in. */
  lemma GoodReply(s: State, maxIters: int, arrive: Arrivals, mark: nat, i: nat, calls: seq<ToolCall>)
    returns (t: State)
    requires Inv(s) && s.phase.Ready? && s.busy && !s.cancel && s.worker == AtTop(mark, i) && i < maxIters
    ensures Inv(t) && Reaches(s, maxIters, arrive, t) && SameTurn(s, t)
    ensures t.history == s.history + [AssistantMessage(TextOf(arrive(i, s.history)), calls)]
    ensures t.worker == if calls == [] then Ended(Completed) else Calling(mark, i, calls, 0, Announcing)
  {
    hide Inv, UserStep, Pop, FinishTurn, Reaches;
    var u := Receive(s, maxIters, arrive, mark, i);
    t := Then(s, maxIters, arrive, u, CompleteReply(calls));
  }

  /** The pieces of every successful reply spell its text. */
  ghost predicate Spells(arrive: Arrivals, w: Agents.World) {
    forall i: nat, h: History :: w.reply(i, h).ok ==> TextOf(arrive(i, h)) == w.reply(i, h).content
  }

  /** Every run of the agent's loop, in whatever pieces the replies come. */
  lemma {:induction false} LoopIsARun(s: State, maxIters: int, arrive: Arrivals, w: Agents.World,
                                      tools: seq<Confirm.Tool>, gate: Confirm.Gate, base: History, done: History,
                                      mark: nat, i: nat)
    returns (t: State)
    requires Inv(s) && s.phase.Ready? && s.busy && !s.cancel && s.worker == AtTop(mark, i) && Spells(arrive, w)
    requires mark <= |base| && s.history == base + done
    ensures Inv(t) && Reaches(s, maxIters, arrive, t) && OneTurn(s, t) && t.phase.Ready?
    ensures EndsAs(t, Agents.Loop(w, tools, gate, base, done, i, maxIters), base, mark)
    decreases maxIters - i
  {
    hide Reaches, UserStep, Pop, FinishTurn, Agents.RunCalls, QueueOk, WorkerOk, CancelOk, TraceOk;
    assert s.history[..mark] == base[..mark];
    if i >= maxIters {
      t := Take(s, maxIters, arrive, LoopTest(arrive(i, s.history)));
    } else if w.cancelled(i) {
      var u := Press(s, maxIters, arrive);
      t := Then(s, maxIters, arrive, u, LoopTest(arrive(i, s.history)));
    } else {
      var res := w.reply(i, base + done);
      if !res.ok {
        t := BadReply(s, maxIters, arrive, mark, i, res);
      } else {
        t := GoodReply(s, maxIters, arrive, mark, i, res.calls);
        var request := [AssistantMessage(res.content, res.calls)];
        Assoc(base, done, request);
        if res.calls != [] {
          var u := t;
          assert u.history + [] == u.history;
          var v := AllCalls(u, maxIters, arrive, w, tools, gate, mark, i, res.calls, 0, u.history);
          Trans(s, maxIters, arrive, u, v);
          var (results, after) := Agents.RunCalls(w, tools, gate, i, res.calls, |res.calls|);
          Assoc(base, done + request, results);
          t := LoopIsARun(v, maxIters, arrive, w, tools, after, base, done + request + results, mark, i + 1);
          Trans(s, maxIters, arrive, v, t);
        }
      }
    }
  }

  // ----- a whole turn -----

  /** The UI thread takes what is queued until it waits for the worker to exit. */
  lemma {:induction false} DrainToEnd(s: State, maxIters: int, arrive: Arrivals) returns (t: State)
    requires Inv(s) && s.phase.Ready? && s.worker.Exited?
    ensures Inv(t) && Reaches(s, maxIters, arrive, t)
    ensures t == s.(phase := Joining(s.worker.end), queue := [], screen := t.screen)
    decreases |s.queue|
  {
    hide Reaches, UserStep, WorkerStep, FinishTurn, Display, CancelOk, TraceOk, WorkerOk;
    t := Take(s, maxIters, arrive, PopEvent);
    var e := s.queue[0].event;
    if |s.queue| == 1 {
      assert s.queue[1..] == [];
    } else {
      assert IsStream(e) && t == s.(queue := s.queue[1..], screen := Display(s.screen, e));
      var u := t;
      t := DrainToEnd(u, maxIters, arrive);
      Trans(s, maxIters, arrive, u, t);
    }
  }

  /** The worker tells how the turn has ended and exits, and the UI thread comes to know. */
  lemma Leave(s: State, maxIters: int, arrive: Arrivals) returns (t: State)
    requires Inv(s) && s.phase.Ready? && s.busy && s.worker.Ended?
    ensures Inv(t) && Reaches(s, maxIters, arrive, t) && OneTurn(s, t) && t.history == s.history
    ensures t.phase == Joining(s.worker.end) && t.worker == Exited(s.worker.end)
  {
    hide Inv, UserStep, Pop, FinishTurn, Reaches;
    var u := Take(s, maxIters, arrive, PostEnd);
    var v := Then(s, maxIters, arrive, u, Exit);
    t := DrainToEnd(v, maxIters, arrive);
    Trans(s, maxIters, arrive, v, t);
  }

  /** From a worker that has just been started up to the join. */
  lemma TurnIsARun(s: State, maxIters: int, arrive: Arrivals, tools: seq<Confirm.Tool>, gate: Confirm.Gate, tokens: int,
                   w: Agents.World) returns (t: State)
    requires Inv(s) && s.phase.Ready? && s.busy && !s.cancel && s.worker.Starting? && Spells(arrive, w)
    ensures Inv(t) && Reaches(s, maxIters, arrive, t) && OneTurn(s, t)
    ensures var a := Agents.AgentState(s.prompt, s.history, gate, tokens);
            var text, images := s.worker.payload, s.worker.images;
            var end := EndingOf(Agents.SendEnd(a, tools, maxIters, text, images, w).result);
            && t.phase == Joining(end) && t.worker == Exited(end)
            && t.history == Agents.Send(a, tools, maxIters, text, images, w).history
  {
    hide Inv, UserStep, Pop, FinishTurn, Reaches, Spells;
    var begun := Take(s, maxIters, arrive, Begin);
    var base := s.history + [UserMessage(s.worker.payload, s.worker.images)];
    assert base + [] == base && base[..|s.history|] == s.history;
    var ended := LoopIsARun(begun, maxIters, arrive, w, tools, gate, base, [], |s.history|, 0);
    Trans(s, maxIters, arrive, begun, ended);
    t := Leave(ended, maxIters, arrive);
    Trans(s, maxIters, arrive, ended, t);
  }

  /**
    From every reachable idle state: whatever the world does in a turn of the agent, with its rules, its tools and the
    user's answers, and in whatever pieces the replies come, there is a run of the two threads up to the join that ends
    in the same way and leaves the same history. What is proved of all runs therefore holds of every turn of the agent.
   */
  lemma AgentTurnIsARun(prompt: string, labels: seq<Label>, s: State, maxIters: int, arrive: Arrivals,
                        tools: seq<Confirm.Tool>, gate: Confirm.Gate, tokens: int, text: string, images: seq<Image>,
                        w: Agents.World)
    returns (turn: seq<Label>, t: State)
    requires Runs(Initial(prompt), maxIters, labels, s) && s.phase.Ready? && !s.busy && Spells(arrive, w)
    ensures RunsOn(s, maxIters, arrive, turn, t) && Runs(Initial(prompt), maxIters, labels + turn, t)
    ensures var a := Agents.AgentState(s.prompt, s.history, gate, tokens);
            && t.phase == Joining(EndingOf(Agents.SendEnd(a, tools, maxIters, text, images, w).result))
            && t.history == Agents.Send(a, tools, maxIters, text, images, w).history
  {
    hide Runs, Pop, FinishTurn, RunsOn;
    Reachable(prompt, maxIters, labels, s);
    var submitted := Take(s, maxIters, arrive, Send(text, text, images, []));
    t := TurnIsARun(submitted, maxIters, arrive, tools, gate, tokens, w);
    Trans(s, maxIters, arrive, submitted, t);
    turn :| RunsOn(s, maxIters, arrive, turn, t);
    RunsBehind(Initial(prompt), maxIters, labels, s, arrive, turn, t);
  }
}
