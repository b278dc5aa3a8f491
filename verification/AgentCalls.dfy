/** Every tool call of the agent passes the confirmation gate, across iterations, turns and whole conversations. */
module AgentCalls {
  import opened Conversation
  import opened Agents
  import opened Confirm

  /** A call that has reached the gate, and what came of it; only an allowed call is executed. */
  datatype Logged = Logged(call: Call, outcome: Outcome)

  // ----- what the agent's calls do at the gate -----

  ghost function CallLog(tools: seq<Tool>, gate: Gate, call: ToolCall, details: string, answer: Choice): seq<Logged> {
    match FindTool(tools, call.name)
    case Missing => []
    case Found(tool) => [Logged(Call(tool, details, answer), Pass(gate, tool, details, answer).1)]
  }

  /** The tool's output is fed back exactly for a call that is logged as allowed. */
  lemma OutputIffAllowed(tools: seq<Tool>, gate: Gate, call: ToolCall, details: string, answer: Choice, output: string)
    ensures var log := CallLog(tools, gate, call, details, answer);
            RunCall(tools, gate, call, details, answer, output).0
            == if log == [] then "error: unknown tool '" + call.name + "'"
               else if log[0].outcome.allowed then output
               else "User declined to run this tool."
  {
  }

  ghost function CallsLog(w: World, tools: seq<Tool>, gate: Gate, i: nat, calls: seq<ToolCall>, n: nat): seq<Logged>
    requires n <= |calls|
  {
    if n == 0 then []
    else
      CallsLog(w, tools, gate, i, calls, n - 1)
      + CallLog(tools, RunCalls(w, tools, gate, i, calls, n - 1).1, calls[n - 1], w.details(i, n - 1), w.answer(i, n - 1))
  }

  /** The gate log of the tool loop. */
  ghost function LoopLog(w: World, tools: seq<Tool>, gate: Gate, base: History, done: History, i: nat, maxIters: int)
    : seq<Logged>
    decreases maxIters - i
  {
    if i >= maxIters || w.cancelled(i) then []
    else
      var res := w.reply(i, base + done);
      if !res.ok || res.calls == [] then []
      else
        var (results, after) := RunCalls(w, tools, gate, i, res.calls, |res.calls|);
        CallsLog(w, tools, gate, i, res.calls, |res.calls|)
        + LoopLog(w, tools, after, base, done + [AssistantMessage(res.content, res.calls)] + results, i + 1, maxIters)
  }

  ghost function OperationLog(s: AgentState, tools: seq<Tool>, maxIters: int, op: Operation): seq<Logged> {
    match op
    case DoSend(text, images, world) =>
      LoopLog(world, tools, s.gate, s.history + [UserMessage(text, images)], [], 0, maxIters)
    case _ => []
  }

  /** The gate log of a whole conversation. */
  ghost function Log(s: AgentState, tools: seq<Tool>, maxIters: int, ops: seq<Operation>): seq<Logged> {
    if ops == [] then []
    else
      var before := ops[..|ops| - 1];
      Log(s, tools, maxIters, before)
      + OperationLog(RunOps(s, tools, maxIters, before), tools, maxIters, ops[|ops| - 1])
  }

  // ----- a log is one session at the gate -----

  function CallsOf(log: seq<Logged>): (calls: seq<Call>)
    ensures |calls| == |log|
  {
    seq(|log|, k requires 0 <= k < |log| => log[k].call)
  }

  /** The calls, made one after the other from the gate `g`, have the logged outcomes and leave the gate `after`. */
  ghost predicate IsSession(g: Gate, log: seq<Logged>, after: Gate) {
    && after == After(g, CallsOf(log), |log|)
    && forall k :: 0 <= k < |log| ==> log[k].outcome == OutcomeOf(g, CallsOf(log), k)
  }

  lemma {:induction false} AfterPrefix(g: Gate, a: seq<Call>, b: seq<Call>, n: nat)
    requires n <= |a|
    ensures After(g, a + b, n) == After(g, a, n)
  {
    if n > 0 {
      AfterPrefix(g, a, b, n - 1);
      assert (a + b)[n - 1] == a[n - 1];
    }
  }

  lemma {:induction false} AfterBoth(g: Gate, a: seq<Call>, b: seq<Call>, n: nat)
    requires n <= |b|
    ensures After(g, a + b, |a| + n) == After(After(g, a, |a|), b, n)
  {
    if n == 0 {
      AfterPrefix(g, a, b, |a|);
    } else {
      AfterBoth(g, a, b, n - 1);
      assert (a + b)[|a| + n - 1] == b[n - 1];
    }
  }

  lemma EmptySession(g: Gate)
    ensures IsSession(g, [], g)
  {
  }

  /** A call has the same outcome in a longer session. */
  lemma OutcomeLeft(g: Gate, a: seq<Call>, b: seq<Call>, k: nat)
    requires k < |a|
    ensures OutcomeOf(g, a + b, k) == OutcomeOf(g, a, k)
  {
    hide After, Pass;
    AfterPrefix(g, a, b, k);
  }

  lemma OutcomeRight(g: Gate, a: seq<Call>, b: seq<Call>, k: nat)
    requires k < |b|
    ensures OutcomeOf(g, a + b, |a| + k) == OutcomeOf(After(g, a, |a|), b, k)
  {
    hide After, Pass;
    AfterBoth(g, a, b, k);
  }

  lemma SessionsConcat(g: Gate, a: seq<Logged>, middle: Gate, b: seq<Logged>, after: Gate)
    requires IsSession(g, a, middle) && IsSession(middle, b, after)
    ensures IsSession(g, a + b, after)
  {
    hide After, OutcomeOf;
    var first, second, all := CallsOf(a), CallsOf(b), CallsOf(a + b);
    assert all == first + second;
    AfterBoth(g, first, second, |b|);
    forall k | 0 <= k < |a + b|
      ensures (a + b)[k].outcome == OutcomeOf(g, all, k)
    {
      if k < |a| {
        OutcomeLeft(g, first, second, k);
      } else {
        OutcomeRight(g, first, second, k - |a|);
      }
    }
  }

  lemma CallIsASession(tools: seq<Tool>, gate: Gate, call: ToolCall, details: string, answer: Choice, output: string)
    ensures IsSession(gate, CallLog(tools, gate, call, details, answer),
                      RunCall(tools, gate, call, details, answer, output).1)
  {
    match FindTool(tools, call.name) {
      case Missing => EmptySession(gate);
      case Found(tool) =>
        var calls := CallsOf(CallLog(tools, gate, call, details, answer));
        assert After(gate, calls, 0) == gate;
    }
  }

  lemma {:induction false} CallsAreASession(w: World, tools: seq<Tool>, gate: Gate, i: nat, calls: seq<ToolCall>, n: nat)
    requires n <= |calls|
    ensures IsSession(gate, CallsLog(w, tools, gate, i, calls, n), RunCalls(w, tools, gate, i, calls, n).1)
  {
    hide IsSession, RunCall, CallLog;
    if n == 0 {
      EmptySession(gate);
    } else {
      var g := RunCalls(w, tools, gate, i, calls, n - 1).1;
      CallsAreASession(w, tools, gate, i, calls, n - 1);
      CallIsASession(tools, g, calls[n - 1], w.details(i, n - 1), w.answer(i, n - 1), w.output(i, n - 1));
      SessionsConcat(gate, CallsLog(w, tools, gate, i, calls, n - 1), g,
                     CallLog(tools, g, calls[n - 1], w.details(i, n - 1), w.answer(i, n - 1)),
                     RunCalls(w, tools, gate, i, calls, n).1);
    }
  }

  lemma {:induction false} LoopIsASession(w: World, tools: seq<Tool>, gate: Gate, base: History, done: History, i: nat,
                                          maxIters: int)
    ensures IsSession(gate, LoopLog(w, tools, gate, base, done, i, maxIters),
                      Loop(w, tools, gate, base, done, i, maxIters).gate)
    decreases maxIters - i
  {
    hide IsSession, RunCalls, CallsLog;
    if i >= maxIters || w.cancelled(i) || !w.reply(i, base + done).ok || w.reply(i, base + done).calls == [] {
      EmptySession(gate);
    } else {
      var res := w.reply(i, base + done);
      var (results, after) := RunCalls(w, tools, gate, i, res.calls, |res.calls|);
      var next := done + [AssistantMessage(res.content, res.calls)] + results;
      CallsAreASession(w, tools, gate, i, res.calls, |res.calls|);
      LoopIsASession(w, tools, after, base, next, i + 1, maxIters);
      SessionsConcat(gate, CallsLog(w, tools, gate, i, res.calls, |res.calls|), after,
                     LoopLog(w, tools, after, base, next, i + 1, maxIters),
                     Loop(w, tools, gate, base, done, i, maxIters).gate);
    }
  }

  lemma OperationIsASession(s: AgentState, tools: seq<Tool>, maxIters: int, op: Operation)
    ensures IsSession(s.gate, OperationLog(s, tools, maxIters, op), Apply(s, tools, maxIters, op).gate)
  {
    hide IsSession, Loop, LoopLog;
    match op {
      case DoSend(text, images, world) =>
        LoopIsASession(world, tools, s.gate, s.history + [UserMessage(text, images)], [], 0, maxIters);
      case _ => EmptySession(s.gate);
    }
  }

  /** All calls of a conversation, across turns, failed or not, are one session at the gate. */
  lemma {:induction false} ConversationIsASession(s: AgentState, tools: seq<Tool>, maxIters: int, ops: seq<Operation>)
    ensures IsSession(s.gate, Log(s, tools, maxIters, ops), RunOps(s, tools, maxIters, ops).gate)
  {
    hide IsSession, Apply, OperationLog;
    if ops == [] {
      EmptySession(s.gate);
    } else {
      var before, last := ops[..|ops| - 1], ops[|ops| - 1];
      var middle := RunOps(s, tools, maxIters, before);
      ConversationIsASession(s, tools, maxIters, before);
      OperationIsASession(middle, tools, maxIters, last);
      SessionsConcat(s.gate, Log(s, tools, maxIters, before), middle.gate,
                     OperationLog(middle, tools, maxIters, last), RunOps(s, tools, maxIters, ops).gate);
    }
  }

  /**
    Over every run of the agent: a gated tool is executed if and only if no deny rule matches the call and an allow
    rule matches it, or an earlier Always for that tool exists, or the user was asked about this very call and did not
    say No; and after an Always the user is never asked about that tool again.
   */
  lemma GatedToolsRunIff(s: AgentState, tools: seq<Tool>, maxIters: int, ops: seq<Operation>, k: nat)
    requires s.gate.always == {}
    requires k < |Log(s, tools, maxIters, ops)| && Log(s, tools, maxIters, ops)[k].call.tool.gated
    ensures var log, g := Log(s, tools, maxIters, ops), s.gate;
            var c, o := log[k].call, log[k].outcome;
            var earlier := exists j: nat :: j < k && SaidAlways(g, CallsOf(log), j, c.tool.name);
            && (o.allowed <==>
                  && !AnyMatches(g.deny, c.tool.name, c.details)
                  && (AnyMatches(g.allow, c.tool.name, c.details) || earlier || (o.prompted && c.answer != No)))
            && (o.prompted ==> !earlier)
  {
    hide Log, RunOps, AnyMatches, SaidAlways;
    var log := Log(s, tools, maxIters, ops);
    ConversationIsASession(s, tools, maxIters, ops);
    GatedCallsRunIff(s.gate, CallsOf(log), k);
  }

  /** Over every run of the agent: a tool that is not gated is executed without a question, whatever the rules. */
  lemma UngatedToolsRun(s: AgentState, tools: seq<Tool>, maxIters: int, ops: seq<Operation>, k: nat)
    requires k < |Log(s, tools, maxIters, ops)| && !Log(s, tools, maxIters, ops)[k].call.tool.gated
    ensures Log(s, tools, maxIters, ops)[k].outcome == Outcome(true, false)
  {
    hide Log, RunOps;
    var log := Log(s, tools, maxIters, ops);
    ConversationIsASession(s, tools, maxIters, ops);
    UngatedCallsRun(s.gate, CallsOf(log), k);
  }

  // ----- what the model gets to see of the tools -----

  predicate Named(tools: seq<Tool>, name: string) {
    exists t :: t in tools && t.name == name
  }

  /** A result answers its call: with the tool's output for a tool that is not gated, and for any other tool or not. */
  predicate FedBack(tools: seq<Tool>, call: ToolCall, result: Message, output: string) {
    && result.role == ToolRole && result.callId == call.id
    && (!Named(tools, call.name) ==> result.content == "error: unknown tool '" + call.name + "'")
    && (Named(tools, call.name) ==> result.content == output || result.content == "User declined to run this tool.")
    && (Named(tools, call.name) && (forall t :: t in tools && t.name == call.name ==> !t.gated) ==>
          result.content == output)
  }

  ghost predicate AllFedBack(w: World, tools: seq<Tool>, i: nat, calls: seq<ToolCall>, results: History) {
    |results| == |calls| && forall j: nat :: j < |calls| ==> FedBack(tools, calls[j], results[j], w.output(i, j))
  }

  /** Rounds of tool use from iteration `i` on, all of them fed back, and then an answer that calls no tool. */
  ghost predicate RoundsFedBack(w: World, tools: seq<Tool>, i: nat, ms: History)
    decreases |ms|
  {
    && ms != []
    && if ms[0].calls == [] then |ms| == 1
       else
         var n := |ms[0].calls|;
         && n < |ms|
         && AllFedBack(w, tools, i, ms[0].calls, ms[1..1 + n])
         && RoundsFedBack(w, tools, i + 1, ms[1 + n..])
  }

  lemma CallIsFedBack(tools: seq<Tool>, gate: Gate, call: ToolCall, details: string, answer: Choice, output: string)
    ensures FedBack(tools, call, ToolMessage(call.id, RunCall(tools, gate, call, details, answer, output).0), output)
  {
    match FindTool(tools, call.name) {
      case Missing =>
      case Found(tool) => assert tool in tools && tool.name == call.name;
    }
  }

  lemma {:induction false} CallsAreFedBack(w: World, tools: seq<Tool>, gate: Gate, i: nat, calls: seq<ToolCall>, n: nat)
    requires n <= |calls|
    ensures AllFedBack(w, tools, i, calls[..n], RunCalls(w, tools, gate, i, calls, n).0)
  {
    hide FedBack, RunCall;
    if n > 0 {
      CallsAreFedBack(w, tools, gate, i, calls, n - 1);
      var g := RunCalls(w, tools, gate, i, calls, n - 1).1;
      CallIsFedBack(tools, g, calls[n - 1], w.details(i, n - 1), w.answer(i, n - 1), w.output(i, n - 1));
      assert calls[..n] == calls[..n - 1] + [calls[n - 1]];
    }
  }

  lemma OneMoreRound(w: World, tools: seq<Tool>, i: nat, asked: Message, results: History, more: History)
    requires asked.calls != [] && AllFedBack(w, tools, i, asked.calls, results) && RoundsFedBack(w, tools, i + 1, more)
    ensures RoundsFedBack(w, tools, i, [asked] + results + more)
  {
    var ms, n := [asked] + results + more, |asked.calls|;
    assert |results| == n;
    hide AllFedBack;
    assert ms[1..1 + n] == results && ms[1 + n..] == more;
  }

  lemma AnswerAlone(w: World, tools: seq<Tool>, i: nat, text: string)
    ensures RoundsFedBack(w, tools, i, [AssistantMessage(text, [])])
  {
  }

  /** What a successful loop appends: every tool that is not gated has its output in it. */
  lemma {:induction false} LoopFeedsBack(w: World, tools: seq<Tool>, gate: Gate, base: History, done: History, i: nat,
                                         maxIters: int) returns (more: History)
    ensures var end := Loop(w, tools, gate, base, done, i, maxIters);
            end.result.ok ==> end.appended == done + more && RoundsFedBack(w, tools, i, more)
    decreases maxIters - i
  {
    hide RunCalls, AllFedBack, RoundsFedBack;
    more := [];
    if i < maxIters && !w.cancelled(i) {
      var res := w.reply(i, base + done);
      var asked := AssistantMessage(res.content, res.calls);
      if res.ok && res.calls == [] {
        AnswerAlone(w, tools, i, res.content);
        more := [asked];
      } else if res.ok {
        var (results, after) := RunCalls(w, tools, gate, i, res.calls, |res.calls|);
        CallsAreFedBack(w, tools, gate, i, res.calls, |res.calls|);
        assert res.calls[..|res.calls|] == res.calls;
        var rest := LoopFeedsBack(w, tools, after, base, done + [asked] + results, i + 1, maxIters);
        more := [asked] + results + rest;
        if Loop(w, tools, gate, base, done, i, maxIters).result.ok {
          OneMoreRound(w, tools, i, asked, results, rest);
          assert done + [asked] + results + rest == done + more;
        }
      }
    }
  }

  /** A successful turn adds the user's message, with its images, and rounds in which every result is fed back. */
  lemma TurnFeedsBack(s: AgentState, tools: seq<Tool>, maxIters: int, text: string, images: seq<Image>, w: World)
    returns (more: History)
    requires SendEnd(s, tools, maxIters, text, images, w).result.ok
    ensures Send(s, tools, maxIters, text, images, w).history
            == s.history + [Message(User, text, [], "", images)] + more
    ensures RoundsFedBack(w, tools, 0, more)
  {
    hide Loop, RoundsFedBack;
    more := LoopFeedsBack(w, tools, s.gate, s.history + [UserMessage(text, images)], [], 0, maxIters);
    assert [] + more == more;
  }
}
