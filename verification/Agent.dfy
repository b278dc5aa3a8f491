/** The tool loop and the history it keeps (src/agent/Agent.cpp). */
module Agents {
  import opened Sequences
  import opened Conversation
  import opened Decimal
  import Confirm

  datatype ApiResult = ApiResult(ok: bool, canceled: bool, error: string, content: string, calls: seq<ToolCall>,
                                 totalTokens: int)

  /**
    What the world does during one turn: whether the cancel flag is set when iteration `i` starts, what the model
    server replies in it, and for call number `j` of that reply what the confirmation details are, what the user
    answers if asked, and what the tool outputs if it runs.
   */
  datatype World = World(cancelled: nat -> bool, reply: (nat, History) -> ApiResult,
                         details: (nat, nat) -> string, answer: (nat, nat) -> Confirm.Choice,
                         output: (nat, nat) -> string)

  const CANCELED := ApiResult(false, true, "request canceled", "", [], 0)

  function Exceeded(maxIters: int): ApiResult {
    ApiResult(false, false, "tool loop exceeded " + ToString(maxIters) + " iterations", "", [], 0)
  }

  // ----- one reply's calls -----

  datatype Found = Missing | Found(tool: Confirm.Tool)

  predicate FirstNamed(tools: seq<Confirm.Tool>, k: int, name: string) {
    0 <= k < |tools| && tools[k].name == name && forall j :: 0 <= j < k ==> tools[j].name != name
  }

  /** The first tool of that name. */
  function FindTool(tools: seq<Confirm.Tool>, name: string): (f: Found)
    ensures f.Found? ==> exists k :: 0 <= k < |tools| && tools[k] == f.tool && FirstNamed(tools, k, name)
    ensures f.Missing? ==> forall t :: t in tools ==> t.name != name
  {
    assert forall k :: 1 <= k < |tools| && FirstNamed(tools[1..], k - 1, name) && tools[0].name != name ==>
                         tools[k] == tools[1..][k - 1] && FirstNamed(tools, k, name);
    if tools == [] then Missing
    else if tools[0].name == name then Found(tools[0])
    else FindTool(tools[1..], name)
  }

  /** What is fed back to the model for one call, and the gate afterwards. */
  ghost function RunCall(tools: seq<Confirm.Tool>, gate: Confirm.Gate, call: ToolCall,
                         details: string, answer: Confirm.Choice, output: string): (string, Confirm.Gate) {
    match FindTool(tools, call.name)
    case Missing => ("error: unknown tool '" + call.name + "'", gate)
    case Found(tool) =>
      var (after, outcome) := Confirm.Pass(gate, tool, details, answer);
      (if outcome.allowed then output else "User declined to run this tool.", after)
  }

  /** The tool results for the first `n` calls of the reply in iteration `i`, and the gate afterwards. */
  ghost function RunCalls(w: World, tools: seq<Confirm.Tool>, gate: Confirm.Gate, i: nat, calls: seq<ToolCall>, n: nat)
    : (r: (History, Confirm.Gate))
    requires n <= |calls|
    ensures Answers(r.0, calls[..n])
  {
    if n == 0 then ([], gate)
    else
      var (before, g) := RunCalls(w, tools, gate, i, calls, n - 1);
      var (text, after) := RunCall(tools, g, calls[n - 1], w.details(i, n - 1), w.answer(i, n - 1), w.output(i, n - 1));
      (before + [ToolMessage(calls[n - 1].id, text)], after)
  }

  // ----- the loop -----

  /** How a run of the loop ends: its result, what it appended, the gate, and the requests it sent. */
  datatype LoopEnd = LoopEnd(result: ApiResult, appended: History, gate: Confirm.Gate, requests: seq<History>)

  /** The loop from iteration `i` on, with `done` appended to the history `base` so far. */
  ghost function Loop(w: World, tools: seq<Confirm.Tool>, gate: Confirm.Gate, base: History, done: History,
                      i: nat, maxIters: int): LoopEnd
    decreases maxIters - i
  {
    if i >= maxIters then LoopEnd(Exceeded(maxIters), done, gate, [])
    else if w.cancelled(i) then LoopEnd(CANCELED, done, gate, [])
    else
      var res := w.reply(i, base + done);
      if !res.ok then LoopEnd(res, done, gate, [base + done])
      else if res.calls == [] then LoopEnd(res, done + [AssistantMessage(res.content, [])], gate, [base + done])
      else
        var (results, after) := RunCalls(w, tools, gate, i, res.calls, |res.calls|);
        var rest := Loop(w, tools, after, base, done + [AssistantMessage(res.content, res.calls)] + results, i + 1, maxIters);
        rest.(requests := [base + done] + rest.requests)
  }

  /** What one run of the loop guarantees, from a history whose last message is the user's. */
  lemma {:induction false} LoopKeepsShape(w: World, tools: seq<Confirm.Tool>, gate: Confirm.Gate, base: History,
                                          done: History, i: nat, maxIters: int)
    requires EveryCallAnswered(base) && Rounds(done)
    ensures var end := Loop(w, tools, gate, base, done, i, maxIters);
            && (forall k :: 0 <= k < |end.requests| ==> EveryCallAnswered(end.requests[k]) && base <= end.requests[k])
            && |end.requests| <= (if maxIters > i then maxIters - i else 0)
            && (end.result.ok ==>
                  && end.appended != []
                  && Rounds(end.appended[..|end.appended| - 1])
                  && end.appended[|end.appended| - 1] == AssistantMessage(end.result.content, []))
    decreases maxIters - i
  {
    hide Rounds, Answers, EveryCallAnswered, RunCalls;
    RoundsAreAnswered(done);
    AnsweredConcat(base, done);
    if i < maxIters && !w.cancelled(i) {
      var res := w.reply(i, base + done);
      if res.ok && res.calls == [] {
        var all := done + [AssistantMessage(res.content, [])];
        assert all[..|all| - 1] == done;
      } else if res.ok {
        var (results, after) := RunCalls(w, tools, gate, i, res.calls, |res.calls|);
        assert res.calls[..|res.calls|] == res.calls;
        RoundsSnoc(done, AssistantMessage(res.content, res.calls), results);
        LoopKeepsShape(w, tools, after, base, done + [AssistantMessage(res.content, res.calls)] + results, i + 1, maxIters);
      }
    }
  }

  // ----- how the loop ends -----

  /** The reply to request number `k`. */
  ghost function ReplyTo(w: World, i: nat, requests: seq<History>, k: nat): ApiResult
    requires k < |requests|
  {
    w.reply(i + k, requests[k])
  }

  /** The reply to request number `k` asks for tools, and its results come with the next history. */
  ghost predicate AsksForTools(w: World, i: nat, requests: seq<History>, k: nat, next: History)
    requires k < |requests|
  {
    var r := ReplyTo(w, i, requests, k);
    && r.ok && r.calls != []
    && exists results: History :: Answers(results, r.calls)
         && next == requests[k] + [AssistantMessage(r.content, r.calls)] + results
  }

  /** Request number `k` is sent before the turn is cancelled, and goes on to the next one. */
  ghost predicate IsSent(w: World, i: nat, requests: seq<History>, k: nat)
    requires k < |requests|
  {
    !w.cancelled(i + k) && (k + 1 < |requests| ==> AsksForTools(w, i, requests, k, requests[k + 1]))
  }

  /**
    The requests of a loop from iteration `i` on, and the history it ends with: each request but the last is answered
    by calls of tools, and none is sent once the turn is cancelled. The loop ends with the first reply that fails or
    calls no tool; or it is cancelled before the next request; or all its requests are used up.
   */
  ghost predicate EndsWhenDone(w: World, start: History, i: nat, maxIters: int, requests: seq<History>, last: History,
                               result: ApiResult) {
    var n := |requests|;
    && (n > 0 ==> requests[0] == start)
    && (forall k :: 0 <= k < n ==> IsSent(w, i, requests, k))
    && if n > 0 && (!ReplyTo(w, i, requests, n - 1).ok || ReplyTo(w, i, requests, n - 1).calls == []) then
         && result == ReplyTo(w, i, requests, n - 1)
         && last == requests[n - 1] + if result.ok then [AssistantMessage(result.content, [])] else []
       else
         && (if n == 0 then last == start else AsksForTools(w, i, requests, n - 1, last))
         && !result.ok
         && if i + n >= maxIters then
              !result.canceled && result.error == "tool loop exceeded " + ToString(maxIters) + " iterations"
            else w.cancelled(i + n) && result.canceled && result.error == "request canceled"
  }

  ghost predicate SameReply(w: World, i: nat, start: History, requests: seq<History>, k: nat)
    requires k < |requests|
  {
    var all := [start] + requests;
    all[k + 1] == requests[k] && ReplyTo(w, i, all, k + 1) == ReplyTo(w, i + 1, requests, k)
  }

  lemma OneMoreRequest(w: World, start: History, i: nat, maxIters: int, next: History, requests: seq<History>,
                       last: History, result: ApiResult)
    requires !w.cancelled(i) && i < maxIters && AsksForTools(w, i, [start], 0, next)
    requires EndsWhenDone(w, next, i + 1, maxIters, requests, last, result)
    ensures EndsWhenDone(w, start, i, maxIters, [start] + requests, last, result)
  {
    hide Answers;
    var all := [start] + requests;
    forall k: nat | k < |requests|
      ensures SameReply(w, i, start, requests, k)
    {
      assert i + (k + 1) == (i + 1) + k && all[k + 1] == requests[k];
    }
    forall k: nat | k < |all|
      ensures IsSent(w, i, all, k)
    {
      if k > 0 {
        assert SameReply(w, i, start, requests, k - 1) && IsSent(w, i + 1, requests, k - 1);
        assert i + k == (i + 1) + (k - 1);
      }
    }
    if requests != [] {
      assert SameReply(w, i, start, requests, |requests| - 1);
    }
  }

  /** The loop ends in exactly this way, for every world. */
  lemma {:induction false} LoopEndsWhenDone(w: World, tools: seq<Confirm.Tool>, gate: Confirm.Gate, base: History,
                                            done: History, i: nat, maxIters: int)
    ensures var end := Loop(w, tools, gate, base, done, i, maxIters);
            EndsWhenDone(w, base + done, i, maxIters, end.requests, base + end.appended, end.result)
    decreases maxIters - i
  {
    if i < maxIters && !w.cancelled(i) {
      var res := w.reply(i, base + done);
      var message := AssistantMessage(res.content, res.calls);
      if res.ok && res.calls == [] {
        Assoc(base, done, [message]);
      } else if res.ok {
        hide EndsWhenDone, Answers, RunCalls;
        var (results, after) := RunCalls(w, tools, gate, i, res.calls, |res.calls|);
        assert res.calls[..|res.calls|] == res.calls;
        Assoc(base, done, [message]);
        Assoc(base, done + [message], results);
        var next := base + (done + [message] + results);
        assert AsksForTools(w, i, [base + done], 0, next);
        LoopEndsWhenDone(w, tools, after, base, done + [message] + results, i + 1, maxIters);
        var rest := Loop(w, tools, after, base, done + [message] + results, i + 1, maxIters);
        OneMoreRequest(w, base + done, i, maxIters, next, rest.requests, base + rest.appended, rest.result);
      }
    }
  }

  // ----- the agent -----

  datatype AgentState = AgentState(systemPrompt: string, history: History, gate: Confirm.Gate, lastTokens: int)

  function Fresh(prompt: string): History {
    if prompt == "" then [] else [SystemMessage(prompt)]
  }

  ghost function SendEnd(s: AgentState, tools: seq<Confirm.Tool>, maxIters: int, text: string, images: seq<Image>,
                         w: World): LoopEnd {
    Loop(w, tools, s.gate, s.history + [UserMessage(text, images)], [], 0, maxIters)
  }

  /** One turn: a failed or cancelled one drops everything it added. */
  ghost function Send(s: AgentState, tools: seq<Confirm.Tool>, maxIters: int, text: string, images: seq<Image>,
                      w: World): AgentState {
    var end := SendEnd(s, tools, maxIters, text, images, w);
    if end.result.ok then
      s.(history := s.history + [UserMessage(text, images)] + end.appended,
         gate := end.gate,
         lastTokens := if end.result.totalTokens > 0 then end.result.totalTokens else s.lastTokens)
    else s.(gate := end.gate)
  }

  const SUMMARY_NOTE := "Summary of the conversation so far (earlier turns were compacted into this):\n"

  class Agent {
    const tools: seq<Confirm.Tool>
    const maxIters: int
    const gate: Confirm.ConfirmGate
    var systemPrompt: string
    var history: History
    var lastTokens: int

    ghost function State(): AgentState
      reads this, gate, gate.policy
    {
      AgentState(systemPrompt, history, gate.State(), lastTokens)
    }

    constructor (tools: seq<Confirm.Tool>, maxIters: int, gate: Confirm.ConfirmGate, systemPrompt: string)
      ensures this.tools == tools && this.maxIters == maxIters && this.gate == gate
      ensures this.systemPrompt == systemPrompt && history == Fresh(systemPrompt) && lastTokens == 0
    {
      this.tools, this.maxIters, this.gate, this.systemPrompt := tools, maxIters, gate, systemPrompt;
      history := if systemPrompt == "" then [] else [SystemMessage(systemPrompt)];
      lastTokens := 0;
    }

    method Reset()
      modifies this
      ensures State() == old(State()).(history := Fresh(old(systemPrompt)))
    {
      history := [];
      if systemPrompt != "" {
        history := history + [SystemMessage(systemPrompt)];
      }
    }

    method SetSystemPrompt(prompt: string)
      modifies this
      ensures State() == old(State()).(systemPrompt := prompt)
    {
      systemPrompt := prompt;
    }

    method CompactIntoSummary(summary: string)
      modifies this
      ensures State() == old(State()).(history := Fresh(old(systemPrompt)) + [SystemMessage(SUMMARY_NOTE + summary)],
                                       lastTokens := 0)
    {
      history := [];
      if systemPrompt != "" {
        history := history + [SystemMessage(systemPrompt)];
      }
      history := history + [SystemMessage(SUMMARY_NOTE + summary)];
      lastTokens := 0;
    }

    /** Runs the calls of one reply, appending a result for each. */
    method RunToolCalls(w: World, i: nat, calls: seq<ToolCall>)
      requires gate.policy.Valid()
      modifies this`history, gate
      ensures history == old(history) + RunCalls(w, tools, old(gate.State()), i, calls, |calls|).0
      ensures gate.State() == RunCalls(w, tools, old(gate.State()), i, calls, |calls|).1
    {
      ghost var start := gate.State();
      for j := 0 to |calls|
        invariant history == old(history) + RunCalls(w, tools, start, i, calls, j).0
        invariant gate.State() == RunCalls(w, tools, start, i, calls, j).1
      {
        var call := calls[j];
        var text;
        match FindTool(tools, call.name) {
          case Missing =>
            text := "error: unknown tool '" + call.name + "'";
          case Found(tool) =>
            var outcome := gate.AllowCall(tool, w.details(i, j), w.answer(i, j));
            if outcome.allowed {
              text := w.output(i, j);
            } else {
              text := "User declined to run this tool.";
            }
        }
        history := history + [ToolMessage(call.id, text)];
      }
    }

    /** One iteration: asks the model, and runs the tools it calls. `last` ends the loop. */
    method Iterate(w: World, iter: nat, ghost base: History, ghost done: History)
      returns (last: bool, result: ApiResult, ghost requests: seq<History>, ghost more: History)
      requires gate.policy.Valid() && iter < maxIters && history == base + done
      modifies this`history, gate
      ensures history == base + more
      ensures last ==>
                LoopEnd(result, more, gate.State(), requests)
                == Loop(w, tools, old(gate.State()), base, done, iter, maxIters)
      ensures !last ==>
                GoesOn(Loop(w, tools, old(gate.State()), base, done, iter, maxIters),
                       Loop(w, tools, gate.State(), base, more, iter + 1, maxIters), requests)
    {
      hide RunCall, RunCalls;
      more := done;
      if w.cancelled(iter) {
        return true, CANCELED, [], more;
      }
      result := w.reply(iter, history);
      requests := [history];
      last := !result.ok || result.calls == [];
      if result.ok {
        history := history + [AssistantMessage(result.content, result.calls)];
        more := more + [AssistantMessage(result.content, result.calls)];
        if result.calls != [] {
          more := more + RunCalls(w, tools, gate.State(), iter, result.calls, |result.calls|).0;
          RunToolCalls(w, iter, result.calls);
        }
      }
    }

    /** The tool loop; `requests` records the history each request was sent with. */
    method RunToolLoop(w: World) returns (result: ApiResult, ghost requests: seq<History>, ghost appended: History)
      requires gate.policy.Valid()
      modifies this`history, gate
      ensures LoopEnd(result, appended, gate.State(), requests)
              == Loop(w, tools, old(gate.State()), old(history), [], 0, maxIters)
      ensures history == old(history) + appended
    {
      ghost var base := history;
      ghost var end := Loop(w, tools, gate.State(), base, [], 0, maxIters);
      appended, requests := [], [];
      var iter := 0;
      while iter < maxIters
        invariant 0 <= iter
        invariant history == base + appended
        invariant GoesOn(end, Loop(w, tools, gate.State(), base, appended, iter, maxIters), requests)
        decreases maxIters - iter
      {
        var last;
        ghost var sent;
        ghost var rest := Loop(w, tools, gate.State(), base, appended, iter, maxIters);
        last, result, sent, appended := Iterate(w, iter, base, appended);
        if last {
          requests := requests + sent;
          return;
        }
        Assoc(requests, sent, Loop(w, tools, gate.State(), base, appended, iter + 1, maxIters).requests);
        requests := requests + sent;
        iter := iter + 1;
      }
      result := Exceeded(maxIters);
    }

    method SendMessage(text: string, images: seq<Image>, w: World) returns (result: ApiResult)
      requires gate.policy.Valid()
      modifies this, gate
      ensures State() == Send(old(State()), tools, maxIters, text, images, w)
      ensures result == SendEnd(old(State()), tools, maxIters, text, images, w).result
    {
      var mark := |history|;
      history := history + [UserMessage(text, images)];
      ghost var requests, appended;
      result, requests, appended := RunToolLoop(w);
      if !result.ok {
        history := history[..mark];
      } else if result.totalTokens > 0 {
        lastTokens := result.totalTokens;
      }
    }
  }

  /** The loop will end as `end` if what is left of it ends as `rest`, after these requests. */
  ghost predicate GoesOn(end: LoopEnd, rest: LoopEnd, requests: seq<History>) {
    end == rest.(requests := requests + rest.requests)
  }

  // ----- every sequence of operations -----

  datatype Operation =
    | DoSend(text: string, images: seq<Image>, world: World)
    | DoReset
    | DoCompact(summary: string)
    | DoSetPrompt(prompt: string)

  ghost function Apply(s: AgentState, tools: seq<Confirm.Tool>, maxIters: int, op: Operation): AgentState {
    match op
    case DoSend(text, images, world) => Send(s, tools, maxIters, text, images, world)
    case DoReset => s.(history := Fresh(s.systemPrompt))
    case DoCompact(summary) =>
      s.(history := Fresh(s.systemPrompt) + [SystemMessage(SUMMARY_NOTE + summary)], lastTokens := 0)
    case DoSetPrompt(prompt) => s.(systemPrompt := prompt)
  }

  ghost function RunOps(s: AgentState, tools: seq<Confirm.Tool>, maxIters: int, ops: seq<Operation>): AgentState {
    if ops == [] then s
    else Apply(RunOps(s, tools, maxIters, ops[..|ops| - 1]), tools, maxIters, ops[|ops| - 1])
  }

  /** The history a turn starts from: what was there and the user's message. */
  lemma BaseIsAnswered(h: History, text: string, images: seq<Image>)
    requires WellFormedHistory(h)
    ensures EveryCallAnswered(h + [UserMessage(text, images)])
  {
    WellFormedIsAnswered(h);
    UserIsAnswered(UserMessage(text, images));
    AnsweredConcat(h, [UserMessage(text, images)]);
  }

  /** A turn makes a bounded number of requests, and each of them shows the server every earlier call answered. */
  lemma RequestsAreAnswered(s: AgentState, tools: seq<Confirm.Tool>, maxIters: int, text: string, images: seq<Image>,
                            w: World)
    requires WellFormedHistory(s.history)
    ensures var end := SendEnd(s, tools, maxIters, text, images, w);
            && |end.requests| <= (if maxIters > 0 then maxIters else 0)
            && forall k :: 0 <= k < |end.requests| ==>
                 EveryCallAnswered(end.requests[k]) && s.history + [UserMessage(text, images)] <= end.requests[k]
  {
    BaseIsAnswered(s.history, text, images);
    LoopKeepsShape(w, tools, s.gate, s.history + [UserMessage(text, images)], [], 0, maxIters);
  }

  /** A turn that succeeds appends one turn; one that fails or is cancelled leaves the history as it was. */
  lemma SendKeepsShape(s: AgentState, tools: seq<Confirm.Tool>, maxIters: int, text: string, images: seq<Image>, w: World)
    requires WellFormedHistory(s.history)
    ensures WellFormedHistory(Send(s, tools, maxIters, text, images, w).history)
    ensures !SendEnd(s, tools, maxIters, text, images, w).result.ok ==>
              Send(s, tools, maxIters, text, images, w).history == s.history
  {
    hide Loop, WellFormedHistory, EveryCallAnswered;
    var user := UserMessage(text, images);
    var end := SendEnd(s, tools, maxIters, text, images, w);
    if end.result.ok {
      BaseIsAnswered(s.history, text, images);
      LoopKeepsShape(w, tools, s.gate, s.history + [user], [], 0, maxIters);
      AppendTurn(s.history, user, end.appended);
    }
  }

  lemma AppendTurn(h: History, user: Message, appended: History)
    requires WellFormedHistory(h) && user.role == User && appended != []
    requires Rounds(appended[..|appended| - 1])
    requires appended[|appended| - 1].role == Assistant && appended[|appended| - 1].calls == []
    ensures WellFormedHistory(h + [user] + appended)
  {
    TurnOf(user, appended);
    WellFormedSnoc(h, [user] + appended);
    assert h + ([user] + appended) == h + [user] + appended;
  }

  lemma TurnOf(user: Message, appended: History)
    requires user.role == User && appended != []
    requires Rounds(appended[..|appended| - 1])
    requires appended[|appended| - 1].role == Assistant && appended[|appended| - 1].calls == []
    ensures Turn([user] + appended)
  {
    var turn := [user] + appended;
    assert turn[1..|turn| - 1] == appended[..|appended| - 1];
  }

  lemma FreshIsWellFormed(prompt: string, note: string)
    ensures WellFormedHistory(Fresh(prompt)) && WellFormedHistory(Fresh(prompt) + [SystemMessage(note)])
  {
    var f := Fresh(prompt);
    var h := f + [SystemMessage(note)];
    assert f[|f|..] == [] && StartsTurnsAt(f, |f|);
    assert h[|h|..] == [] && StartsTurnsAt(h, |h|);
  }

  /**
    Over every sequence of sends, resets, compactions and changes of the prompt, the history is at most two system
    messages followed by whole turns.
   */
  lemma {:induction false} HistoryIsAlwaysWellFormed(prompt: string, gate: Confirm.Gate, tools: seq<Confirm.Tool>,
                                                     maxIters: int, ops: seq<Operation>)
    ensures WellFormedHistory(RunOps(AgentState(prompt, Fresh(prompt), gate, 0), tools, maxIters, ops).history)
  {
    var s := AgentState(prompt, Fresh(prompt), gate, 0);
    if ops == [] {
      FreshIsWellFormed(prompt, "");
    } else {
      var before := RunOps(s, tools, maxIters, ops[..|ops| - 1]);
      HistoryIsAlwaysWellFormed(prompt, gate, tools, maxIters, ops[..|ops| - 1]);
      match ops[|ops| - 1] {
        case DoSend(text, images, world) => SendKeepsShape(before, tools, maxIters, text, images, world);
        case DoReset => FreshIsWellFormed(before.systemPrompt, "");
        case DoCompact(summary) => FreshIsWellFormed(before.systemPrompt, SUMMARY_NOTE + summary);
        case DoSetPrompt(p) =>
      }
    }
  }

  /**
    And every send on the way makes at most `maxIters` requests, each of which shows the server everything from
    before and every earlier call answered; if it fails or is cancelled, it leaves the history as it was.
   */
  lemma EverySendBehaves(prompt: string, gate: Confirm.Gate, tools: seq<Confirm.Tool>, maxIters: int,
                         ops: seq<Operation>, k: nat)
    requires k < |ops| && ops[k].DoSend?
    ensures var s := AgentState(prompt, Fresh(prompt), gate, 0);
            var before, after := RunOps(s, tools, maxIters, ops[..k]), RunOps(s, tools, maxIters, ops[..k + 1]);
            var end := SendEnd(before, tools, maxIters, ops[k].text, ops[k].images, ops[k].world);
            && |end.requests| <= (if maxIters > 0 then maxIters else 0)
            && (forall r :: 0 <= r < |end.requests| ==>
                  EveryCallAnswered(end.requests[r]) && before.history <= end.requests[r])
            && (!end.result.ok ==> after.history == before.history)
  {
    hide Loop, EveryCallAnswered, WellFormedHistory;
    var s := AgentState(prompt, Fresh(prompt), gate, 0);
    var before, op := RunOps(s, tools, maxIters, ops[..k]), ops[k];
    HistoryIsAlwaysWellFormed(prompt, gate, tools, maxIters, ops[..k]);
    assert ops[..k + 1][..k] == ops[..k];
    RequestsAreAnswered(before, tools, maxIters, op.text, op.images, op.world);
    SendKeepsShape(before, tools, maxIters, op.text, op.images, op.world);
    var end := SendEnd(before, tools, maxIters, op.text, op.images, op.world);
    forall r | 0 <= r < |end.requests|
      ensures before.history <= end.requests[r]
    {
      assert before.history <= before.history + [UserMessage(op.text, op.images)] <= end.requests[r];
    }
  }

  // ----- what the operations forget and remember -----

  /** Starting anew leaves exactly the prompt, compacting exactly the prompt and the summary. */
  lemma ForgettingKeepsThePrompt(s: AgentState, tools: seq<Confirm.Tool>, maxIters: int, summary: string)
    ensures var h := Apply(s, tools, maxIters, DoReset).history; HoldsOnly(h, s.systemPrompt)
    ensures var h := Apply(s, tools, maxIters, DoCompact(summary)).history;
            && h != [] && HoldsOnly(h[..|h| - 1], s.systemPrompt)
            && h[|h| - 1].role == System && h[|h| - 1].content == SUMMARY_NOTE + summary
  {
    var before := Fresh(s.systemPrompt);
    assert (before + [SystemMessage(SUMMARY_NOTE + summary)])[..|before|] == before;
  }

  /** Operation number `k` counts tokens anew: a reply that reports some, or a compaction. */
  ghost predicate Counts(s: AgentState, tools: seq<Confirm.Tool>, maxIters: int, ops: seq<Operation>, k: nat, n: int)
    requires k < |ops|
  {
    match ops[k]
    case DoSend(text, images, world) =>
      var result := SendEnd(RunOps(s, tools, maxIters, ops[..k]), tools, maxIters, text, images, world).result;
      result.ok && result.totalTokens == n > 0
    case DoCompact(_) => n == 0
    case _ => false
  }

  ghost predicate CountsLast(s: AgentState, tools: seq<Confirm.Tool>, maxIters: int, ops: seq<Operation>, k: nat, n: int)
    requires k < |ops|
  {
    Counts(s, tools, maxIters, ops, k, n)
    && forall j, m :: k < j < |ops| ==> !Counts(s, tools, maxIters, ops, j, m)
  }

  lemma CountsBefore(s: AgentState, tools: seq<Confirm.Tool>, maxIters: int, ops: seq<Operation>, last: Operation,
                     k: nat, n: int)
    requires k < |ops|
    ensures Counts(s, tools, maxIters, ops + [last], k, n) <==> Counts(s, tools, maxIters, ops, k, n)
  {
    hide RunOps, SendEnd;
    assert (ops + [last])[..k] == ops[..k] && (ops + [last])[k] == ops[k];
  }

  /** Over every sequence of operations the stored number of tokens is the one that was counted last. */
  lemma {:induction false} TokensAreTheLastCounted(s: AgentState, tools: seq<Confirm.Tool>, maxIters: int,
                                                   ops: seq<Operation>)
    ensures var n := RunOps(s, tools, maxIters, ops).lastTokens;
            || (exists k: nat :: k < |ops| && CountsLast(s, tools, maxIters, ops, k, n))
            || (n == s.lastTokens && forall k: nat, m :: k < |ops| ==> !Counts(s, tools, maxIters, ops, k, m))
  {
    if ops != [] {
      var front, last := ops[..|ops| - 1], ops[|ops| - 1];
      TokensAreTheLastCounted(s, tools, maxIters, front);
      assert front + [last] == ops;
      forall k: nat, m | k < |front|
        ensures Counts(s, tools, maxIters, ops, k, m) <==> Counts(s, tools, maxIters, front, k, m)
      {
        CountsBefore(s, tools, maxIters, front, last, k, m);
      }
      var n := RunOps(s, tools, maxIters, ops).lastTokens;
      hide SendEnd, Loop;
      if Counts(s, tools, maxIters, ops, |front|, n) {
        assert CountsLast(s, tools, maxIters, ops, |front|, n);
      } else if exists k: nat :: k < |front| && CountsLast(s, tools, maxIters, front, k, n) {
        var k: nat :| k < |front| && CountsLast(s, tools, maxIters, front, k, n);
        assert CountsLast(s, tools, maxIters, ops, k, n);
      }
    }
  }
}
