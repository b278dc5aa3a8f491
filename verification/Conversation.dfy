/** Messages (src/llm/Message.hpp) and the shape of a conversation history. */
module Conversation {
  import opened Sequences

  datatype Role = System | User | Assistant | ToolRole

  /** An attached image; `size` is its size as shown to the user. */
  datatype Image = Image(name: string, size: string, data: string)

  datatype ToolCall = ToolCall(id: string, name: string, arguments: string)

  datatype Message = Message(role: Role, content: string, calls: seq<ToolCall>, callId: string, images: seq<Image>)

  type History = seq<Message>

  function SystemMessage(text: string): Message {
    Message(System, text, [], "", [])
  }

  function UserMessage(text: string, images: seq<Image>): Message {
    Message(User, text, [], "", images)
  }

  function AssistantMessage(text: string, calls: seq<ToolCall>): Message {
    Message(Assistant, text, calls, "", [])
  }

  function ToolMessage(callId: string, text: string): Message {
    Message(ToolRole, text, [], callId, [])
  }

  /** The system prompt, if there is one, and nothing else. */
  predicate HoldsOnly(h: History, prompt: string) {
    if prompt == "" then h == [] else |h| == 1 && h[0].role == System && h[0].content == prompt && h[0].images == []
  }

  // ----- the grammar of a history -----

  /** Tool results that answer the calls one by one, in order, by id. */
  predicate Answers(results: History, calls: seq<ToolCall>) {
    |results| == |calls|
    && forall j :: 0 <= j < |calls| ==> results[j].role == ToolRole && results[j].callId == calls[j].id
  }

  /** Requests for tools, each followed by exactly the answers to its calls. */
  predicate Rounds(ms: History) {
    ms == []
    || (&& ms[0].role == Assistant
        && 0 < |ms[0].calls| < |ms|
        && Answers(ms[1..1 + |ms[0].calls|], ms[0].calls)
        && Rounds(ms[1 + |ms[0].calls|..]))
  }

  /** A user message, rounds of tool use, and a final answer without calls. */
  predicate Turn(t: History) {
    && |t| >= 2
    && t[0].role == User
    && Rounds(t[1..|t| - 1])
    && t[|t| - 1].role == Assistant && t[|t| - 1].calls == []
  }

  ghost predicate Turns(ms: History)
    decreases |ms|
  {
    ms == [] || exists k :: 0 < k <= |ms| && Turn(ms[..k]) && Turns(ms[k..])
  }

  /** `h` starts with `n` system messages, and whole turns follow. */
  ghost predicate StartsTurnsAt(h: History, n: nat) {
    n <= 2 && n <= |h| && (forall i :: 0 <= i < n ==> h[i].role == System) && Turns(h[n..])
  }

  /** At most two system messages, then whole turns. */
  ghost predicate WellFormedHistory(h: History) {
    exists n: nat :: StartsTurnsAt(h, n)
  }

  /**
    What a chat server demands of a request: behind every assistant message stand the answers to all its calls,
    in order, and every tool result answers a call of the assistant message it stands behind.
   */
  ghost predicate EveryCallAnswered(h: History) {
    forall i :: 0 <= i < |h| ==> AnsweredAt(h, i)
  }

  ghost predicate AnsweredAt(h: History, i: nat)
    requires i < |h|
  {
    && (h[i].role == Assistant ==> CallsAnsweredAt(h, i))
    && (h[i].role == ToolRole ==> exists j :: AnswerTo(h, i, j))
  }

  predicate CallsAnsweredAt(h: History, i: nat)
    requires i < |h|
  {
    i + |h[i].calls| < |h| && Answers(h[i + 1..i + 1 + |h[i].calls|], h[i].calls)
  }

  /** Message `i` answers call number i - j - 1 of message `j`. */
  predicate AnswerTo(h: History, i: int, j: int) {
    0 <= j < i < |h| && h[j].role == Assistant && i - j - 1 < |h[j].calls| && h[i].callId == h[j].calls[i - j - 1].id
  }

  // ----- putting histories together -----

  lemma AnsweredConcat(a: History, b: History)
    requires EveryCallAnswered(a) && EveryCallAnswered(b)
    ensures EveryCallAnswered(a + b)
  {
    forall i | 0 <= i < |a + b|
      ensures AnsweredAt(a + b, i)
    {
      if i < |a| {
        AnsweredLeft(a, b, i);
      } else {
        AnsweredRight(a, b, i - |a|);
      }
    }
  }

  lemma AnsweredLeft(a: History, b: History, i: nat)
    requires i < |a| && AnsweredAt(a, i)
    ensures AnsweredAt(a + b, i)
  {
    var h := a + b;
    if a[i].role == Assistant {
      assert h[i + 1..i + 1 + |a[i].calls|] == a[i + 1..i + 1 + |a[i].calls|];
    } else if a[i].role == ToolRole {
      var j :| AnswerTo(a, i, j);
      assert AnswerTo(h, i, j);
    }
  }

  lemma AnsweredRight(a: History, b: History, i: nat)
    requires i < |b| && AnsweredAt(b, i)
    ensures AnsweredAt(a + b, |a| + i)
  {
    var h := a + b;
    if b[i].role == Assistant {
      assert h[|a| + i + 1..|a| + i + 1 + |b[i].calls|] == b[i + 1..i + 1 + |b[i].calls|];
    } else if b[i].role == ToolRole {
      var j :| AnswerTo(b, i, j);
      assert AnswerTo(h, |a| + i, |a| + j);
    }
  }

  lemma PlainIsAnswered(m: Message)
    requires m.role != ToolRole && m.calls == []
    ensures EveryCallAnswered([m])
  {
    assert [m][1..1] == [];
  }

  /** One request for tools with its answers. */
  lemma RoundIsAnswered(m: Message, results: History)
    requires m.role == Assistant && Answers(results, m.calls)
    ensures EveryCallAnswered([m] + results)
  {
    var h := [m] + results;
    assert h[1..1 + |m.calls|] == results;
    forall i | 0 <= i < |h|
      ensures AnsweredAt(h, i)
    {
      if i > 0 {
        assert AnswerTo(h, i, 0);
      }
    }
  }

  lemma {:induction false} RoundsAreAnswered(ms: History)
    requires Rounds(ms)
    ensures EveryCallAnswered(ms)
    decreases |ms|
  {
    if ms != [] {
      var n := |ms[0].calls|;
      var rest := ms[1 + n..];
      RoundsAreAnswered(rest);
      RoundIsAnswered(ms[0], ms[1..1 + n]);
      AnsweredConcat([ms[0]] + ms[1..1 + n], rest);
      assert ms == [ms[0]] + ms[1..1 + n] + rest;
    }
  }

  lemma RoundsCons(m: Message, results: History, rest: History)
    requires m.role == Assistant && m.calls != [] && Answers(results, m.calls) && Rounds(rest)
    ensures Rounds([m] + results + rest)
  {
    var all := [m] + results + rest;
    assert all[1..1 + |m.calls|] == results && all[1 + |m.calls|..] == rest;
  }

  lemma RoundsHead(ms: History)
    requires Rounds(ms) && ms != []
    ensures var n := |ms[0].calls|;
            ms[0].role == Assistant && 0 < n < |ms| && Answers(ms[1..1 + n], ms[0].calls) && Rounds(ms[1 + n..])
  {
    hide Answers;
  }

  lemma {:induction false} RoundsSnoc(ms: History, m: Message, results: History)
    requires Rounds(ms) && m.role == Assistant && m.calls != [] && Answers(results, m.calls)
    ensures Rounds(ms + [m] + results)
    decreases |ms|
  {
    if ms == [] {
      RoundsCons(m, results, []);
      assert ms + [m] + results == [m] + results + [];
    } else {
      hide Rounds, Answers;
      RoundsHead(ms);
      var n := |ms[0].calls|;
      CutTwice(ms, 1, 1 + n);
      assert ms[..1] == [ms[0]];
      var first, rest := [ms[0]] + ms[1..1 + n], ms[1 + n..];
      RoundsSnoc(rest, m, results);
      RoundsCons(ms[0], ms[1..1 + n], rest + [m] + results);
      Assoc(first, rest, [m]);
      Assoc(first, rest + [m], results);
    }
  }

  lemma TurnIsAnswered(t: History)
    requires Turn(t)
    ensures EveryCallAnswered(t)
  {
    var user, middle, last := t[0], t[1..|t| - 1], t[|t| - 1];
    RoundsAreAnswered(middle);
    UserIsAnswered(user);
    PlainIsAnswered(last);
    AnsweredConcat([user], middle);
    AnsweredConcat([user] + middle, [last]);
    assert t == [user] + middle + [last];
  }

  lemma UserIsAnswered(m: Message)
    requires m.role == User || m.role == System
    ensures EveryCallAnswered([m])
  {
  }

  lemma {:induction false} TurnsAreAnswered(ms: History)
    requires Turns(ms)
    ensures EveryCallAnswered(ms)
    decreases |ms|
  {
    if ms != [] {
      hide Turn, EveryCallAnswered;
      var k :| 0 < k <= |ms| && Turn(ms[..k]) && Turns(ms[k..]);
      TurnIsAnswered(ms[..k]);
      TurnsAreAnswered(ms[k..]);
      AnsweredConcat(ms[..k], ms[k..]);
      TakeDrop(ms, k);
    }
  }

  lemma WellFormedIsAnswered(h: History)
    requires WellFormedHistory(h)
    ensures EveryCallAnswered(h)
  {
    hide Turns;
    var n: nat :| StartsTurnsAt(h, n);
    TurnsAreAnswered(h[n..]);
    AnsweredConcat(h[..n], h[n..]);
    assert h == h[..n] + h[n..];
  }

  lemma {:induction false} TurnsSnoc(ms: History, t: History)
    requires Turns(ms) && Turn(t)
    ensures Turns(ms + t)
    decreases |ms|
  {
    hide Turn;
    if ms == [] {
      assert ms + t == t;
      assert t[..|t|] == t && t[|t|..] == [];
    } else {
      var k :| 0 < k <= |ms| && Turn(ms[..k]) && Turns(ms[k..]);
      TurnsSnoc(ms[k..], t);
      assert (ms + t)[..k] == ms[..k] && (ms + t)[k..] == ms[k..] + t;
    }
  }

  lemma StartsTurnsSnoc(h: History, n: nat, t: History)
    requires StartsTurnsAt(h, n) && Turn(t)
    ensures StartsTurnsAt(h + t, n)
  {
    hide Turn, Turns;
    TurnsSnoc(h[n..], t);
    assert (h + t)[n..] == h[n..] + t;
  }

  lemma WellFormedSnoc(h: History, t: History)
    requires WellFormedHistory(h) && Turn(t)
    ensures WellFormedHistory(h + t)
  {
    var n: nat :| StartsTurnsAt(h, n);
    StartsTurnsSnoc(h, n, t);
  }
}
