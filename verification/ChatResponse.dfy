/** The streaming response parser of src/llm/ChatResponse.cpp, with JSON parsing as a parameter. */
module ChatResponse {
  import opened TextLines
  import opened Framing
  import opened Options
  import opened Conversation

  // ----- what a parsed chunk holds (None where the source finds nothing of the right type) -----

  datatype Usage = Usage(prompt: Option<int>, completion: Option<int>, total: Option<int>)

  datatype Fragment = Fragment(index: int, id: Option<string>, name: Option<string>, arguments: Option<string>)

  datatype Delta = Delta(content: Option<string>, reasoning: Option<string>, fragments: seq<Fragment>)

  datatype Choice = Choice(finishReason: Option<string>, delta: Option<Delta>)

  datatype Chunk = Chunk(usage: Option<Usage>, choice: Option<Choice>)

  /** A payload's chunk, or None if it is no JSON. */
  type Parse = string -> Option<Chunk>

  // ----- the parser as a value -----

  datatype Callback = OnContent(piece: string) | OnReasoning(piece: string)

  type Calls = map<int, ToolCall>

  datatype Parser = Parser(buffer: string, content: string, reasoning: string, finishReason: string,
                           promptTokens: int, completionTokens: int, totalTokens: int, done: bool,
                           tools: Calls, callbacks: seq<Callback>)

  const START := Parser("", "", "", "", 0, 0, 0, false, map[], [])

  /** `s` without blanks at either end. */
  function Trim(s: string): (t: string)
    ensures t != "" ==> !IsBlank(t[0]) && !IsBlank(t[|t| - 1])
  {
    if s == "" then ""
    else if IsBlank(s[0]) then Trim(s[1..])
    else if IsBlank(s[|s| - 1]) then Trim(s[..|s| - 1])
    else s
  }

  /** Adds one fragment of a tool call to the call with its index. */
  function Merge(tools: Calls, f: Fragment): Calls {
    var acc := if f.index in tools then tools[f.index] else ToolCall("", "", "");
    tools[f.index := ToolCall(GetOr(f.id, acc.id), GetOr(f.name, acc.name), acc.arguments + GetOr(f.arguments, ""))]
  }

  function MergeAll(tools: Calls, fragments: seq<Fragment>): Calls {
    if fragments == [] then tools
    else Merge(MergeAll(tools, fragments[..|fragments| - 1]), fragments[|fragments| - 1])
  }

  function WithUsage(p: Parser, u: Usage): Parser {
    p.(promptTokens := GetOr(u.prompt, p.promptTokens),
       completionTokens := GetOr(u.completion, p.completionTokens),
       totalTokens := GetOr(u.total, p.totalTokens))
  }

  function WithDelta(p: Parser, d: Delta): Parser {
    var a := if d.content.None? then p
             else p.(content := p.content + d.content.value, callbacks := p.callbacks + [OnContent(d.content.value)]);
    var b := if d.reasoning.None? then a
             else a.(reasoning := a.reasoning + d.reasoning.value, callbacks := a.callbacks + [OnReasoning(d.reasoning.value)]);
    b.(tools := MergeAll(b.tools, d.fragments))
  }

  function ProcessChunk(p: Parser, c: Chunk): Parser {
    var a := if c.usage.None? then p else WithUsage(p, c.usage.value);
    if c.choice.None? then a
    else
      var b := a.(finishReason := GetOr(c.choice.value.finishReason, a.finishReason));
      if c.choice.value.delta.None? then b else WithDelta(b, c.choice.value.delta.value)
  }

  const DATA := "data:"

  function ProcessLine(parse: Parse, p: Parser, raw: string): Parser {
    var line := Trim(raw);
    if line == "" || line[0] == ':' || !(DATA <= line) then p
    else
      var payload := Trim(line[|DATA|..]);
      if payload == "[DONE]" then p.(done := true)
      else if parse(payload).None? then p
      else ProcessChunk(p, parse(payload).value)
  }

  function ProcessLines(parse: Parse, p: Parser, lines: seq<string>): Parser
    decreases |lines|
  {
    if lines == [] then p else ProcessLines(parse, ProcessLine(parse, p, lines[0]), lines[1..])
  }

  /** One feed: every line completed by `bytes` is processed, the remainder kept. */
  function Feed(parse: Parse, p: Parser, bytes: string): Parser {
    var all := p.buffer + bytes;
    ProcessLines(parse, p, Complete(all)).(buffer := Remainder(all))
  }

  function FeedAll(parse: Parse, p: Parser, chunks: seq<string>): Parser
    decreases |chunks|
  {
    if chunks == [] then p else FeedAll(parse, Feed(parse, p, chunks[0]), chunks[1..])
  }

  // ----- the class -----

  class StreamParser {
    const parse: Parse
    var state: Parser

    constructor (parse: Parse)
      ensures this.parse == parse && state == START
    {
      this.parse := parse;
      state := START;
    }

    method FeedBytes(bytes: string)
      modifies this
      ensures state == Feed(parse, old(state), bytes)
    {
      state := state.(buffer := state.buffer + bytes);
      BufferIsNotRead(parse, old(state), Complete(state.buffer), state.buffer);
      var pos := FirstNewline(state.buffer);
      while pos < |state.buffer|
        invariant pos == FirstNewline(state.buffer)
        invariant Drained(parse, state) == Feed(parse, old(state), bytes)
        decreases |state.buffer|
      {
        var line, rest := state.buffer[..pos], state.buffer[pos + 1..];
        DrainOne(parse, state);
        ProcessTheLine(line);
        state := state.(buffer := rest);
        pos := FirstNewline(state.buffer);
      }
      NothingToDrain(parse, state);
    }

    method ProcessTheLine(raw: string)
      modifies this
      ensures state == ProcessLine(parse, old(state), raw)
    {
      var line := Trim(raw);
      if line == "" || line[0] == ':' || !(DATA <= line) {
        return;
      }
      var payload := Trim(line[|DATA|..]);
      if payload == "[DONE]" {
        state := state.(done := true);
        return;
      }
      var chunk := parse(payload);
      if chunk.Some? {
        ProcessTheChunk(chunk.value);
      }
    }

    method ProcessTheChunk(c: Chunk)
      modifies this
      ensures state == ProcessChunk(old(state), c)
    {
      hide WithDelta;
      if c.usage.Some? {
        state := WithUsage(state, c.usage.value);
      }
      if c.choice.None? {
        return;
      }
      var choice := c.choice.value;
      if choice.finishReason.Some? {
        state := state.(finishReason := choice.finishReason.value);
      }
      if choice.delta.None? {
        return;
      }
      ProcessDelta(choice.delta.value);
    }

    method ProcessDelta(d: Delta)
      modifies this
      ensures state == WithDelta(old(state), d)
    {
      if d.content.Some? {
        state := state.(content := state.content + d.content.value);
        state := state.(callbacks := state.callbacks + [OnContent(d.content.value)]);
      }
      if d.reasoning.Some? {
        state := state.(reasoning := state.reasoning + d.reasoning.value);
        state := state.(callbacks := state.callbacks + [OnReasoning(d.reasoning.value)]);
      }
      MergeFragments(d.fragments);
    }

    method MergeFragments(fragments: seq<Fragment>)
      modifies this
      ensures state == old(state).(tools := MergeAll(old(state).tools, fragments))
    {
      hide Merge;
      ghost var before := state.tools;
      for i := 0 to |fragments|
        invariant state == old(state).(tools := MergeAll(before, fragments[..i]))
      {
        assert fragments[..i + 1][..i] == fragments[..i];
        state := state.(tools := Merge(state.tools, fragments[i]));
      }
      assert fragments[..|fragments|] == fragments;
    }

    /** The calls in ascending order of their indices. */
    method ToolCalls() returns (out: seq<ToolCall>)
      ensures exists keys :: Listing(state.tools, keys, out)
    {
      out := [];
      ghost var keys: seq<int> := [];
      var left := state.tools.Keys;
      while left != {}
        invariant left <= state.tools.Keys
        invariant forall k :: k in state.tools.Keys <==> k in left || k in keys
        invariant |keys| == |out| && Ascending(keys)
        invariant forall i :: 0 <= i < |keys| ==> keys[i] in state.tools && out[i] == state.tools[keys[i]]
        invariant forall i, k :: 0 <= i < |keys| && k in left ==> keys[i] < k
        decreases |left|
      {
        Inhabited(left);
        LeastExists(left);
        var k :| Least(left, k);
        out := out + [state.tools[k]];
        keys := keys + [k];
        left := left - {k};
      }
      assert Listing(state.tools, keys, out);
    }
  }

  // ----- chunking -----

  /** The parser once every complete line in its buffer has been processed. */
  function Drained(parse: Parse, p: Parser): Parser {
    ProcessLines(parse, p, Complete(p.buffer)).(buffer := Remainder(p.buffer))
  }

  lemma DrainOne(parse: Parse, p: Parser)
    requires FirstNewline(p.buffer) < |p.buffer|
    ensures var k := FirstNewline(p.buffer);
            Drained(parse, p) == Drained(parse, ProcessLine(parse, p, p.buffer[..k]).(buffer := p.buffer[k + 1..]))
  {
    hide FirstNewline, ProcessLine;
    var k := FirstNewline(p.buffer);
    var line, rest := p.buffer[..k], p.buffer[k + 1..];
    assert ([line] + Complete(rest))[1..] == Complete(rest);
    BufferIsNotRead(parse, ProcessLine(parse, p, line), Complete(rest), rest);
  }

  lemma NothingToDrain(parse: Parse, p: Parser)
    requires FirstNewline(p.buffer) == |p.buffer|
    ensures Drained(parse, p) == p
  {
    assert p.buffer[..FirstNewline(p.buffer)] == p.buffer;
  }

  /** Processing lines neither reads nor changes the buffer. */
  lemma {:induction false} BufferIsNotRead(parse: Parse, p: Parser, lines: seq<string>, b: string)
    ensures ProcessLines(parse, p.(buffer := b), lines) == ProcessLines(parse, p, lines).(buffer := b)
    decreases |lines|
  {
    if lines != [] {
      LineKeepsBuffer(parse, p, lines[0], b);
      BufferIsNotRead(parse, ProcessLine(parse, p, lines[0]), lines[1..], b);
    }
  }

  lemma LineKeepsBuffer(parse: Parse, p: Parser, line: string, b: string)
    ensures ProcessLine(parse, p.(buffer := b), line) == ProcessLine(parse, p, line).(buffer := b)
  {
    var trimmed := Trim(line);
    if trimmed != "" && trimmed[0] != ':' && DATA <= trimmed && Trim(trimmed[|DATA|..]) != "[DONE]" {
      var chunk := parse(Trim(trimmed[|DATA|..]));
      if chunk.Some? {
        ChunkKeepsBuffer(p, chunk.value, b);
      }
    }
  }

  lemma ChunkKeepsBuffer(p: Parser, c: Chunk, b: string)
    ensures ProcessChunk(p.(buffer := b), c) == ProcessChunk(p, c).(buffer := b)
  {
    var a := if c.usage.None? then p else WithUsage(p, c.usage.value);
    if c.choice.Some? && c.choice.value.delta.Some? {
      var f := a.(finishReason := GetOr(c.choice.value.finishReason, a.finishReason));
      DeltaKeepsBuffer(f, c.choice.value.delta.value, b);
    }
  }

  lemma DeltaKeepsBuffer(p: Parser, d: Delta, b: string)
    ensures WithDelta(p.(buffer := b), d) == WithDelta(p, d).(buffer := b)
  {
  }

  lemma {:induction false} ProcessLinesConcat(parse: Parse, p: Parser, a: seq<string>, b: seq<string>)
    ensures ProcessLines(parse, p, a + b) == ProcessLines(parse, ProcessLines(parse, p, a), b)
    decreases |a|
  {
    if a == [] {
      assert a + b == b;
    } else {
      ProcessLinesConcat(parse, ProcessLine(parse, p, a[0]), a[1..], b);
      assert (a + b)[1..] == a[1..] + b;
    }
  }

  lemma FeedTwice(parse: Parse, p: Parser, a: string, b: string)
    ensures Feed(parse, Feed(parse, p, a), b) == Feed(parse, p, a + b)
  {
    hide ProcessLine, ProcessLines, Complete, Remainder;
    var first := p.buffer + a;
    var lines, more := Complete(first), Complete(Remainder(first) + b);
    CompleteConcat(first, b);
    RemainderConcat(first, b);
    assert p.buffer + (a + b) == first + b;
    ProcessLinesConcat(parse, p, lines, more);
    BufferIsNotRead(parse, ProcessLines(parse, p, lines), more, Remainder(first));
  }

  /**
    However a byte string is cut into feeds, the state and the callbacks made are those of one pass over its
    newline-terminated lines; what follows the last newline waits in the buffer.
   */
  lemma {:induction false} ChunkingDoesNotMatter(parse: Parse, p: Parser, chunks: seq<string>)
    requires NoNewline(p.buffer)
    ensures FeedAll(parse, p, chunks) == Feed(parse, p, Flatten(chunks))
    decreases |chunks|
  {
    if chunks == [] {
      assert p.buffer + "" == p.buffer;
      NoCompleteLine(p.buffer);
    } else {
      ChunkingDoesNotMatter(parse, Feed(parse, p, chunks[0]), chunks[1..]);
      FeedTwice(parse, p, chunks[0], Flatten(chunks[1..]));
    }
  }

  /** From the start: one pass over the lines. */
  lemma OnePassOverTheLines(parse: Parse, chunks: seq<string>)
    ensures FeedAll(parse, START, chunks)
            == ProcessLines(parse, START, Complete(Flatten(chunks))).(buffer := Remainder(Flatten(chunks)))
  {
    ChunkingDoesNotMatter(parse, START, chunks);
    assert START.buffer + Flatten(chunks) == Flatten(chunks);
  }

  // ----- the callbacks spell the texts -----

  function ContentOf(callbacks: seq<Callback>): string {
    if callbacks == [] then ""
    else
      var last := callbacks[|callbacks| - 1];
      ContentOf(callbacks[..|callbacks| - 1]) + if last.OnContent? then last.piece else ""
  }

  function ReasoningOf(callbacks: seq<Callback>): string {
    if callbacks == [] then ""
    else
      var last := callbacks[|callbacks| - 1];
      ReasoningOf(callbacks[..|callbacks| - 1]) + if last.OnReasoning? then last.piece else ""
  }

  predicate Faithful(p: Parser) {
    p.content == ContentOf(p.callbacks) && p.reasoning == ReasoningOf(p.callbacks)
  }

  lemma LineFaithful(parse: Parse, p: Parser, line: string)
    requires Faithful(p)
    ensures Faithful(ProcessLine(parse, p, line))
  {
    var trimmed := Trim(line);
    if trimmed != "" && trimmed[0] != ':' && DATA <= trimmed && Trim(trimmed[|DATA|..]) != "[DONE]" {
      var chunk := parse(Trim(trimmed[|DATA|..]));
      if chunk.Some? {
        ChunkFaithful(p, chunk.value);
      }
    }
  }

  lemma ChunkFaithful(p: Parser, c: Chunk)
    requires Faithful(p)
    ensures Faithful(ProcessChunk(p, c))
  {
    var a := if c.usage.None? then p else WithUsage(p, c.usage.value);
    if c.choice.Some? && c.choice.value.delta.Some? {
      DeltaFaithful(a.(finishReason := GetOr(c.choice.value.finishReason, a.finishReason)), c.choice.value.delta.value);
    }
  }

  lemma DeltaFaithful(p: Parser, d: Delta)
    requires Faithful(p)
    ensures Faithful(WithDelta(p, d))
  {
    var c := if d.content.None? then p.callbacks else p.callbacks + [OnContent(d.content.value)];
    assert d.content.Some? ==> c[..|c| - 1] == p.callbacks;
    assert ContentOf(c) == p.content + GetOr(d.content, "") && ReasoningOf(c) == p.reasoning;
    var r := if d.reasoning.None? then c else c + [OnReasoning(d.reasoning.value)];
    assert d.reasoning.Some? ==> r[..|r| - 1] == c;
    assert ContentOf(r) == ContentOf(c) && ReasoningOf(r) == ReasoningOf(c) + GetOr(d.reasoning, "");
  }

  /** At any moment the texts are exactly what the callbacks have been told, in order, for any stream. */
  lemma {:induction false} CallbacksSpellTheTexts(parse: Parse, p: Parser, lines: seq<string>)
    requires Faithful(p)
    ensures Faithful(ProcessLines(parse, p, lines))
    decreases |lines|
  {
    if lines != [] {
      LineFaithful(parse, p, lines[0]);
      CallbacksSpellTheTexts(parse, ProcessLine(parse, p, lines[0]), lines[1..]);
    }
  }

  // ----- tool calls -----

  predicate Ascending(keys: seq<int>) {
    forall i, j :: 0 <= i < j < |keys| ==> keys[i] < keys[j]
  }

  /** The calls of `tools`, by strictly ascending index. */
  ghost predicate Listing(tools: Calls, keys: seq<int>, out: seq<ToolCall>) {
    && Ascending(keys)
    && (forall k :: k in keys <==> k in tools)
    && |out| == |keys|
    && forall i :: 0 <= i < |keys| ==> keys[i] in tools && out[i] == tools[keys[i]]
  }

  predicate Least(s: set<int>, k: int) {
    k in s && forall j :: j in s ==> k <= j
  }

  lemma Inhabited(s: set<int>)
    ensures s == {} || exists x :: x in s
  {
    if forall x :: x !in s {
      assert s == {};
    }
  }

  lemma {:induction false} LeastExists(s: set<int>)
    requires exists x :: x in s
    ensures exists k :: Least(s, k)
    decreases s
  {
    var x :| x in s;
    var below := s - {x};
    assert forall j :: j in s ==> j == x || j in below;
    if exists y :: y in below {
      LeastExists(below);
      var k :| Least(below, k);
      assert Least(s, if x < k then x else k);
    } else {
      assert Least(s, x);
    }
  }

  /** There is only one such list. */
  lemma {:induction false} AscendingIsUnique(a: seq<int>, b: seq<int>)
    requires Ascending(a) && Ascending(b) && forall k :: k in a <==> k in b
    ensures a == b
    decreases |a|
  {
    if a == [] {
      assert forall i :: 0 <= i < |b| ==> b[i] in a;
    } else {
      assert a[0] in b && b != [];
      assert b[0] in a && a[0] == b[0];
      var x, y := a[1..], b[1..];
      forall k
        ensures k in x <==> k in y
      {
        assert k in x ==> k in a && k != a[0];
        assert k in y ==> k in b && k != b[0];
        assert k in a ==> k == a[0] || k in x;
        assert k in b ==> k == b[0] || k in y;
      }
      AscendingIsUnique(x, y);
    }
  }

  /** So the result does not depend on how the map is walked. */
  lemma ListingIsUnique(tools: Calls, keys: seq<int>, out: seq<ToolCall>, otherKeys: seq<int>, other: seq<ToolCall>)
    requires Listing(tools, keys, out) && Listing(tools, otherKeys, other)
    ensures keys == otherKeys && out == other
  {
    AscendingIsUnique(keys, otherKeys);
  }
}
