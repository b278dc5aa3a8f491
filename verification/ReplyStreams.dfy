/** What a streamed reply carries, chunk by chunk; the parser collects exactly this (src/llm/ChatResponse.cpp). */
module ReplyStreams {
  import opened Options
  import opened Sequences
  import opened TextLines
  import opened Framing
  import opened ChatResponse

  // ----- the chunks of a stream -----

  predicate AllBlank(s: string) {
    forall i :: 0 <= i < |s| ==> IsBlank(s[i])
  }

  lemma Regroup(x: string, lead: string, t: string, tail: string, y: string)
    ensures x + (lead + t + tail) + y == (x + lead) + t + (tail + y)
  {
  }

  /** Trimming takes off blanks at both ends and nothing else. */
  lemma {:induction false} TrimCutsBlanks(s: string) returns (lead: string, tail: string)
    ensures s == lead + Trim(s) + tail && AllBlank(lead) && AllBlank(tail)
    decreases |s|
  {
    lead, tail := "", "";
    if s == "" {
    } else if IsBlank(s[0]) {
      lead, tail := TrimCutsBlanks(s[1..]);
      hide Trim;
      assert Trim(s) == Trim(s[1..]) by {
        TrimsFront(s);
      }
      assert s == [s[0]] + s[1..] + "";
      Regroup([s[0]], lead, Trim(s), tail, "");
      lead, tail := [s[0]] + lead, tail + "";
    } else if IsBlank(s[|s| - 1]) {
      var front := s[..|s| - 1];
      lead, tail := TrimCutsBlanks(front);
      TrimsBack(s);
      hide Trim;
      assert s == "" + front + [s[|s| - 1]];
      Regroup("", lead, Trim(s), tail, [s[|s| - 1]]);
      lead, tail := "" + lead, tail + [s[|s| - 1]];
    } else {
      assert s == "" + s + "";
    }
  }

  lemma TrimsFront(s: string)
    requires s != "" && IsBlank(s[0])
    ensures Trim(s) == Trim(s[1..])
  {
  }

  lemma TrimsBack(s: string)
    requires s != "" && !IsBlank(s[0]) && IsBlank(s[|s| - 1])
    ensures Trim(s) == Trim(s[..|s| - 1])
  {
  }

  /** The payload of a data line; comments, blank lines and other fields have none. */
  function Payload(raw: string): Option<string> {
    var line := Trim(raw);
    if line == "" || line[0] == ':' || !(DATA <= line) then None else Some(Trim(line[|DATA|..]))
  }

  predicate IsEnd(raw: string) {
    Payload(raw) == Some("[DONE]")
  }

  function ChunkOf(parse: Parse, raw: string): Option<Chunk> {
    if Payload(raw).None? || IsEnd(raw) then None else parse(Payload(raw).value)
  }

  /** The chunks on some lines, in order. */
  function ChunksOf(parse: Parse, lines: seq<string>): seq<Chunk>
    decreases |lines|
  {
    if lines == [] then []
    else (match ChunkOf(parse, lines[0]) case Some(c) => [c] case None => []) + ChunksOf(parse, lines[1..])
  }

  /** The chunks of a byte stream, however it is cut into feeds. */
  function StreamChunks(parse: Parse, bytes: seq<string>): seq<Chunk> {
    ChunksOf(parse, Complete(Flatten(bytes)))
  }

  // ----- what the chunks carry -----

  function DeltaOf(c: Chunk): Option<Delta> {
    match c
    case Chunk(_, Some(Choice(_, delta))) => delta
    case _ => None
  }

  function ContentIn(c: Chunk): Option<string> {
    match DeltaOf(c) case Some(d) => d.content case None => None
  }

  function ReasoningIn(c: Chunk): Option<string> {
    match DeltaOf(c) case Some(d) => d.reasoning case None => None
  }

  function FinishIn(c: Chunk): Option<string> {
    match c.choice case Some(choice) => choice.finishReason case None => None
  }

  function PromptIn(c: Chunk): Option<int> {
    match c.usage case Some(u) => u.prompt case None => None
  }

  function CompletionIn(c: Chunk): Option<int> {
    match c.usage case Some(u) => u.completion case None => None
  }

  function TotalIn(c: Chunk): Option<int> {
    match c.usage case Some(u) => u.total case None => None
  }

  /** The pieces of text that `get` finds, put together. */
  function AllText(chunks: seq<Chunk>, get: Chunk -> Option<string>): string {
    if chunks == [] then "" else GetOr(get(chunks[0]), "") + AllText(chunks[1..], get)
  }

  /** The last value that `get` finds, or `before`. */
  function LastFound<T>(before: T, chunks: seq<Chunk>, get: Chunk -> Option<T>): T {
    if chunks == [] then before else LastFound(GetOr(get(chunks[0]), before), chunks[1..], get)
  }

  /** What the callbacks are told of one chunk: the answer text first. */
  function ToldOf(c: Chunk): seq<Callback> {
    (match ContentIn(c) case Some(text) => [OnContent(text)] case None => [])
    + (match ReasoningIn(c) case Some(text) => [OnReasoning(text)] case None => [])
  }

  function Told(chunks: seq<Chunk>): seq<Callback> {
    if chunks == [] then [] else ToldOf(chunks[0]) + Told(chunks[1..])
  }

  /** `q` is what `p` becomes by reading these chunks. */
  predicate Collected(p: Parser, chunks: seq<Chunk>, q: Parser) {
    && q.content == p.content + AllText(chunks, ContentIn)
    && q.reasoning == p.reasoning + AllText(chunks, ReasoningIn)
    && q.callbacks == p.callbacks + Told(chunks)
    && q.finishReason == LastFound(p.finishReason, chunks, FinishIn)
    && q.promptTokens == LastFound(p.promptTokens, chunks, PromptIn)
    && q.completionTokens == LastFound(p.completionTokens, chunks, CompletionIn)
    && q.totalTokens == LastFound(p.totalTokens, chunks, TotalIn)
  }

  lemma NoChunk(p: Parser, q: Parser)
    requires q == p || q == p.(done := true)
    ensures Collected(p, [], q)
  {
    hide MergeAll;
    assert p.content + "" == p.content && p.reasoning + "" == p.reasoning && p.callbacks + [] == p.callbacks;
  }

  lemma OfOne<T>(c: Chunk, get: Chunk -> Option<string>, before: T, latest: Chunk -> Option<T>)
    ensures AllText([c], get) == GetOr(get(c), "") && LastFound(before, [c], latest) == GetOr(latest(c), before)
  {
    assert [c][1..] == [];
    assert LastFound(before, [c], latest) == LastFound(GetOr(latest(c), before), [], latest);
  }

  lemma ToldOfOne(c: Chunk)
    ensures Told([c]) == ToldOf(c)
  {
    assert [c][1..] == [];
  }

  lemma OneChunk(p: Parser, c: Chunk)
    ensures Collected(p, [c], ProcessChunk(p, c)) && ProcessChunk(p, c).done == p.done
  {
    hide MergeAll, AllText, LastFound, Told;
    OfOne(c, ContentIn, p.finishReason, FinishIn);
    OfOne(c, ReasoningIn, p.promptTokens, PromptIn);
    OfOne(c, ReasoningIn, p.completionTokens, CompletionIn);
    OfOne(c, ReasoningIn, p.totalTokens, TotalIn);
    ToldOfOne(c);
    assert p.content + "" == p.content && p.reasoning + "" == p.reasoning;
  }

  lemma OneLine(parse: Parse, raw: string)
    ensures ChunksOf(parse, [raw]) == match ChunkOf(parse, raw) case Some(c) => [c] case None => []
  {
    assert [raw][1..] == [];
  }

  lemma LineCollects(parse: Parse, p: Parser, raw: string)
    ensures Collected(p, ChunksOf(parse, [raw]), ProcessLine(parse, p, raw))
    ensures ProcessLine(parse, p, raw).done <==> p.done || IsEnd(raw)
  {
    hide Collected, ProcessChunk, ChunksOf;
    OneLine(parse, raw);
    if ChunkOf(parse, raw).Some? {
      OneChunk(p, ChunkOf(parse, raw).value);
    } else {
      NoChunk(p, ProcessLine(parse, p, raw));
    }
  }

  // ----- whole streams -----

  lemma {:induction false} ChunksConcat(parse: Parse, a: seq<string>, b: seq<string>)
    ensures ChunksOf(parse, a + b) == ChunksOf(parse, a) + ChunksOf(parse, b)
    decreases |a|
  {
    hide ChunkOf;
    if a == [] {
      assert a + b == b;
    } else {
      ChunksConcat(parse, a[1..], b);
      assert (a + b)[0] == a[0] && (a + b)[1..] == a[1..] + b;
    }
  }

  lemma {:induction false} AllTextConcat(a: seq<Chunk>, b: seq<Chunk>, get: Chunk -> Option<string>)
    ensures AllText(a + b, get) == AllText(a, get) + AllText(b, get)
    decreases |a|
  {
    if a == [] {
      assert a + b == b;
    } else {
      AllTextConcat(a[1..], b, get);
      assert (a + b)[0] == a[0] && (a + b)[1..] == a[1..] + b;
      Assoc(GetOr(get(a[0]), ""), AllText(a[1..], get), AllText(b, get));
    }
  }

  lemma {:induction false} LastFoundConcat<T>(before: T, a: seq<Chunk>, b: seq<Chunk>, get: Chunk -> Option<T>)
    ensures LastFound(before, a + b, get) == LastFound(LastFound(before, a, get), b, get)
    decreases |a|
  {
    if a == [] {
      assert a + b == b;
    } else {
      LastFoundConcat(GetOr(get(a[0]), before), a[1..], b, get);
      assert (a + b)[1..] == a[1..] + b;
    }
  }

  lemma {:induction false} ToldConcat(a: seq<Chunk>, b: seq<Chunk>)
    ensures Told(a + b) == Told(a) + Told(b)
    decreases |a|
  {
    hide ToldOf;
    if a == [] {
      assert a + b == b;
    } else {
      ToldConcat(a[1..], b);
      assert (a + b)[0] == a[0] && (a + b)[1..] == a[1..] + b;
      Assoc(ToldOf(a[0]), Told(a[1..]), Told(b));
    }
  }

  lemma CollectedTrans(p: Parser, a: seq<Chunk>, q: Parser, b: seq<Chunk>, r: Parser)
    requires Collected(p, a, q) && Collected(q, b, r)
    ensures Collected(p, a + b, r)
  {
    hide AllText, LastFound, Told;
    AllTextConcat(a, b, ContentIn);
    AllTextConcat(a, b, ReasoningIn);
    ToldConcat(a, b);
    LastFoundConcat(p.finishReason, a, b, FinishIn);
    LastFoundConcat(p.promptTokens, a, b, PromptIn);
    LastFoundConcat(p.completionTokens, a, b, CompletionIn);
    LastFoundConcat(p.totalTokens, a, b, TotalIn);
  }

  lemma {:induction false} LinesCollect(parse: Parse, p: Parser, lines: seq<string>)
    ensures Collected(p, ChunksOf(parse, lines), ProcessLines(parse, p, lines))
    ensures ProcessLines(parse, p, lines).done <==> p.done || exists i :: 0 <= i < |lines| && IsEnd(lines[i])
    decreases |lines|
  {
    hide Collected, ProcessLine, ChunksOf, IsEnd;
    if lines == [] {
      NothingCollected(parse, p);
    } else {
      var q := ProcessLine(parse, p, lines[0]);
      LineCollects(parse, p, lines[0]);
      LinesCollect(parse, q, lines[1..]);
      CollectedTrans(p, ChunksOf(parse, [lines[0]]), q, ChunksOf(parse, lines[1..]), ProcessLines(parse, p, lines));
      ChunksConcat(parse, [lines[0]], lines[1..]);
      assert [lines[0]] + lines[1..] == lines;
      assert forall i :: 1 <= i < |lines| ==> lines[i] == lines[1..][i - 1];
    }
  }

  lemma NothingCollected(parse: Parse, p: Parser)
    ensures Collected(p, ChunksOf(parse, []), p)
  {
    NoChunk(p, p);
  }

  /**
    Of any stream, cut in any way: the answer and the reasoning are the pieces that its chunks carry as such, in order;
    the callbacks are told these pieces, each as what it is; the finish reason and the token counts are the last ones
    reported; and the stream is done once an end marker has come.
   */
  lemma StreamCollects(parse: Parse, bytes: seq<string>)
    ensures var chunks, q := StreamChunks(parse, bytes), FeedAll(parse, START, bytes);
            && q.content == AllText(chunks, ContentIn) && q.reasoning == AllText(chunks, ReasoningIn)
            && q.callbacks == Told(chunks)
            && q.finishReason == LastFound("", chunks, FinishIn)
            && q.promptTokens == LastFound(0, chunks, PromptIn)
            && q.completionTokens == LastFound(0, chunks, CompletionIn)
            && q.totalTokens == LastFound(0, chunks, TotalIn)
    ensures var lines := Complete(Flatten(bytes));
            FeedAll(parse, START, bytes).done <==> exists i :: 0 <= i < |lines| && IsEnd(lines[i])
  {
    hide ProcessLines, ChunksOf, AllText, LastFound, Told, FeedAll;
    OnePassOverTheLines(parse, bytes);
    LinesCollect(parse, START, Complete(Flatten(bytes)));
    var chunks := StreamChunks(parse, bytes);
    assert "" + AllText(chunks, ContentIn) == AllText(chunks, ContentIn);
    assert "" + AllText(chunks, ReasoningIn) == AllText(chunks, ReasoningIn);
    assert [] + Told(chunks) == Told(chunks);
  }
}
