/** Tool calls put together from the fragments of a streamed reply (src/llm/ChatResponse.cpp). */
module ToolCallStreams {
  import opened Conversation
  import opened ChatResponse
  import opened ReplyStreams
  import opened Framing
  import opened Options

  // ----- one sequence of fragments -----

  /** The argument text of one index: its own fragments, in order. */
  function OwnArguments(fragments: seq<Fragment>, index: int): string {
    if fragments == [] then ""
    else
      var last := fragments[|fragments| - 1];
      OwnArguments(fragments[..|fragments| - 1], index) + if last.index == index then GetOr(last.arguments, "") else ""
  }

  /** The latest id an index was given. */
  function LatestId(fragments: seq<Fragment>, index: int): string {
    if fragments == [] then ""
    else
      var last := fragments[|fragments| - 1];
      if last.index == index && last.id.Some? then last.id.value else LatestId(fragments[..|fragments| - 1], index)
  }

  function LatestName(fragments: seq<Fragment>, index: int): string {
    if fragments == [] then ""
    else
      var last := fragments[|fragments| - 1];
      if last.index == index && last.name.Some? then last.name.value else LatestName(fragments[..|fragments| - 1], index)
  }

  predicate Occurs(fragments: seq<Fragment>, index: int) {
    exists k :: 0 <= k < |fragments| && fragments[k].index == index
  }

  lemma OccursSnoc(front: seq<Fragment>, last: Fragment, index: int)
    ensures Occurs(front + [last], index) <==> Occurs(front, index) || last.index == index
  {
    var all := front + [last];
    assert all[|front|] == last;
    assert forall k :: 0 <= k < |front| ==> all[k] == front[k];
  }

  /** What one more fragment adds. */
  lemma OneMoreFragment(front: seq<Fragment>, last: Fragment, index: int)
    ensures var mine := last.index == index;
            && LatestId(front + [last], index)
               == (if mine then GetOr(last.id, LatestId(front, index)) else LatestId(front, index))
            && LatestName(front + [last], index)
               == (if mine then GetOr(last.name, LatestName(front, index)) else LatestName(front, index))
            && OwnArguments(front + [last], index)
               == OwnArguments(front, index) + if mine then GetOr(last.arguments, "") else ""
  {
    assert (front + [last])[..|front|] == front;
  }

  lemma MergedOneMore(tools: Calls, front: seq<Fragment>, last: Fragment)
    ensures MergeAll(tools, front + [last]) == Merge(MergeAll(tools, front), last)
  {
    assert (front + [last])[..|front|] == front;
  }

  predicate Reassembled(tools: Calls, fragments: seq<Fragment>, index: int) {
    && (index in tools <==> Occurs(fragments, index))
    && var call := ToolCall(LatestId(fragments, index), LatestName(fragments, index), OwnArguments(fragments, index));
       if index in tools then tools[index] == call else call == ToolCall("", "", "")
  }

  /** Each index that occurs gets its latest id and name and the concatenation of its own arguments. */
  lemma {:induction false} Reassembly(fragments: seq<Fragment>, index: int)
    ensures Reassembled(MergeAll(map[], fragments), fragments, index)
    decreases |fragments|
  {
    if fragments != [] {
      hide MergeAll, LatestId, LatestName, OwnArguments, Occurs;
      var front, last := fragments[..|fragments| - 1], fragments[|fragments| - 1];
      Reassembly(front, index);
      assert front + [last] == fragments;
      OccursSnoc(front, last, index);
      OneMoreFragment(front, last, index);
      MergedOneMore(map[], front, last);
    }
  }

  lemma {:induction false} MergeAllConcat(tools: Calls, a: seq<Fragment>, b: seq<Fragment>)
    ensures MergeAll(tools, a + b) == MergeAll(MergeAll(tools, a), b)
    decreases |b|
  {
    if b == [] {
      assert a + b == a;
    } else {
      MergeAllConcat(tools, a, b[..|b| - 1]);
      assert (a + b)[..|a + b| - 1] == a + b[..|b| - 1];
    }
  }

  /** Fragments of different calls may arrive in either order. */
  lemma SwapFragments(tools: Calls, a: seq<Fragment>, f: Fragment, g: Fragment, b: seq<Fragment>)
    requires f.index != g.index
    ensures MergeAll(tools, a + [f, g] + b) == MergeAll(tools, a + [g, f] + b)
  {
    MergeAllConcat(tools, a + [f, g], b);
    MergeAllConcat(tools, a + [g, f], b);
    MergeAllConcat(tools, a, [f, g]);
    MergeAllConcat(tools, a, [g, f]);
    MergeTwo(MergeAll(tools, a), f, g);
    MergeTwo(MergeAll(tools, a), g, f);
    MergesCommute(MergeAll(tools, a), f, g);
  }

  lemma MergesCommute(tools: Calls, f: Fragment, g: Fragment)
    requires f.index != g.index
    ensures Merge(Merge(tools, f), g) == Merge(Merge(tools, g), f)
  {
    assert Merge(Merge(tools, f), g) == Merge(Merge(tools, g), f);
  }

  lemma MergeTwo(tools: Calls, f: Fragment, g: Fragment)
    ensures MergeAll(tools, [f, g]) == Merge(Merge(tools, f), g)
  {
    assert [f, g][..1] == [f];
    assert [f][..0] == [];
    assert MergeAll(tools, [f]) == Merge(tools, f);
  }

  // ----- the fragments of a stream -----

  function ChunkFragments(c: Chunk): seq<Fragment> {
    match DeltaOf(c) case Some(d) => d.fragments case None => []
  }

  /** The fragments one line carries, in order. */
  function LineFragments(parse: Parse, raw: string): seq<Fragment> {
    match ChunkOf(parse, raw)
    case Some(c) => ChunkFragments(c)
    case None => []
  }

  /** The fragments of all chunks of a stream, in order of arrival. */
  function FragmentsOf(parse: Parse, lines: seq<string>): seq<Fragment>
    decreases |lines|
  {
    if lines == [] then [] else LineFragments(parse, lines[0]) + FragmentsOf(parse, lines[1..])
  }

  lemma ChunkMerges(p: Parser, c: Chunk)
    ensures ProcessChunk(p, c).tools == MergeAll(p.tools, ChunkFragments(c))
  {
  }

  lemma LineMerges(parse: Parse, p: Parser, raw: string)
    ensures ProcessLine(parse, p, raw).tools == MergeAll(p.tools, LineFragments(parse, raw))
  {
    hide Trim, ProcessChunk;
    if ChunkOf(parse, raw).Some? {
      ChunkMerges(p, ChunkOf(parse, raw).value);
    } else {
      NothingMerged(p.tools);
    }
  }

  /** What the parser holds after any lines is the fold of all their fragments, across chunks. */
  lemma {:induction false} StreamMerges(parse: Parse, p: Parser, lines: seq<string>)
    ensures ProcessLines(parse, p, lines).tools == MergeAll(p.tools, FragmentsOf(parse, lines))
    decreases |lines|
  {
    hide ProcessLine, LineFragments, MergeAll;
    if lines == [] {
      NothingMerged(p.tools);
    } else {
      var next := ProcessLine(parse, p, lines[0]);
      LineMerges(parse, p, lines[0]);
      StreamMerges(parse, next, lines[1..]);
      MergeAllConcat(p.tools, LineFragments(parse, lines[0]), FragmentsOf(parse, lines[1..]));
    }
  }

  lemma NothingMerged(tools: Calls)
    ensures MergeAll(tools, []) == tools
  {
  }

  /** The fragments of a byte stream, however it is cut into feeds. */
  function StreamFragments(parse: Parse, chunks: seq<string>): seq<Fragment> {
    FragmentsOf(parse, Complete(Flatten(chunks)))
  }

  lemma ToolsOfStream(parse: Parse, chunks: seq<string>)
    ensures FeedAll(parse, START, chunks).tools == MergeAll(map[], StreamFragments(parse, chunks))
  {
    OnePassOverTheLines(parse, chunks);
    StreamMerges(parse, START, Complete(Flatten(chunks)));
  }

  /**
    For any stream, cut in any way, with the fragments of the calls interleaved in any way within and across chunks:
    the calls listed are those of the indices that occur, in strictly ascending order, each with its latest id and
    name and the concatenation of its own argument fragments.
   */
  lemma ToolCallsOfStream(parse: Parse, chunks: seq<string>, keys: seq<int>, out: seq<ToolCall>)
    requires Listing(FeedAll(parse, START, chunks).tools, keys, out)
    ensures var fragments := StreamFragments(parse, chunks);
            && Ascending(keys) && |out| == |keys|
            && (forall index :: index in keys <==> Occurs(fragments, index))
            && forall i :: 0 <= i < |out| ==>
                 out[i] == ToolCall(LatestId(fragments, keys[i]), LatestName(fragments, keys[i]),
                                    OwnArguments(fragments, keys[i]))
  {
    hide LatestId, LatestName, OwnArguments, MergeAll, FeedAll;
    var fragments := StreamFragments(parse, chunks);
    ToolsOfStream(parse, chunks);
    forall index
      ensures index in keys <==> Occurs(fragments, index)
    {
      Reassembly(fragments, index);
    }
    forall i | 0 <= i < |out|
      ensures out[i] == ToolCall(LatestId(fragments, keys[i]), LatestName(fragments, keys[i]),
                                 OwnArguments(fragments, keys[i]))
    {
      Reassembly(fragments, keys[i]);
    }
  }

  // ----- interleaving does not matter -----

  /** The fragments of one call, in order. */
  function Own(fragments: seq<Fragment>, index: int): seq<Fragment> {
    if fragments == [] then []
    else
      var front, last := fragments[..|fragments| - 1], fragments[|fragments| - 1];
      if last.index == index then Own(front, index) + [last] else Own(front, index)
  }

  lemma OwnOneMore(front: seq<Fragment>, last: Fragment, index: int)
    ensures Own(front + [last], index) == if last.index == index then Own(front, index) + [last] else Own(front, index)
  {
    assert (front + [last])[..|front|] == front;
  }

  predicate Decides(own: seq<Fragment>, fragments: seq<Fragment>, index: int) {
    && (Occurs(fragments, index) <==> own != [])
    && LatestId(own, index) == LatestId(fragments, index)
    && LatestName(own, index) == LatestName(fragments, index)
    && OwnArguments(own, index) == OwnArguments(fragments, index)
  }

  lemma {:induction false} OwnDecides(fragments: seq<Fragment>, index: int)
    ensures Decides(Own(fragments, index), fragments, index)
    decreases |fragments|
  {
    if fragments != [] {
      hide Own, LatestId, LatestName, OwnArguments, Occurs;
      var front, last := fragments[..|fragments| - 1], fragments[|fragments| - 1];
      OwnDecides(front, index);
      assert front + [last] == fragments;
      OccursSnoc(front, last, index);
      OneMoreFragment(front, last, index);
      OwnOneMore(front, last, index);
      OneMoreFragment(Own(front, index), last, index);
    }
  }

  /** Two streams that carry the same fragments for each call end in the same calls, however these are interleaved. */
  lemma InterleavingDoesNotMatter(parse: Parse, chunks: seq<string>, others: seq<string>)
    requires forall index :: Own(StreamFragments(parse, chunks), index) == Own(StreamFragments(parse, others), index)
    ensures FeedAll(parse, START, chunks).tools == FeedAll(parse, START, others).tools
  {
    hide MergeAll, FeedAll, Own, Occurs, LatestId, LatestName, OwnArguments;
    var a, b := StreamFragments(parse, chunks), StreamFragments(parse, others);
    ToolsOfStream(parse, chunks);
    ToolsOfStream(parse, others);
    var first, second := MergeAll(map[], a), MergeAll(map[], b);
    forall index
      ensures (index in first <==> index in second) && (index in first ==> first[index] == second[index])
    {
      SameCall(a, b, index);
    }
    assert first == second;
  }

  lemma SameCall(a: seq<Fragment>, b: seq<Fragment>, index: int)
    requires Own(a, index) == Own(b, index)
    ensures var first, second := MergeAll(map[], a), MergeAll(map[], b);
            (index in first <==> index in second) && (index in first ==> first[index] == second[index])
  {
    hide MergeAll, Own, LatestId, LatestName, OwnArguments;
    Reassembly(a, index);
    Reassembly(b, index);
    OwnDecides(a, index);
    OwnDecides(b, index);
  }

  /** In particular two adjacent fragments of different calls may be swapped, also when they are in different chunks. */
  lemma SwapInStream(parse: Parse, chunks: seq<string>, others: seq<string>, a: seq<Fragment>, f: Fragment, g: Fragment,
                     b: seq<Fragment>)
    requires f.index != g.index
    requires StreamFragments(parse, chunks) == a + [f, g] + b && StreamFragments(parse, others) == a + [g, f] + b
    ensures FeedAll(parse, START, chunks).tools == FeedAll(parse, START, others).tools
  {
    hide MergeAll, FeedAll;
    ToolsOfStream(parse, chunks);
    ToolsOfStream(parse, others);
    SwapFragments(map[], a, f, g, b);
  }
}
