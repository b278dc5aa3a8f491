/** Every event on screen, and what the user sees of the reasoning and of the tools (src/app/App.cpp). */
module ScreenEntries {
  import opened Options
  import opened Screens

  // ----- one event -----

  /** The chat with more text in entry `i`, or in a new last entry; all other entries stay. */
  predicate Extended(before: seq<Entry>, after: seq<Entry>, i: nat, speaker: Speaker, text: string) {
    if i == |before| then after == before + [Entry(speaker, text)]
    else
      && i < |before| && |after| == |before|
      && after[i] == Entry(before[i].speaker, before[i].text + text)
      && forall j :: 0 <= j < |before| && j != i ==> after[j] == before[j]
  }

  /**
    Answer text goes to the open answer, or opens one; reasoning goes to the turn's one thought, or starts it; tool
    calls and results are entries of their own and close the answer.
   */
  lemma EventsAreShown(s: Screen, mark: nat, e: Event)
    requires ScreenOk(s, mark)
    ensures var t := Display(s, e);
            match e
            case Delta(text) =>
              var i := GetOr(s.content, |s.chat|);
              Extended(s.chat, t.chat, i, Assistant, text) && t.content == Some(i) && t.thinking == s.thinking
            case Reasoning(text) =>
              var i := GetOr(s.thinking, |s.chat|);
              Extended(s.chat, t.chat, i, Thinker, text) && t.thinking == Some(i) && t.content == s.content
            case ToolInfo(text) => t == Screen(s.chat + [Entry(Aside, text)], s.thinking, None)
            case ToolResult(header, text) => t == Screen(s.chat + [Entry(Tool(header), text)], s.thinking, None)
            case _ => t == s
  {
    match e {
      case Delta(text) => DeltaIsShown(s, mark, text);
      case Reasoning(text) => ReasoningIsShown(s, mark, text);
      case _ =>
    }
  }

  lemma DeltaIsShown(s: Screen, mark: nat, text: string)
    requires ScreenOk(s, mark)
    ensures var i, t := GetOr(s.content, |s.chat|), DisplayDelta(s, text);
            Extended(s.chat, t.chat, i, Assistant, text) && t.content == Some(i) && t.thinking == s.thinking
  {
    assert "" + text == text;
  }

  lemma ReasoningIsShown(s: Screen, mark: nat, text: string)
    requires ScreenOk(s, mark)
    ensures var i, t := GetOr(s.thinking, |s.chat|), DisplayReasoning(s, text);
            Extended(s.chat, t.chat, i, Thinker, text) && t.thinking == Some(i) && t.content == s.content
  {
    assert "" + text == text;
  }

  // ----- the thought of a turn -----

  /** The turn's entries from `mark` on show `thought` in one entry, or no thought at all. */
  predicate ShowsThought(s: Screen, mark: nat, thought: Option<string>) {
    && (forall j :: mark <= j < |s.chat| && s.chat[j].speaker == Thinker ==> s.thinking == Some(j))
    && match s.thinking
       case None => thought == None
       case Some(i) => mark <= i < |s.chat| && thought.Some? && s.chat[i] == Entry(Thinker, thought.value)
  }

  function Think(thought: Option<string>, e: Event): Option<string> {
    if e.Reasoning? then Some(GetOr(thought, "") + e.text) else thought
  }

  function ThinkAll(thought: Option<string>, queue: seq<Posted>): Option<string> {
    if queue == [] then thought else Think(ThinkAll(thought, queue[..|queue| - 1]), queue[|queue| - 1].event)
  }

  lemma DisplayThinks(s: Screen, mark: nat, e: Event, thought: Option<string>)
    requires ScreenOk(s, mark) && ShowsThought(s, mark, thought)
    ensures ShowsThought(Display(s, e), mark, Think(thought, e))
  {
    hide Display;
    EventsAreShown(s, mark, e);
    assert e.Reasoning? ==> "" + e.text == e.text;
  }

  lemma ThinkPosted(thought: Option<string>, queue: seq<Posted>, e: Posted)
    ensures ThinkAll(thought, queue + [e]) == Think(ThinkAll(thought, queue), e.event)
  {
    assert (queue + [e])[..|queue|] == queue;
  }

  lemma {:induction false} ThinkPopped(thought: Option<string>, queue: seq<Posted>)
    requires queue != []
    ensures ThinkAll(thought, queue) == ThinkAll(Think(thought, queue[0].event), queue[1..])
    decreases |queue|
  {
    hide Think;
    var n := |queue| - 1;
    if n == 0 {
      assert queue[1..] == [] && queue[..0] == [];
    } else {
      ThinkPopped(thought, queue[..n]);
      assert queue[..n][1..] == queue[1..][..n - 1];
    }
  }

  // ----- the tool results of a turn -----

  /** The texts of the tool results, in order. */
  function ResultsOf(chat: seq<Entry>): seq<string> {
    if chat == [] then []
    else
      var front, last := chat[..|chat| - 1], chat[|chat| - 1];
      if last.speaker.Tool? then ResultsOf(front) + [last.text] else ResultsOf(front)
  }

  function Results(results: seq<string>, e: Event): seq<string> {
    if e.ToolResult? then results + [e.text] else results
  }

  function ResultsAll(results: seq<string>, queue: seq<Posted>): seq<string> {
    if queue == [] then results else Results(ResultsAll(results, queue[..|queue| - 1]), queue[|queue| - 1].event)
  }

  lemma ResultsSnoc(chat: seq<Entry>, e: Entry)
    ensures ResultsOf(chat + [e]) == if e.speaker.Tool? then ResultsOf(chat) + [e.text] else ResultsOf(chat)
  {
    assert (chat + [e])[..|chat|] == chat;
  }

  /** More text in an entry that is no tool result. */
  lemma {:induction false} ResultsElsewhere(before: seq<Entry>, after: seq<Entry>, i: nat, speaker: Speaker, text: string)
    requires Extended(before, after, i, speaker, text) && !speaker.Tool?
    requires i < |before| ==> !before[i].speaker.Tool?
    ensures ResultsOf(after) == ResultsOf(before)
    decreases |before|
  {
    if i == |before| {
      ResultsSnoc(before, Entry(speaker, text));
    } else {
      var n := |before| - 1;
      if i == n {
        assert after[..n] == before[..n];
      } else {
        ResultsElsewhere(before[..n], after[..n], i, speaker, text);
      }
    }
  }

  lemma ExtendedBehind(before: seq<Entry>, after: seq<Entry>, i: nat, speaker: Speaker, text: string, mark: nat)
    requires Extended(before, after, i, speaker, text) && mark <= i
    ensures mark <= |before| && Extended(before[mark..], after[mark..], i - mark, speaker, text)
  {
  }

  lemma DisplayResults(s: Screen, mark: nat, e: Event)
    requires ScreenOk(s, mark)
    ensures mark <= |Display(s, e).chat|
    ensures ResultsOf(Display(s, e).chat[mark..]) == Results(ResultsOf(s.chat[mark..]), e)
  {
    hide Display, ResultsOf, Extended;
    EventsAreShown(s, mark, e);
    var chat, after := s.chat[mark..], Display(s, e).chat;
    match e {
      case Delta(text) =>
        var i := GetOr(s.content, |s.chat|);
        ExtendedBehind(s.chat, after, i, Assistant, text, mark);
        ResultsElsewhere(chat, after[mark..], i - mark, Assistant, text);
      case Reasoning(text) =>
        var i := GetOr(s.thinking, |s.chat|);
        ExtendedBehind(s.chat, after, i, Thinker, text, mark);
        ResultsElsewhere(chat, after[mark..], i - mark, Thinker, text);
      case ToolInfo(text) =>
        ResultsSnoc(chat, Entry(Aside, text));
        assert after[mark..] == chat + [Entry(Aside, text)];
      case ToolResult(header, text) =>
        ResultsSnoc(chat, Entry(Tool(header), text));
        assert after[mark..] == chat + [Entry(Tool(header), text)];
      case _ =>
    }
  }

  lemma ResultsPosted(results: seq<string>, queue: seq<Posted>, e: Posted)
    ensures ResultsAll(results, queue + [e]) == Results(ResultsAll(results, queue), e.event)
  {
    assert (queue + [e])[..|queue|] == queue;
  }

  lemma {:induction false} ResultsPopped(results: seq<string>, queue: seq<Posted>)
    requires queue != []
    ensures ResultsAll(results, queue) == ResultsAll(Results(results, queue[0].event), queue[1..])
    decreases |queue|
  {
    hide Results;
    var n := |queue| - 1;
    if n == 0 {
      assert queue[1..] == [] && queue[..0] == [];
    } else {
      ResultsPopped(results, queue[..n]);
      assert queue[..n][1..] == queue[1..][..n - 1];
    }
  }
}
