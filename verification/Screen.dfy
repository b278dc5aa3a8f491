/** The chat view as the event loop writes to it (src/ui/ChatView.cpp, src/app/App.cpp). */
module Screens {
  import opened Options

  datatype Speaker = You | Assistant | Thinker | Tool(header: string) | Aside | Failure

  datatype Entry = Entry(speaker: Speaker, text: string)

  /** How a turn ends. */
  datatype Ending = Completed | Cancelled | Broken(error: string)

  /** What the worker thread tells the UI thread. */
  datatype Event =
    | Delta(text: string)
    | Reasoning(text: string)
    | ToolInfo(text: string)
    | ToolResult(header: string, text: string)
    | ConfirmRequest(tool: string, details: string)
    | Terminal(end: Ending)

  /** Events that only add to the chat. */
  predicate IsStream(e: Event) {
    e.Delta? || e.Reasoning? || e.ToolInfo? || e.ToolResult?
  }

  /** The chat entries, and the ones that reasoning and answer text are currently appended to. */
  datatype Screen = Screen(chat: seq<Entry>, thinking: Option<nat>, content: Option<nat>)

  function Add(s: Screen, speaker: Speaker, text: string): Screen {
    s.(chat := s.chat + [Entry(speaker, text)])
  }

  function AppendTo(chat: seq<Entry>, i: nat, text: string): seq<Entry> {
    if i >= |chat| then chat else chat[i := chat[i].(text := chat[i].text + text)]
  }

  function DisplayReasoning(s: Screen, text: string): Screen {
    var a := if s.thinking.None? then Add(s, Thinker, "").(thinking := Some(|s.chat|)) else s;
    a.(chat := AppendTo(a.chat, a.thinking.value, text))
  }

  function DisplayDelta(s: Screen, text: string): Screen {
    var a := if s.content.None? then Add(s, Assistant, "").(content := Some(|s.chat|)) else s;
    a.(chat := AppendTo(a.chat, a.content.value, text))
  }

  function Display(s: Screen, e: Event): Screen {
    match e
    case Reasoning(text) => DisplayReasoning(s, text)
    case Delta(text) => DisplayDelta(s, text)
    case ToolInfo(text) => Add(s, Aside, text).(content := None)
    case ToolResult(header, text) => Add(s, Tool(header), text).(content := None)
    case _ => s
  }

  // ----- what the user sees of the answers -----

  /** The texts of the answer entries, in order. */
  function AnswersOf(chat: seq<Entry>): seq<string> {
    if chat == [] then []
    else
      var front, last := chat[..|chat| - 1], chat[|chat| - 1];
      if last.speaker == Assistant then AnswersOf(front) + [last.text] else AnswersOf(front)
  }

  /** The answers of a turn, and whether more text would still go to the last of them. */
  datatype View = View(texts: seq<string>, open: bool)

  function ExtendLast(texts: seq<string>, text: string): seq<string>
    requires texts != []
  {
    texts[..|texts| - 1] + [texts[|texts| - 1] + text]
  }

  function Show(v: View, e: Event): View {
    match e
    case Delta(text) =>
      if v.open && v.texts != [] then v.(texts := ExtendLast(v.texts, text)) else View(v.texts + [text], true)
    case ToolInfo(_) => v.(open := false)
    case ToolResult(_, _) => v.(open := false)
    case _ => v
  }

  /** The turn's answers on screen, where `mark` is the first entry behind the user's. */
  function ViewOf(s: Screen, mark: nat): View
    requires mark <= |s.chat|
  {
    View(AnswersOf(s.chat[mark..]), s.content.Some?)
  }

  /** The indices point to entries of this turn, of the right kind; the open answer is the last one. */
  ghost predicate ScreenOk(s: Screen, mark: nat) {
    && mark <= |s.chat|
    && (s.thinking.Some? ==> mark <= s.thinking.value < |s.chat| && s.chat[s.thinking.value].speaker == Thinker)
    && (s.content.Some? ==> mark <= s.content.value < |s.chat| && LastAnswer(s.chat, s.content.value))
  }

  ghost predicate LastAnswer(chat: seq<Entry>, i: nat) {
    i < |chat| && chat[i].speaker == Assistant && forall j :: i < j < |chat| ==> chat[j].speaker != Assistant
  }

  lemma AnswersOfSnoc(chat: seq<Entry>, e: Entry)
    ensures AnswersOf(chat + [e]) == if e.speaker == Assistant then AnswersOf(chat) + [e.text] else AnswersOf(chat)
  {
    assert (chat + [e])[..|chat|] == chat;
  }

  lemma {:induction false} AppendToLastAnswer(chat: seq<Entry>, i: nat, text: string)
    requires LastAnswer(chat, i)
    ensures AnswersOf(chat) != [] && AnswersOf(AppendTo(chat, i, text)) == ExtendLast(AnswersOf(chat), text)
    decreases |chat|
  {
    var n := |chat| - 1;
    var front := chat[..n];
    if i == n {
      assert AppendTo(chat, i, text)[..n] == front;
    } else {
      AppendToLastAnswer(front, i, text);
      assert AppendTo(chat, i, text)[..n] == AppendTo(front, i, text);
    }
  }

  lemma {:induction false} AppendElsewhere(chat: seq<Entry>, i: nat, text: string)
    requires i < |chat| && chat[i].speaker != Assistant
    ensures AnswersOf(AppendTo(chat, i, text)) == AnswersOf(chat)
    decreases |chat|
  {
    var n := |chat| - 1;
    if i == n {
      assert AppendTo(chat, i, text)[..n] == chat[..n];
    } else {
      AppendElsewhere(chat[..n], i, text);
      assert AppendTo(chat, i, text)[..n] == AppendTo(chat[..n], i, text);
    }
  }

  /** An entry that is no answer changes nothing. */
  lemma AddKeepsView(s: Screen, mark: nat, speaker: Speaker, text: string)
    requires ScreenOk(s, mark) && speaker != Assistant
    ensures ScreenOk(Add(s, speaker, text), mark) && ViewOf(Add(s, speaker, text), mark) == ViewOf(s, mark)
  {
    AnswersOfSnoc(s.chat[mark..], Entry(speaker, text));
    assert Add(s, speaker, text).chat[mark..] == s.chat[mark..] + [Entry(speaker, text)];
  }

  lemma ReasoningShows(s: Screen, mark: nat, text: string)
    requires ScreenOk(s, mark)
    ensures ScreenOk(DisplayReasoning(s, text), mark)
    ensures ViewOf(DisplayReasoning(s, text), mark) == ViewOf(s, mark)
  {
    hide AnswersOf;
    var a := if s.thinking.None? then Add(s, Thinker, "").(thinking := Some(|s.chat|)) else s;
    AddKeepsView(s, mark, Thinker, "");
    var i := a.thinking.value;
    AppendElsewhere(a.chat[mark..], i - mark, text);
    assert AppendTo(a.chat, i, text)[mark..] == AppendTo(a.chat[mark..], i - mark, text);
  }

  lemma DeltaShows(s: Screen, mark: nat, text: string)
    requires ScreenOk(s, mark)
    ensures ScreenOk(DisplayDelta(s, text), mark)
    ensures ViewOf(DisplayDelta(s, text), mark) == Show(ViewOf(s, mark), Delta(text))
  {
    hide AnswersOf, ExtendLast;
    var a := if s.content.None? then Add(s, Assistant, "").(content := Some(|s.chat|)) else s;
    if s.content.None? {
      AnswersOfSnoc(s.chat[mark..], Entry(Assistant, ""));
      assert a.chat[mark..] == s.chat[mark..] + [Entry(Assistant, "")];
      ExtendEmpty(AnswersOf(s.chat[mark..]), text);
    }
    AppendShows(a, mark, text);
  }

  lemma ExtendEmpty(texts: seq<string>, text: string)
    ensures ExtendLast(texts + [""], text) == texts + [text]
  {
    assert (texts + [""])[..|texts|] == texts && "" + text == text;
  }

  lemma AppendShows(a: Screen, mark: nat, text: string)
    requires ScreenOk(a, mark) && a.content.Some?
    ensures var t := a.(chat := AppendTo(a.chat, a.content.value, text));
            && ScreenOk(t, mark)
            && AnswersOf(a.chat[mark..]) != []
            && ViewOf(t, mark) == View(ExtendLast(AnswersOf(a.chat[mark..]), text), true)
  {
    hide AnswersOf, ExtendLast;
    var i := a.content.value;
    assert LastAnswer(a.chat[mark..], i - mark);
    AppendToLastAnswer(a.chat[mark..], i - mark, text);
    assert AppendTo(a.chat, i, text)[mark..] == AppendTo(a.chat[mark..], i - mark, text);
  }

  /** What an event does to the chat entries is what it does to the turn's answers. */
  lemma DisplayShows(s: Screen, mark: nat, e: Event)
    requires ScreenOk(s, mark)
    ensures ScreenOk(Display(s, e), mark)
    ensures ViewOf(Display(s, e), mark) == Show(ViewOf(s, mark), e)
  {
    match e {
      case Reasoning(text) => ReasoningShows(s, mark, text);
      case Delta(text) => DeltaShows(s, mark, text);
      case ToolInfo(text) => AddKeepsView(s, mark, Aside, text);
      case ToolResult(header, text) => AddKeepsView(s, mark, Tool(header), text);
      case _ =>
    }
  }

  // ----- queued events -----

  /** An event and the turn that posted it. */
  datatype Posted = Posted(turn: nat, event: Event)

  /** The answers once all of `queue` has been displayed. */
  function ShowAll(v: View, queue: seq<Posted>): View {
    if queue == [] then v else Show(ShowAll(v, queue[..|queue| - 1]), queue[|queue| - 1].event)
  }

  lemma ShowPosted(v: View, queue: seq<Posted>, e: Posted)
    ensures ShowAll(v, queue + [e]) == Show(ShowAll(v, queue), e.event)
  {
    assert (queue + [e])[..|queue|] == queue;
  }

  /** Displaying the first event now or later makes no difference. */
  lemma {:induction false} ShowPopped(v: View, queue: seq<Posted>)
    requires queue != []
    ensures ShowAll(v, queue) == ShowAll(Show(v, queue[0].event), queue[1..])
    decreases |queue|
  {
    hide Show;
    var n := |queue| - 1;
    if n == 0 {
      assert queue[1..] == [] && queue[..0] == [];
    } else {
      ShowPopped(v, queue[..n]);
      assert queue[..n][1..] == queue[1..][..n - 1];
    }
  }
}
