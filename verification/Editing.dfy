/** The prompt line editor of src/ui/InputBar.cpp as a function of its buffer and cursor. */
module Editing {
  import opened Options
  import opened Utf8

  /** The buffer and the byte index of the cursor. */
  datatype Editor = Editor(buffer: seq<byte>, cursor: nat)

  const EMPTY := Editor([], 0)

  // ncurses key codes
  const KEY_DOWN := 258
  const KEY_UP := 259
  const KEY_LEFT := 260
  const KEY_RIGHT := 261
  const KEY_HOME := 262
  const KEY_BACKSPACE := 263
  const KEY_DC := 330
  const KEY_ENTER := 343
  const KEY_END := 360

  predicate Valid(e: Editor) {
    e.cursor <= |e.buffer|
  }

  /** Well-formed text with the cursor between two characters. */
  predicate Good(e: Editor) {
    Boundary(e.buffer, e.cursor)
  }

  // ----- logical lines -----

  /** Start of the logical line that holds `pos`. */
  function LineStart(s: seq<byte>, pos: nat): (r: nat)
    requires pos <= |s|
    ensures r <= pos && (r == 0 || s[r - 1] == NEWLINE)
    ensures forall k :: r <= k < pos ==> s[k] != NEWLINE
  {
    if pos == 0 || s[pos - 1] == NEWLINE then pos else LineStart(s, pos - 1)
  }

  /** End of the logical line that holds `pos`: the next newline, or the end of the buffer. */
  function LineEnd(s: seq<byte>, pos: nat): (r: nat)
    requires pos <= |s|
    ensures pos <= r <= |s| && (r == |s| || s[r] == NEWLINE)
    ensures forall k :: pos <= k < r ==> s[k] != NEWLINE
    decreases |s| - pos
  {
    if pos == |s| || s[pos] == NEWLINE then pos else LineEnd(s, pos + 1)
  }

  /** Code points between the start of the line and `pos`. */
  function Column(s: seq<byte>, pos: nat): nat
    requires pos <= |s|
  {
    Count(s[LineStart(s, pos)..pos])
  }

  /** The number of newlines before `pos`: which logical line it is on. */
  function LineNumber(s: seq<byte>, pos: nat): nat
    requires pos <= |s|
  {
    if pos == 0 then 0 else LineNumber(s, pos - 1) + if s[pos - 1] == NEWLINE then 1 else 0
  }

  // ----- the operations -----

  /** Walks up to `k` code points forward from `p`, stopping at `end`. */
  function Walk(s: seq<byte>, p: nat, end: nat, k: nat): (r: nat)
    requires p <= |s| && end <= |s|
    ensures r <= |s|
    decreases k
  {
    if k == 0 || p >= end then p else Walk(s, Next(s, p), end, k - 1)
  }

  /** The cursor after moving up: the old column on the line above, clamped to its end. */
  function UpTarget(s: seq<byte>, pos: nat): (r: nat)
    requires pos <= |s|
    ensures r <= |s|
  {
    var ls := LineStart(s, pos);
    if ls == 0 then pos else Walk(s, LineStart(s, ls - 1), ls - 1, Column(s, pos))
  }

  /** The cursor after moving down. */
  function DownTarget(s: seq<byte>, pos: nat): (r: nat)
    requires pos <= |s|
    ensures r <= |s|
  {
    var le := LineEnd(s, pos);
    if le == |s| then pos else Walk(s, le + 1, LineEnd(s, le + 1), Column(s, pos))
  }

  function Insert(e: Editor, text: seq<byte>): (r: Editor)
    requires Valid(e)
    ensures Valid(r)
  {
    Editor(e.buffer[..e.cursor] + text + e.buffer[e.cursor..], e.cursor + |text|)
  }

  /** Removes the bytes from `p` to `q` and puts the cursor there. */
  function Erase(e: Editor, p: nat, q: nat): (r: Editor)
    requires p <= q <= |e.buffer|
    ensures Valid(r)
  {
    Editor(e.buffer[..p] + e.buffer[q..], p)
  }

  /** Where a motion key puts the cursor; other keys do not move it without editing. */
  function Target(s: seq<byte>, pos: nat, ch: int): (r: nat)
    requires pos <= |s|
    ensures r <= |s|
  {
    if ch == KEY_LEFT then Prev(s, pos)
    else if ch == KEY_RIGHT then Next(s, pos)
    else if ch == KEY_HOME then LineStart(s, pos)
    else if ch == KEY_END then LineEnd(s, pos)
    else if ch == KEY_UP then UpTarget(s, pos)
    else if ch == KEY_DOWN then DownTarget(s, pos)
    else pos
  }

  /** One key: the editor afterwards, and the submitted text if the key was Enter. */
  function Press(e: Editor, ch: int): (r: (Editor, Option<seq<byte>>))
    requires Valid(e)
    ensures Valid(r.0)
  {
    if ch == 10 || ch == 13 || ch == KEY_ENTER then (EMPTY, Some(e.buffer))
    else if ch == KEY_BACKSPACE || ch == 127 || ch == 8 then
      (if e.cursor > 0 then Erase(e, Prev(e.buffer, e.cursor), e.cursor) else e, None)
    else if ch == KEY_DC then
      (if e.cursor < |e.buffer| then Erase(e, e.cursor, Next(e.buffer, e.cursor)) else e, None)
    else if 32 <= ch < 127 then (Insert(e, [ch]), None)
    else (Editor(e.buffer, Target(e.buffer, e.cursor, ch)), None)
  }

  // ----- boundaries around lines -----

  lemma LineStartBoundary(s: seq<byte>, pos: nat)
    requires WellFormed(s) && pos <= |s|
    ensures Boundary(s, LineStart(s, pos))
  {
    var r := LineStart(s, pos);
    if r == 0 {
      assert s[..0] == [] && s[0..] == s;
    } else {
      AsciiBoundaries(s, r - 1);
    }
  }

  lemma LineEndBoundary(s: seq<byte>, pos: nat)
    requires WellFormed(s) && pos <= |s|
    ensures Boundary(s, LineEnd(s, pos))
  {
    var r := LineEnd(s, pos);
    if r == |s| {
      assert s[..|s|] == s && s[|s|..] == [];
    } else {
      AsciiBoundaries(s, r);
    }
  }

  lemma {:induction false} LineStartIs(s: seq<byte>, r: nat, pos: nat)
    requires r <= pos <= |s| && (r == 0 || s[r - 1] == NEWLINE)
    requires forall k :: r <= k < pos ==> s[k] != NEWLINE
    ensures LineStart(s, pos) == r
    ensures LineNumber(s, pos) == LineNumber(s, r)
  {
    if r < pos {
      LineStartIs(s, r, pos - 1);
    }
  }

  // ----- every reachable state is good -----

  lemma InsertGood(e: Editor, text: seq<byte>)
    requires Good(e) && WellFormed(text)
    ensures Good(Insert(e, text))
  {
    var r := Insert(e, text);
    WellFormedConcat(e.buffer[..e.cursor], text);
    assert r.buffer[..r.cursor] == e.buffer[..e.cursor] + text;
    assert r.buffer[r.cursor..] == e.buffer[e.cursor..];
  }

  lemma EraseGood(e: Editor, p: nat, q: nat)
    requires Boundary(e.buffer, p) && Boundary(e.buffer, q) && p <= q
    ensures Good(Erase(e, p, q))
  {
    var r := Erase(e, p, q);
    assert r.buffer[..p] == e.buffer[..p] && r.buffer[p..] == e.buffer[q..];
  }

  lemma {:induction false} WalkBoundary(s: seq<byte>, p: nat, end: nat, k: nat)
    requires Boundary(s, p) && Boundary(s, end) && p <= end
    ensures Boundary(s, Walk(s, p, end, k)) && p <= Walk(s, p, end, k) <= end
    decreases k
  {
    hide WellFormed;
    if k > 0 && p < end {
      NextBoundary(s, p);
      NoBoundaryInside(s, p);
      WalkBoundary(s, Next(s, p), end, k - 1);
    }
  }

  lemma UpBoundary(s: seq<byte>, pos: nat)
    requires Boundary(s, pos)
    ensures Boundary(s, UpTarget(s, pos))
  {
    WellFormedAround(s, pos);
    var ls := LineStart(s, pos);
    if ls > 0 {
      AsciiBoundaries(s, ls - 1);
      LineStartBoundary(s, ls - 1);
      WalkBoundary(s, LineStart(s, ls - 1), ls - 1, Column(s, pos));
    }
  }

  lemma DownBoundary(s: seq<byte>, pos: nat)
    requires Boundary(s, pos)
    ensures Boundary(s, DownTarget(s, pos))
  {
    hide WellFormed, LineEnd, Walk, Count;
    WellFormedAround(s, pos);
    var le := LineEnd(s, pos);
    if le < |s| {
      AsciiBoundaries(s, le);
      LineEndBoundary(s, le + 1);
      WalkBoundary(s, le + 1, LineEnd(s, le + 1), Column(s, pos));
    }
  }

  lemma DeletingGood(e: Editor)
    requires Good(e)
    ensures e.cursor > 0 ==> Good(Erase(e, Prev(e.buffer, e.cursor), e.cursor))
    ensures e.cursor < |e.buffer| ==> Good(Erase(e, e.cursor, Next(e.buffer, e.cursor)))
  {
    if e.cursor > 0 {
      NextOfPrev(e.buffer, e.cursor);
      EraseGood(e, Prev(e.buffer, e.cursor), e.cursor);
    }
    if e.cursor < |e.buffer| {
      NextBoundary(e.buffer, e.cursor);
      EraseGood(e, e.cursor, Next(e.buffer, e.cursor));
    }
  }

  lemma TargetBoundary(s: seq<byte>, pos: nat, ch: int)
    requires Boundary(s, pos)
    ensures Boundary(s, Target(s, pos, ch))
  {
    if ch == KEY_LEFT && pos > 0 {
      NextOfPrev(s, pos);
    } else if ch == KEY_RIGHT && pos < |s| {
      NextBoundary(s, pos);
    } else if ch == KEY_HOME {
      WellFormedAround(s, pos);
      LineStartBoundary(s, pos);
    } else if ch == KEY_END {
      WellFormedAround(s, pos);
      LineEndBoundary(s, pos);
    } else if ch == KEY_UP {
      UpBoundary(s, pos);
    } else if ch == KEY_DOWN {
      DownBoundary(s, pos);
    }
  }

  /** The four things a key can do. */
  lemma PressCases(e: Editor, ch: int)
    requires Valid(e)
    ensures var r := Press(e, ch).0;
            || r == EMPTY
            || (32 <= ch < 127 && r == Insert(e, [ch]))
            || (e.cursor > 0 && r == Erase(e, Prev(e.buffer, e.cursor), e.cursor))
            || (e.cursor < |e.buffer| && r == Erase(e, e.cursor, Next(e.buffer, e.cursor)))
            || r == Editor(e.buffer, Target(e.buffer, e.cursor, ch))
  {
  }

  /** Every key keeps the text well-formed and the cursor on a boundary. */
  lemma PressGood(e: Editor, ch: int)
    requires Good(e)
    ensures Good(Press(e, ch).0)
  {
    PressCases(e, ch);
    DeletingGood(e);
    TargetBoundary(e.buffer, e.cursor, ch);
    if 32 <= ch < 127 {
      AsciiChar(ch);
      InsertGood(e, [ch]);
    }
  }

  /** What the application does with the editor: a key, a newline from Alt-Enter, or a typed scalar value. */
  datatype Action = Key(ch: int) | NewLine | Type(cp: nat)

  predicate Allowed(a: Action) {
    a.Type? ==> IsScalar(a.cp)
  }

  function Perform(e: Editor, a: Action): (r: Editor)
    requires Valid(e) && Allowed(a)
    ensures Valid(r)
  {
    match a
    case Key(ch) => Press(e, ch).0
    case NewLine => Insert(e, [NEWLINE])
    case Type(cp) => Insert(e, Encode(cp))
  }

  /** The editor after a run of actions from the empty prompt. */
  function Run(actions: seq<Action>): (e: Editor)
    requires forall k :: 0 <= k < |actions| ==> Allowed(actions[k])
    ensures Valid(e)
  {
    if actions == [] then EMPTY
    else Perform(Run(actions[..|actions| - 1]), actions[|actions| - 1])
  }

  /** Over every run the buffer stays well-formed UTF-8 with the cursor on a character boundary. */
  lemma {:induction false} RunsAreGood(actions: seq<Action>)
    requires forall k :: 0 <= k < |actions| ==> Allowed(actions[k])
    ensures Good(Run(actions)) && WellFormed(Run(actions).buffer)
  {
    hide Encode, CodePoint, WellFormed, ValidChar, Press;
    if actions != [] {
      var e, a := Run(actions[..|actions| - 1]), actions[|actions| - 1];
      RunsAreGood(actions[..|actions| - 1]);
      match a {
        case Key(ch) => PressGood(e, ch);
        case NewLine =>
          AsciiChar(NEWLINE);
          InsertGood(e, [NEWLINE]);
        case Type(cp) =>
          EncodeIsFaithfulIff(cp);
          InsertGood(e, Encode(cp));
      }
    }
    WellFormedAround(Run(actions).buffer, Run(actions).cursor);
  }

  // ----- undoing -----

  /** Away from the ends, left and right undo each other. */
  lemma LeftRightInverse(e: Editor)
    requires Good(e)
    ensures e.cursor > 0 ==> Press(Press(e, KEY_LEFT).0, KEY_RIGHT).0 == e
    ensures e.cursor < |e.buffer| ==> Press(Press(e, KEY_RIGHT).0, KEY_LEFT).0 == e
  {
    if e.cursor > 0 {
      NextOfPrev(e.buffer, e.cursor);
    }
    if e.cursor < |e.buffer| {
      PrevOfNext(e.buffer, e.cursor);
    }
  }

  lemma InsertedChar(e: Editor, c: seq<byte>)
    requires Good(e) && ValidChar(c)
    ensures var r := Insert(e, c); Boundary(r.buffer, e.cursor) && Next(r.buffer, e.cursor) == r.cursor
  {
    var r := Insert(e, c);
    var tail := e.buffer[e.cursor..];
    ValidCharShape(c);
    assert r.buffer[..e.cursor] == e.buffer[..e.cursor];
    assert r.buffer[e.cursor..] == c + tail;
    WellFormedCons(c, tail);
  }

  lemma EraseUndoesInsert(e: Editor, c: seq<byte>)
    requires Valid(e)
    ensures Erase(Insert(e, c), e.cursor, e.cursor + |c|) == e
  {
    var r := Insert(e, c);
    assert r.buffer[..e.cursor] == e.buffer[..e.cursor];
    assert r.buffer[e.cursor + |c|..] == e.buffer[e.cursor..];
    assert e.buffer == e.buffer[..e.cursor] + e.buffer[e.cursor..];
  }

  /** Backspace undoes the typing of any character, so of any scalar value. */
  lemma BackspaceUndoesTyping(e: Editor, c: seq<byte>)
    requires Good(e) && ValidChar(c)
    ensures Press(Insert(e, c), KEY_BACKSPACE).0 == e
  {
    hide WellFormed, ValidChar, Target;
    var r := Insert(e, c);
    InsertedChar(e, c);
    ValidCharShape(c);
    PrevOfNext(r.buffer, e.cursor);
    EraseUndoesInsert(e, c);
  }

  /** Deleting forward after a step left is Backspace. */
  lemma DeleteAfterLeft(e: Editor)
    requires Good(e) && e.cursor > 0
    ensures Press(Press(e, KEY_LEFT).0, KEY_DC).0 == Press(e, KEY_BACKSPACE).0
  {
    NextOfPrev(e.buffer, e.cursor);
  }

  // ----- vertical motion -----

  function Min(a: nat, b: nat): nat {
    if a < b then a else b
  }

  /** Walking `k` code points in a line ends `k` code points on, or at the end of the line. */
  lemma {:induction false} WalkCounts(s: seq<byte>, p: nat, end: nat, k: nat)
    requires Boundary(s, p) && Boundary(s, end) && p <= end
    ensures p <= Walk(s, p, end, k) <= end
    ensures Count(s[p..Walk(s, p, end, k)]) == Min(k, Count(s[p..end]))
    decreases k
  {
    hide WellFormed, Next, Count;
    if k == 0 || p >= end {
      NothingToCount(s, p);
    } else {
      var n := Next(s, p);
      NextBoundary(s, p);
      NoBoundaryInside(s, p);
      WalkCounts(s, n, end, k - 1);
      var r := Walk(s, n, end, k - 1);
      assert Count(s[p..r]) == 1 + Count(s[n..r]) by {
        CountFirst(s, p, r);
      }
      assert Count(s[p..end]) == 1 + Count(s[n..end]) by {
        CountFirst(s, p, end);
      }
    }
  }

  lemma NothingToCount(s: seq<byte>, p: nat)
    requires p <= |s|
    ensures Count(s[p..p]) == 0
  {
  }

  lemma CountFirst(s: seq<byte>, p: nat, q: nat)
    requires Boundary(s, p) && p < |s| && Next(s, p) <= q <= |s|
    ensures Count(s[p..q]) == 1 + Count(s[Next(s, p)..q])
  {
    NextBoundary(s, p);
    CountOne(s, p);
    CountBetween(s, p, Next(s, p), q);
  }

  lemma CountOne(s: seq<byte>, p: nat)
    requires Boundary(s, p) && p < |s|
    ensures Count(s[p..Next(s, p)]) == 1
  {
    NextBoundary(s, p);
    var c := s[p..Next(s, p)];
    ValidCharShape(c);
    assert c[Step(c)..] == [];
  }

  /** Where a walk inside one line ends up. */
  lemma Landing(s: seq<byte>, start: nat, end: nat, k: nat)
    requires Boundary(s, start) && Boundary(s, end) && start <= end
    requires start == 0 || s[start - 1] == NEWLINE
    requires end == |s| || s[end] == NEWLINE
    requires forall j :: start <= j < end ==> s[j] != NEWLINE
    ensures var p := Walk(s, start, end, k);
            && p <= |s|
            && LineNumber(s, p) == LineNumber(s, start)
            && Column(s, p) == Min(k, Count(s[start..end]))
  {
    WalkCounts(s, start, end, k);
    LineStartIs(s, start, Walk(s, start, end, k));
  }

  /**
    Up moves exactly one logical line up, to the old column or to the end of the line if that is nearer;
    on the first line it does nothing.
   */
  lemma UpMovesOneLine(s: seq<byte>, pos: nat)
    requires Boundary(s, pos)
    ensures LineStart(s, pos) == 0 ==> LineNumber(s, pos) == 0 && UpTarget(s, pos) == pos
    ensures LineStart(s, pos) > 0 ==>
              && LineNumber(s, UpTarget(s, pos)) == LineNumber(s, pos) - 1
              && Column(s, UpTarget(s, pos))
                 == Min(Column(s, pos), Count(s[LineStart(s, LineStart(s, pos) - 1)..LineStart(s, pos) - 1]))
  {
    hide WellFormed, Count, Walk, LineStart;
    var ls := LineStart(s, pos);
    LineStartIs(s, ls, pos);
    if ls > 0 {
      var start, col := LineStart(s, ls - 1), Column(s, pos);
      assert LineNumber(s, ls) == LineNumber(s, ls - 1) + 1;
      assert Boundary(s, start) && Boundary(s, ls - 1) by {
        WellFormedAround(s, pos);
        AsciiBoundaries(s, ls - 1);
        LineStartBoundary(s, ls - 1);
      }
      LineStartIs(s, start, ls - 1);
      Landing(s, start, ls - 1, col);
    }
  }

  /** Down moves exactly one logical line down in the same way; on the last line it does nothing. */
  lemma DownMovesOneLine(s: seq<byte>, pos: nat)
    requires Boundary(s, pos)
    ensures LineEnd(s, pos) == |s| ==> LineNumber(s, pos) == LineNumber(s, |s|) && DownTarget(s, pos) == pos
    ensures LineEnd(s, pos) < |s| ==>
              && LineNumber(s, DownTarget(s, pos)) == LineNumber(s, pos) + 1
              && Column(s, DownTarget(s, pos))
                 == Min(Column(s, pos), Count(s[LineEnd(s, pos) + 1..LineEnd(s, LineEnd(s, pos) + 1)]))
  {
    hide WellFormed, Count, Walk;
    var le := LineEnd(s, pos);
    SameLine(s, pos, le);
    if le < |s| {
      var start, col := le + 1, Column(s, pos);
      assert LineNumber(s, start) == LineNumber(s, le) + 1;
      assert Boundary(s, start) && Boundary(s, LineEnd(s, start)) by {
        WellFormedAround(s, pos);
        AsciiBoundaries(s, le);
        LineEndBoundary(s, start);
      }
      Landing(s, start, LineEnd(s, start), col);
    }
  }

  lemma {:induction false} SameLine(s: seq<byte>, p: nat, q: nat)
    requires p <= q <= |s| && forall k :: p <= k < q ==> s[k] != NEWLINE
    ensures LineNumber(s, p) == LineNumber(s, q)
    decreases q - p
  {
    if p < q {
      SameLine(s, p, q - 1);
    }
  }

  // ----- the keys one by one -----

  /** Home and End stay on the line: at its first column, and where it ends. */
  lemma HomeAndEnd(e: Editor)
    requires Valid(e)
    ensures var home := Press(e, KEY_HOME).0;
            && home.buffer == e.buffer && LineNumber(e.buffer, home.cursor) == LineNumber(e.buffer, e.cursor)
            && Column(e.buffer, home.cursor) == 0
    ensures var end := Press(e, KEY_END).0;
            && end.buffer == e.buffer && LineNumber(e.buffer, end.cursor) == LineNumber(e.buffer, e.cursor)
            && (end.cursor == |e.buffer| || e.buffer[end.cursor] == NEWLINE)
  {
    hide Count;
    var s := e.buffer;
    var start := LineStart(s, e.cursor);
    LineStartIs(s, start, e.cursor);
    SameLine(s, e.cursor, LineEnd(s, e.cursor));
    NothingToCount(s, start);
  }

  /** The vertical keys change no text, and put the cursor where the lemmas about vertical motion say. */
  lemma VerticalKeys(e: Editor)
    requires Valid(e)
    ensures Press(e, KEY_UP) == (Editor(e.buffer, UpTarget(e.buffer, e.cursor)), None)
    ensures Press(e, KEY_DOWN) == (Editor(e.buffer, DownTarget(e.buffer, e.cursor)), None)
  {
  }

  predicate HasMeaning(ch: int) {
    || 32 <= ch < 127
    || ch in {8, 10, 13, 127, KEY_ENTER, KEY_BACKSPACE, KEY_DC, KEY_LEFT, KEY_RIGHT, KEY_HOME, KEY_END, KEY_UP, KEY_DOWN}
  }

  /** At the ends of the text, and for every key without a meaning, nothing happens. */
  lemma NothingHappens(e: Editor, ch: int)
    requires Valid(e)
    ensures e.cursor == 0 ==> Press(e, KEY_LEFT) == (e, None) && Press(e, KEY_BACKSPACE) == (e, None)
    ensures e.cursor == |e.buffer| ==> Press(e, KEY_RIGHT) == (e, None) && Press(e, KEY_DC) == (e, None)
    ensures !HasMeaning(ch) ==> Press(e, ch) == (e, None)
  {
  }

  /** The codes that terminals send for Backspace mean the same. */
  lemma BackspaceCodes(e: Editor)
    requires Valid(e)
    ensures Press(e, 127) == Press(e, 8) == Press(e, KEY_BACKSPACE)
  {
  }

  /** The text that an action types, if it types any. */
  function Typed(a: Action): Option<seq<byte>>
    requires Allowed(a)
  {
    match a
    case Key(ch) => if 32 <= ch < 127 then Some([ch]) else None
    case NewLine => Some([NEWLINE])
    case Type(cp) => Some(Encode(cp))
  }

  predicate AllTyping(actions: seq<Action>) {
    forall k :: 0 <= k < |actions| ==> Allowed(actions[k]) && Typed(actions[k]).Some?
  }

  function TypedText(actions: seq<Action>): seq<byte>
    requires AllTyping(actions)
  {
    if actions == [] then []
    else TypedText(actions[..|actions| - 1]) + Typed(actions[|actions| - 1]).value
  }

  lemma {:induction false} TypingAppends(actions: seq<Action>)
    requires AllTyping(actions)
    ensures Run(actions) == Editor(TypedText(actions), |TypedText(actions)|)
  {
    hide Encode;
    if actions != [] {
      var front := actions[..|actions| - 1];
      TypingAppends(front);
      var e, text := Run(front), Typed(actions[|actions| - 1]).value;
      assert Run(actions) == Insert(e, text);
      assert e.buffer[..e.cursor] == e.buffer && e.buffer[e.cursor..] == [];
      assert e.buffer + text + [] == e.buffer + text;
    }
  }

  lemma MovingKey(e: Editor, ch: int)
    requires Valid(e) && ch in {KEY_LEFT, KEY_RIGHT, KEY_HOME, KEY_END, KEY_UP, KEY_DOWN}
    ensures Press(e, ch).0.buffer == e.buffer && Press(e, ch).1 == None
  {
    hide Target;
  }

  predicate AllMoving(actions: seq<Action>) {
    forall k :: 0 <= k < |actions| ==>
      actions[k].Key? && actions[k].ch in {KEY_LEFT, KEY_RIGHT, KEY_HOME, KEY_END, KEY_UP, KEY_DOWN}
  }

  lemma {:induction false} MovingKeepsTheText(typing: seq<Action>, moving: seq<Action>)
    requires AllTyping(typing) && AllMoving(moving)
    ensures AllAllowed(typing + moving) && Run(typing + moving).buffer == Run(typing).buffer
    decreases |moving|
  {
    hide Press;
    var all := typing + moving;
    if moving == [] {
      assert all == typing;
    } else {
      MovingKeepsTheText(typing, moving[..|moving| - 1]);
      assert all[..|all| - 1] == typing + moving[..|moving| - 1] && all[|all| - 1] == moving[|moving| - 1];
      MovingKey(Run(all[..|all| - 1]), moving[|moving| - 1].ch);
    }
  }

  predicate AllAllowed(actions: seq<Action>) {
    forall k :: 0 <= k < |actions| ==> Allowed(actions[k])
  }

  /**
    Whatever is typed into the empty prompt is what Enter submits, wherever the cursor has been moved to, and the prompt
    is empty again.
   */
  lemma EnterSubmitsWhatWasTyped(typing: seq<Action>, moving: seq<Action>, enter: int)
    requires AllTyping(typing) && AllMoving(moving) && enter in {10, 13, KEY_ENTER}
    ensures AllAllowed(typing + moving)
    ensures Press(Run(typing + moving), enter) == (Editor([], 0), Some(TypedText(typing)))
  {
    hide Run, TypedText;
    TypingAppends(typing);
    MovingKeepsTheText(typing, moving);
  }
}
