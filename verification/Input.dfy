/** The InputBar class of src/ui/InputBar.cpp: its fields, its methods, and their loops. */
module Input {
  import opened Options
  import opened Sequences
  import opened Utf8
  import opened Editing
  import opened WrapLayout

  class InputBar {
    var buffer: seq<byte>
    var cursor: nat

    predicate Sound()
      reads this
    {
      cursor <= |buffer|
    }

    function State(): Editor
      reads this
    {
      Editor(buffer, cursor)
    }

    constructor ()
      ensures Sound() && State() == EMPTY
    {
      buffer, cursor := [], 0;
    }

    method Clear()
      modifies this
      ensures Sound() && State() == EMPTY
    {
      buffer, cursor := [], 0;
    }

    method MoveVertical(dir: int)
      requires Sound()
      modifies this
      ensures Sound() && buffer == old(buffer)
      ensures cursor == if dir < 0 then UpTarget(buffer, old(cursor)) else DownTarget(buffer, old(cursor))
    {
      hide Count, Walk;
      var ls := LineStart(buffer, cursor);
      var col := Count(buffer[ls..cursor]);
      var targetStart: nat, targetEnd: nat;
      if dir < 0 {
        if ls == 0 {
          return;
        }
        targetStart := LineStart(buffer, ls - 1);
        targetEnd := ls - 1;
      } else {
        var le := LineEnd(buffer, cursor);
        if le == |buffer| {
          return;
        }
        targetStart := le + 1;
        targetEnd := LineEnd(buffer, targetStart);
      }
      cursor := WalkColumns(buffer, targetStart, targetEnd, col);
    }

    method HandleKey(ch: int) returns (submitted: Option<seq<byte>>)
      requires Sound()
      modifies this
      ensures Sound() && (State(), submitted) == Press(old(State()), ch)
    {
      submitted := None;
      if ch == 10 || ch == 13 || ch == KEY_ENTER {
        submitted := Some(buffer);
        Clear();
      } else if ch == KEY_BACKSPACE || ch == 127 || ch == 8 {
        if cursor > 0 {
          var p := PrevBoundary(buffer, cursor);
          buffer := buffer[..p] + buffer[cursor..];
          cursor := p;
        }
      } else if ch == KEY_DC {
        if cursor < |buffer| {
          var n := Next(buffer, cursor);
          buffer := buffer[..cursor] + buffer[n..];
        }
      } else if ch == KEY_LEFT {
        cursor := PrevBoundary(buffer, cursor);
      } else if ch == KEY_RIGHT {
        cursor := Next(buffer, cursor);
      } else if ch == KEY_HOME {
        cursor := LineStart(buffer, cursor);
      } else if ch == KEY_END {
        cursor := LineEnd(buffer, cursor);
      } else if ch == KEY_UP {
        MoveVertical(-1);
      } else if ch == KEY_DOWN {
        MoveVertical(1);
      } else if 32 <= ch < 127 {
        buffer := buffer[..cursor] + [ch] + buffer[cursor..];
        cursor := cursor + 1;
      }
    }

    method InsertText(text: seq<byte>)
      requires Sound()
      modifies this
      ensures Sound() && State() == Insert(old(State()), text)
    {
      buffer := buffer[..cursor] + text + buffer[cursor..];
      cursor := cursor + |text|;
    }

    method InsertNewline()
      requires Sound()
      modifies this
      ensures Sound() && State() == Insert(old(State()), [NEWLINE])
    {
      buffer := buffer[..cursor] + [NEWLINE] + buffer[cursor..];
      cursor := cursor + 1;
    }

    method LayoutRows(width: int, promptCols: int) returns (out: Layout)
      requires Sound()
      ensures IsLayout(buffer, cursor, width, promptCols, out)
    {
      var w, prompt := AtLeast(1, width), AtLeast(0, promptCols);
      var cursorSet;
      out, cursorSet := LayoutLines(buffer, cursor, w, prompt);
      ghost var claimed := ExactlyOneRowClaims(buffer, width, promptCols, cursor);
      if !cursorSet {
        out := out.(cursorRow := if |out.rows| == 0 then 0 else |out.rows| - 1);
      }
    }

    method VisualLineCount(width: int, promptCols: int) returns (n: nat)
      requires Sound()
      ensures n == |Rows(buffer, width, promptCols)| >= 1
    {
      var layout := LayoutRows(width, promptCols);
      n := |layout.rows|;
    }
  }

  /** Walks `col` code points into the line, stopping at its end. */
  method WalkColumns(s: seq<byte>, start: nat, end: nat, col: nat) returns (p: nat)
    requires start <= |s| && end <= |s|
    ensures p == Walk(s, start, end, col)
  {
    p := start;
    var k := 0;
    while k < col && p < end
      invariant 0 <= k <= col && p <= |s|
      invariant Walk(s, p, end, col - k) == Walk(s, start, end, col)
    {
      p := Next(s, p);
      k := k + 1;
    }
  }

  /** The outer loop over logical lines. */
  method LayoutLines(s: seq<byte>, cursor: nat, w: int, prompt: nat) returns (out: Layout, cursorSet: bool)
    requires cursor <= |s|
    ensures Placed(s, cursor, AllRows(s, 0, w, prompt), out, cursorSet)
  {
    hide LineRows;
    out := Layout([], 0, 0);
    cursorSet := false;
    var gstart := 0;
    var col0 := prompt;
    ghost var rows: seq<Row> := [];
    while true
      invariant gstart <= |s|
      invariant rows + AllRows(s, gstart, w, col0) == AllRows(s, 0, w, prompt)
      invariant Placed(s, cursor, rows, out, cursorSet)
      decreases |s| - gstart
    {
      var gend := LineEnd(s, gstart);
      out, cursorSet := LayoutLine(s, cursor, gstart, gend, w, col0, out, cursorSet, rows);
      ghost var line := LineRows(s, gstart, gend, w, col0);
      if gend == |s| {
        return;
      }
      Assoc(rows, line, AllRows(s, gend + 1, w, 0));
      rows := rows + line;
      gstart, col0 := gend + 1, 0;
    }
  }

  /** The inner loop over the rows of one logical line, after the rows in `done`. */
  method LayoutLine(s: seq<byte>, cursor: nat, gstart: nat, gend: nat, w: int, firstCol: nat,
                    before: Layout, wasSet: bool, ghost done: seq<Row>)
    returns (out: Layout, cursorSet: bool)
    requires cursor <= |s| && gstart <= gend <= |s|
    requires Placed(s, cursor, done, before, wasSet)
    ensures Placed(s, cursor, done + LineRows(s, gstart, gend, w, firstCol), out, cursorSet)
  {
    out, cursorSet := before, wasSet;
    var p := gstart;
    var col0 := firstCol;
    ghost var rows := done;
    while true
      invariant gstart <= p <= gend
      invariant rows + LineRows(s, p, gend, w, col0) == done + LineRows(s, gstart, gend, w, firstCol)
      invariant Placed(s, cursor, rows, out, cursorSet)
      decreases gend - p
    {
      ghost var row := RowAt(s, p, gend, w, col0);
      var chunkEnd;
      chunkEnd, out, cursorSet := LayoutRow(s, cursor, p, gend, w, col0, out, cursorSet, rows);
      if chunkEnd == gend {
        return;
      }
      Assoc(rows, [row], LineRows(s, chunkEnd, gend, w, 0));
      rows := rows + [row];
      p, col0 := chunkEnd, 0;
    }
  }

  /** The body of the inner loop: one row, which claims the cursor if no earlier row did and it falls there. */
  method LayoutRow(s: seq<byte>, cursor: nat, p: nat, gend: nat, w: int, col0: nat,
                   before: Layout, wasSet: bool, ghost rows: seq<Row>)
    returns (chunkEnd: nat, out: Layout, cursorSet: bool)
    requires cursor <= |s| && p <= gend <= |s|
    requires Placed(s, cursor, rows, before, wasSet)
    ensures chunkEnd == RowAt(s, p, gend, w, col0).end
    ensures Placed(s, cursor, rows + [RowAt(s, p, gend, w, col0)], out, cursorSet)
  {
    out, cursorSet := before, wasSet;
    var taken := TakeCols(s[p..gend], Budget(w, col0));
    chunkEnd := p + taken;
    PlaceRow(s, cursor, rows, RowAt(s, p, gend, w, col0), out, cursorSet);
    if !cursorSet && cursor >= p && cursor <= chunkEnd && (cursor < chunkEnd || chunkEnd == gend) {
      var count := CountCodePoints(s[p..cursor]);
      out := out.(cursorRow := |out.rows|, cursorCol := col0 + count);
      cursorSet := true;
    }
    out := out.(rows := out.rows + [s[p..chunkEnd]]);
  }

  /** `out` shows the rows placed so far, and the cursor in the first of them that claims it. */
  ghost predicate Placed(s: seq<byte>, cursor: nat, rows: seq<Row>, out: Layout, cursorSet: bool) {
    && cursor <= |s|
    && ShowsRows(s, rows, out.rows)
    && (!cursorSet ==> NoClaim(rows, cursor))
    && (cursorSet ==>
          && 0 <= out.cursorRow < |rows|
          && Claims(rows[out.cursorRow], cursor)
          && out.cursorCol == ScreenColumn(s, rows[out.cursorRow], cursor))
  }

  /** Placing one more row: it gets the cursor if it is the first to claim it. */
  lemma PlaceRow(s: seq<byte>, cursor: nat, rows: seq<Row>, row: Row, out: Layout, cursorSet: bool)
    requires Placed(s, cursor, rows, out, cursorSet) && row.start <= row.end <= |s|
    ensures var shown := out.(rows := out.rows + [s[row.start..row.end]]);
            if !cursorSet && Claims(row, cursor)
            then Placed(s, cursor, rows + [row],
                        shown.(cursorRow := |rows|, cursorCol := ScreenColumn(s, row, cursor)), true)
            else Placed(s, cursor, rows + [row], shown, cursorSet)
  {
    var more := rows + [row];
    assert more[|rows|] == row;
    assert forall i :: 0 <= i < |rows| ==> more[i] == rows[i];
  }
}
