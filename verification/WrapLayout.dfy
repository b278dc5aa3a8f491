/** The soft-wrap layout of the prompt (InputBar::wrap_layout in src/ui/InputBar.cpp). */
module WrapLayout {
  import opened Utf8
  import opened Editing

  /** A visual row: the bytes from `start` to `end` of a logical line ending at `lineEnd`, drawn from column `col0`. */
  datatype Row = Row(start: nat, end: nat, lineEnd: nat, col0: nat)

  datatype Layout = Layout(rows: seq<seq<byte>>, cursorRow: int, cursorCol: int)

  function AtLeast(lo: nat, x: int): nat {
    if x < lo then lo else x
  }

  /** Columns for text on a row: the last column stays free for the cursor, and there is always one. */
  function Budget(w: int, col0: nat): (b: nat)
    ensures b >= 1
  {
    AtLeast(1, w - 1 - col0)
  }

  /** The row that starts at `p`. */
  function RowAt(s: seq<byte>, p: nat, gend: nat, w: int, col0: nat): (r: Row)
    requires p <= gend <= |s|
    ensures p <= r.end <= gend && (p < gend ==> p < r.end)
  {
    Row(p, p + Take(s[p..gend], Budget(w, col0)), gend, col0)
  }

  /** The rows of one logical line, from `p` on. */
  function LineRows(s: seq<byte>, p: nat, gend: nat, w: int, col0: nat): (rows: seq<Row>)
    requires p <= gend <= |s|
    ensures rows != []
    decreases gend - p
  {
    var row := RowAt(s, p, gend, w, col0);
    if row.end < gend then [row] + LineRows(s, row.end, gend, w, 0) else [row]
  }

  /** The rows of the logical lines from `gstart` on; only the first row of all starts after the prompt. */
  function AllRows(s: seq<byte>, gstart: nat, w: int, col0: nat): (rows: seq<Row>)
    requires gstart <= |s|
    ensures rows != []
    decreases |s| - gstart
  {
    var gend := LineEnd(s, gstart);
    var first := LineRows(s, gstart, gend, w, col0);
    if gend == |s| then first else first + AllRows(s, gend + 1, w, 0)
  }

  function Rows(s: seq<byte>, width: int, promptCols: int): seq<Row> {
    AllRows(s, 0, AtLeast(1, width), AtLeast(0, promptCols))
  }

  /** The row shows the cursor: inside its bytes, or behind them at the end of the logical line. */
  predicate Claims(row: Row, cursor: nat) {
    row.start <= cursor <= row.end && (cursor < row.end || row.end == row.lineEnd)
  }

  // ----- what every row is -----

  /** The code points that fit on a row with the last column left free, but one at least. */
  function Room(w: int, col0: nat): int {
    if col0 + 2 <= w then w - 1 - col0 else 1
  }

  /** A row lies within one logical line, and is full unless it is the last of the line. */
  ghost predicate RowOk(s: seq<byte>, row: Row, w: int) {
    && row.start <= row.end <= row.lineEnd <= |s|
    && (row.lineEnd == |s| || s[row.lineEnd] == NEWLINE)
    && (forall k :: row.start <= k < row.lineEnd ==> s[k] != NEWLINE)
    && Count(s[row.start..row.end]) <= Room(w, row.col0)
    && (row.end < row.lineEnd ==> Count(s[row.start..row.end]) == Room(w, row.col0))
  }

  lemma RowAtOk(s: seq<byte>, p: nat, gend: nat, w: int, col0: nat)
    requires p <= gend <= |s| && (gend == |s| || s[gend] == NEWLINE)
    requires forall k :: p <= k < gend ==> s[k] != NEWLINE
    ensures RowOk(s, RowAt(s, p, gend, w, col0), w)
  {
    hide Take, Count;
    var rest, b := s[p..gend], Budget(w, col0);
    var t := Take(rest, b);
    assert rest[..t] == s[p..p + t];
    TakeAllIff(rest, b);
    if b <= Count(rest) {
      TakeCount(rest, b);
    } else {
      assert rest[..t] == rest;
    }
  }

  lemma {:induction false} LineRowsOk(s: seq<byte>, p: nat, gend: nat, w: int, col0: nat)
    requires p <= gend <= |s| && (gend == |s| || s[gend] == NEWLINE)
    requires forall k :: p <= k < gend ==> s[k] != NEWLINE
    ensures forall i :: 0 <= i < |LineRows(s, p, gend, w, col0)| ==> RowOk(s, LineRows(s, p, gend, w, col0)[i], w)
    decreases gend - p
  {
    RowAtOk(s, p, gend, w, col0);
    var row := RowAt(s, p, gend, w, col0);
    if row.end < gend {
      LineRowsOk(s, row.end, gend, w, 0);
    }
  }

  lemma {:induction false} AllRowsOk(s: seq<byte>, gstart: nat, w: int, col0: nat)
    requires gstart <= |s|
    ensures forall i :: 0 <= i < |AllRows(s, gstart, w, col0)| ==> RowOk(s, AllRows(s, gstart, w, col0)[i], w)
    decreases |s| - gstart
  {
    var gend := LineEnd(s, gstart);
    LineRowsOk(s, gstart, gend, w, col0);
    if gend < |s| {
      AllRowsOk(s, gend + 1, w, 0);
    }
  }

  /** Holds of all bytes: rows stay within their line and only the last row of a line may be short. */
  lemma EveryRowIsFilled(s: seq<byte>, width: int, promptCols: int, i: nat)
    requires i < |Rows(s, width, promptCols)|
    ensures RowOk(s, Rows(s, width, promptCols)[i], if width < 1 then 1 else width)
  {
    AllRowsOk(s, 0, AtLeast(1, width), AtLeast(0, promptCols));
  }

  // ----- the rows partition the buffer -----

  /** `next` goes on where `row` stops: right behind it, or behind the newline that ends its line. */
  predicate Adjacent(s: seq<byte>, row: Row, next: Row) {
    && row.start <= row.end <= row.lineEnd
    && if row.end < row.lineEnd then next.start == row.end && next.lineEnd == row.lineEnd
       else row.lineEnd < |s| && s[row.lineEnd] == NEWLINE && next.start == row.lineEnd + 1
  }

  /** Rows that cover the buffer from `p` up to the end of a logical line, without gap or overlap. */
  predicate Chain(s: seq<byte>, rows: seq<Row>, p: nat, end: nat) {
    && rows != []
    && rows[0].start == p
    && rows[|rows| - 1].start <= rows[|rows| - 1].end == rows[|rows| - 1].lineEnd == end
    && forall i :: 0 <= i < |rows| - 1 ==> Adjacent(s, rows[i], rows[i + 1])
  }

  lemma ChainConcat(s: seq<byte>, a: seq<Row>, b: seq<Row>, p: nat, q: nat, r: nat, end: nat)
    requires Chain(s, a, p, q) && Chain(s, b, r, end) && Adjacent(s, a[|a| - 1], b[0])
    ensures Chain(s, a + b, p, end)
  {
    var rows := a + b;
    forall i | 0 <= i < |rows| - 1
      ensures Adjacent(s, rows[i], rows[i + 1])
    {
      assert i < |a| - 1 ==> Adjacent(s, a[i], a[i + 1]);
      assert i >= |a| ==> rows[i] == b[i - |a|] && rows[i + 1] == b[i - |a| + 1];
    }
  }

  lemma {:induction false} LineRowsChain(s: seq<byte>, p: nat, gend: nat, w: int, col0: nat)
    requires p <= gend <= |s|
    ensures Chain(s, LineRows(s, p, gend, w, col0), p, gend)
    ensures LineRows(s, p, gend, w, col0)[0].lineEnd == gend
    decreases gend - p
  {
    var row := RowAt(s, p, gend, w, col0);
    if row.end < gend {
      LineRowsChain(s, row.end, gend, w, 0);
    }
  }

  lemma {:induction false} AllRowsChain(s: seq<byte>, gstart: nat, w: int, col0: nat)
    requires gstart <= |s|
    ensures Chain(s, AllRows(s, gstart, w, col0), gstart, |s|)
    decreases |s| - gstart
  {
    hide LineRows, LineEnd;
    var gend := LineEnd(s, gstart);
    LineRowsChain(s, gstart, gend, w, col0);
    if gend < |s| {
      AllRowsChain(s, gend + 1, w, 0);
      ChainConcat(s, LineRows(s, gstart, gend, w, col0), AllRows(s, gend + 1, w, 0), gstart, gend, gend + 1, |s|);
    }
  }

  /** A row's bytes, and the newline behind it if it ends a logical line other than the last. */
  function RowText(s: seq<byte>, row: Row): seq<byte> {
    if row.start <= row.end <= |s| then
      if row.end == row.lineEnd && row.lineEnd < |s| then s[row.start..row.end] + [NEWLINE] else s[row.start..row.end]
    else []
  }

  /** The rows joined, with a newline behind every logical line but the last. */
  function Rejoined(s: seq<byte>, rows: seq<Row>): seq<byte> {
    if rows == [] then [] else RowText(s, rows[0]) + Rejoined(s, rows[1..])
  }

  lemma ChainTail(s: seq<byte>, rows: seq<Row>, p: nat, end: nat)
    requires Chain(s, rows, p, end) && |rows| > 1
    ensures Adjacent(s, rows[0], rows[1]) && Chain(s, rows[1..], rows[1].start, end)
  {
    var next := rows[1..];
    forall i | 0 <= i < |next| - 1
      ensures Adjacent(s, next[i], next[i + 1])
    {
      assert Adjacent(s, rows[i + 1], rows[i + 2]);
    }
  }

  lemma RowThenRest(s: seq<byte>, row: Row, next: Row)
    requires Adjacent(s, row, next) && next.start <= |s|
    ensures row.start <= |s| && RowText(s, row) + s[next.start..] == s[row.start..]
  {
  }

  lemma {:induction false} ChainRejoins(s: seq<byte>, rows: seq<Row>, p: nat)
    requires Chain(s, rows, p, |s|)
    ensures p <= |s| && Rejoined(s, rows) == s[p..]
    decreases |rows|
  {
    if |rows| == 1 {
      assert Rejoined(s, rows[1..]) == [];
    } else {
      ChainTail(s, rows, p, |s|);
      ChainRejoins(s, rows[1..], rows[1].start);
      RowThenRest(s, rows[0], rows[1]);
    }
  }

  /** Rows grouped by logical line and rejoined with newlines give back the buffer, whatever its bytes. */
  lemma RowsPartitionTheBuffer(s: seq<byte>, width: int, promptCols: int)
    ensures Chain(s, Rows(s, width, promptCols), 0, |s|)
    ensures Rejoined(s, Rows(s, width, promptCols)) == s
  {
    AllRowsChain(s, 0, AtLeast(1, width), AtLeast(0, promptCols));
    ChainRejoins(s, Rows(s, width, promptCols), 0);
  }

  // ----- exactly one row claims the cursor -----

  predicate OneClaim(rows: seq<Row>, cursor: nat, i: nat) {
    i < |rows| && Claims(rows[i], cursor) && forall j :: 0 <= j < |rows| && Claims(rows[j], cursor) ==> j == i
  }

  predicate NoClaim(rows: seq<Row>, cursor: nat) {
    forall j :: 0 <= j < |rows| ==> !Claims(rows[j], cursor)
  }

  /** A claim in one part of the rows and none in the other. */
  lemma ClaimInParts(a: seq<Row>, b: seq<Row>, cursor: nat)
    ensures NoClaim(a, cursor) && NoClaim(b, cursor) ==> NoClaim(a + b, cursor)
    ensures forall i: nat :: OneClaim(a, cursor, i) && NoClaim(b, cursor) ==> OneClaim(a + b, cursor, i)
    ensures forall i: nat :: NoClaim(a, cursor) && OneClaim(b, cursor, i) ==> OneClaim(a + b, cursor, |a| + i)
  {
    forall i: nat | NoClaim(a, cursor) && OneClaim(b, cursor, i)
      ensures OneClaim(a + b, cursor, |a| + i)
    {
      assert (a + b)[|a| + i] == b[i];
    }
  }

  lemma {:induction false} LineClaim(s: seq<byte>, p: nat, gend: nat, w: int, col0: nat, cursor: nat) returns (i: nat)
    requires p <= gend <= |s|
    ensures p <= cursor <= gend ==> OneClaim(LineRows(s, p, gend, w, col0), cursor, i)
    ensures cursor < p || gend < cursor ==> NoClaim(LineRows(s, p, gend, w, col0), cursor)
    decreases gend - p
  {
    var row := RowAt(s, p, gend, w, col0);
    i := 0;
    if row.end < gend {
      var j := LineClaim(s, row.end, gend, w, 0, cursor);
      ClaimInParts([row], LineRows(s, row.end, gend, w, 0), cursor);
      assert p <= cursor < row.end ==> OneClaim([row], cursor, 0);
      assert cursor < p || row.end <= cursor ==> NoClaim([row], cursor);
      if row.end <= cursor {
        i := 1 + j;
      }
    }
  }

  lemma {:induction false} AllClaim(s: seq<byte>, gstart: nat, w: int, col0: nat, cursor: nat) returns (i: nat)
    requires gstart <= |s| && cursor <= |s|
    ensures gstart <= cursor ==> OneClaim(AllRows(s, gstart, w, col0), cursor, i)
    ensures cursor < gstart ==> NoClaim(AllRows(s, gstart, w, col0), cursor)
    decreases |s| - gstart
  {
    hide LineRows, OneClaim, NoClaim;
    var gend := LineEnd(s, gstart);
    var first := LineRows(s, gstart, gend, w, col0);
    i := LineClaim(s, gstart, gend, w, col0, cursor);
    if gend < |s| {
      var j := AllClaim(s, gend + 1, w, 0, cursor);
      ClaimInParts(first, AllRows(s, gend + 1, w, 0), cursor);
      if gend < cursor {
        i := |first| + j;
      }
    }
  }

  /** Every cursor position is claimed by exactly one row, so the source's fallback is never taken. */
  lemma ExactlyOneRowClaims(s: seq<byte>, width: int, promptCols: int, cursor: nat) returns (i: nat)
    requires cursor <= |s|
    ensures OneClaim(Rows(s, width, promptCols), cursor, i)
  {
    i := AllClaim(s, 0, AtLeast(1, width), AtLeast(0, promptCols), cursor);
  }

  /** The on-screen column of a cursor in a row. */
  function ScreenColumn(s: seq<byte>, row: Row, cursor: nat): nat
    requires row.start <= cursor <= |s|
  {
    row.col0 + Count(s[row.start..cursor])
  }

  /** The text on every row. */
  ghost predicate ShowsRows(s: seq<byte>, rows: seq<Row>, texts: seq<seq<byte>>) {
    |texts| == |rows|
    && forall i :: 0 <= i < |rows| ==> rows[i].start <= rows[i].end <= |s| && texts[i] == s[rows[i].start..rows[i].end]
  }

  /** The layout of the buffer: its rows, and the cursor in the one row that claims it. */
  ghost predicate IsLayout(s: seq<byte>, cursor: nat, width: int, promptCols: int, out: Layout) {
    var rows := Rows(s, width, promptCols);
    && ShowsRows(s, rows, out.rows)
    && out.cursorRow >= 0 && OneClaim(rows, cursor, out.cursorRow)
    && cursor <= |s| && out.cursorCol == ScreenColumn(s, rows[out.cursorRow], cursor)
  }

  // ----- rows of well-formed text -----

  predicate OnBoundaries(s: seq<byte>, rows: seq<Row>) {
    forall i :: 0 <= i < |rows| ==> Boundary(s, rows[i].start) && Boundary(s, rows[i].end)
  }

  lemma {:induction false} LineRowsBoundary(s: seq<byte>, p: nat, gend: nat, w: int, col0: nat)
    requires Boundary(s, p) && Boundary(s, gend) && p <= gend
    ensures OnBoundaries(s, LineRows(s, p, gend, w, col0))
    decreases gend - p
  {
    hide WellFormed, Take, Count;
    var row := RowAt(s, p, gend, w, col0);
    RowEndBoundary(s, p, gend, Budget(w, col0));
    if row.end < gend {
      LineRowsBoundary(s, row.end, gend, w, 0);
    }
  }

  lemma RowEndBoundary(s: seq<byte>, p: nat, gend: nat, n: nat)
    requires Boundary(s, p) && Boundary(s, gend) && p <= gend
    ensures Boundary(s, p + Take(s[p..gend], n))
  {
    hide WellFormed, Take;
    WellFormedBetween(s, p, gend);
    TakeWellFormed(s[p..gend], n);
    BoundaryWithin(s, p, gend, Take(s[p..gend], n));
  }

  /** A boundary of a well-formed part is a boundary of the whole. */
  lemma BoundaryWithin(s: seq<byte>, p: nat, q: nat, t: nat)
    requires Boundary(s, p) && Boundary(s, q) && p <= q && Boundary(s[p..q], t)
    ensures Boundary(s, p + t)
  {
    hide WellFormed, ValidChar;
    var mid := s[p..q];
    assert WellFormed(s[..p + t]) by {
      WellFormedConcat(s[..p], mid[..t]);
      assert s[..p + t] == s[..p] + mid[..t];
    }
    assert WellFormed(s[p + t..]) by {
      WellFormedConcat(mid[t..], s[q..]);
      assert s[p + t..] == mid[t..] + s[q..];
    }
  }

  lemma {:induction false} AllRowsBoundary(s: seq<byte>, gstart: nat, w: int, col0: nat)
    requires Boundary(s, gstart)
    ensures OnBoundaries(s, AllRows(s, gstart, w, col0))
    decreases |s| - gstart
  {
    var gend := LineEnd(s, gstart);
    LinesAreBounded(s, gstart);
    LineRowsBoundary(s, gstart, gend, w, col0);
    if gend < |s| {
      AllRowsBoundary(s, gend + 1, w, 0);
      var first, rest := LineRows(s, gstart, gend, w, col0), AllRows(s, gend + 1, w, 0);
      assert OnBoundaries(s, first + rest);
    }
  }

  lemma LinesAreBounded(s: seq<byte>, p: nat)
    requires Boundary(s, p)
    ensures Boundary(s, LineEnd(s, p))
    ensures LineEnd(s, p) < |s| ==> Boundary(s, LineEnd(s, p) + 1)
  {
    hide WellFormed, LineEnd;
    WellFormedAround(s, p);
    LineEndBoundary(s, p);
    if LineEnd(s, p) < |s| {
      AsciiBoundaries(s, LineEnd(s, p));
    }
  }

  lemma LaterInRow(s: seq<byte>, width: int, promptCols: int, c1: nat, c2: nat, i: nat)
    requires Boundary(s, c1) && Boundary(s, c2) && c1 < c2
    requires i < |Rows(s, width, promptCols)|
    requires Claims(Rows(s, width, promptCols)[i], c1) && Claims(Rows(s, width, promptCols)[i], c2)
    ensures ScreenColumn(s, Rows(s, width, promptCols)[i], c1) < ScreenColumn(s, Rows(s, width, promptCols)[i], c2)
  {
    var row := Rows(s, width, promptCols)[i];
    WellFormedAround(s, c1);
    assert s[..0] == [] && s[0..] == s;
    AllRowsBoundary(s, 0, AtLeast(1, width), AtLeast(0, promptCols));
    CountBetween(s, row.start, c1, c2);
    assert s[c1..c2] != [];
  }

  /** Two different character boundaries are never shown at the same place. */
  lemma CursorMapIsInjective(s: seq<byte>, width: int, promptCols: int, c1: nat, c2: nat, l1: Layout, l2: Layout)
    requires Boundary(s, c1) && Boundary(s, c2)
    requires IsLayout(s, c1, width, promptCols, l1) && IsLayout(s, c2, width, promptCols, l2)
    requires l1.cursorRow == l2.cursorRow && l1.cursorCol == l2.cursorCol
    ensures c1 == c2
  {
    if c1 < c2 {
      LaterInRow(s, width, promptCols, c1, c2, l1.cursorRow);
    } else if c2 < c1 {
      LaterInRow(s, width, promptCols, c2, c1, l1.cursorRow);
    }
  }

  // ----- columns on the screen -----

  lemma {:induction false} ColumnZero(s: seq<byte>, gstart: nat, w: int, col0: nat, i: nat)
    requires gstart <= |s| && i < |AllRows(s, gstart, w, col0)|
    ensures AllRows(s, gstart, w, col0)[i].col0 == if i == 0 then col0 else 0
    decreases |s| - gstart
  {
    var gend := LineEnd(s, gstart);
    var first := LineRows(s, gstart, gend, w, col0);
    if i < |first| {
      LineColumnZero(s, gstart, gend, w, col0, i);
    } else {
      var rest := AllRows(s, gend + 1, w, 0);
      assert AllRows(s, gstart, w, col0)[i] == rest[i - |first|];
      ColumnZero(s, gend + 1, w, 0, i - |first|);
    }
  }

  lemma {:induction false} LineColumnZero(s: seq<byte>, p: nat, gend: nat, w: int, col0: nat, i: nat)
    requires p <= gend <= |s| && i < |LineRows(s, p, gend, w, col0)|
    ensures LineRows(s, p, gend, w, col0)[i].col0 == if i == 0 then col0 else 0
    decreases gend - p
  {
    if i > 0 {
      LineColumnZero(s, RowAt(s, p, gend, w, col0).end, gend, w, 0, i - 1);
    }
  }

  /** Every row fits beside the prompt with the last column left free for the cursor. */
  ghost predicate Fits(s: seq<byte>, width: int, promptCols: int) {
    forall i :: 0 <= i < |Rows(s, width, promptCols)| ==>
      RowFits(s, Rows(s, width, promptCols)[i], width)
  }

  ghost predicate RowFits(s: seq<byte>, row: Row, width: int) {
    row.start <= row.end <= |s| && row.col0 + Count(s[row.start..row.end]) <= width - 1
  }

  /** A window two columns wider than the prompt is enough for every buffer. */
  lemma WideEnoughFits(s: seq<byte>, width: int, promptCols: int)
    requires width >= AtLeast(0, promptCols) + 2
    ensures Fits(s, width, promptCols)
  {
    forall i | 0 <= i < |Rows(s, width, promptCols)|
      ensures RowFits(s, Rows(s, width, promptCols)[i], width)
    {
      EveryRowIsFilled(s, width, promptCols, i);
      ColumnZero(s, 0, width, AtLeast(0, promptCols), i);
    }
  }

  /**
    Where each row starts, and how much is on it. In a wide enough window every row that is not the last of its line
    reaches exactly up to the free column; in a narrower one it holds as many code points as fit, or one.
   */
  lemma RowsAreFull(s: seq<byte>, width: int, promptCols: int, i: nat)
    requires i < |Rows(s, width, promptCols)|
    ensures var row, prompt := Rows(s, width, promptCols)[i], if promptCols < 0 then 0 else promptCols;
            && row.col0 == (if i == 0 then prompt else 0)
            && row.start <= row.end <= row.lineEnd <= |s|
            && (row.end < row.lineEnd ==>
                  var n := Count(s[row.start..row.end]);
                  && (width >= row.col0 + 2 ==> row.col0 + n == width - 1)
                  && (width < row.col0 + 2 ==> n == 1))
  {
    hide Rows, Count;
    EveryRowIsFilled(s, width, promptCols, i);
    FirstRowIsIndented(s, width, promptCols, i);
  }

  lemma FirstRowIsIndented(s: seq<byte>, width: int, promptCols: int, i: nat)
    requires i < |Rows(s, width, promptCols)|
    ensures Rows(s, width, promptCols)[i].col0 == if i > 0 || promptCols < 0 then 0 else promptCols
  {
    ColumnZero(s, 0, AtLeast(1, width), AtLeast(0, promptCols), i);
  }

  /** And it is needed as soon as there is something on the first line. */
  lemma FitsIffWideEnough(s: seq<byte>, width: int, promptCols: int)
    requires LineEnd(s, 0) > 0
    ensures Fits(s, width, promptCols) <==> width >= AtLeast(0, promptCols) + 2
  {
    if width >= AtLeast(0, promptCols) + 2 {
      WideEnoughFits(s, width, promptCols);
    } else {
      var w, col0 := AtLeast(1, width), AtLeast(0, promptCols);
      var row := RowAt(s, 0, LineEnd(s, 0), w, col0);
      assert Rows(s, width, promptCols)[0] == row;
      assert s[row.start..row.end] != [];
      assert !RowFits(s, row, width);
    }
  }

  /** In well-formed text the cursor's column stays below the last column too. */
  lemma CursorFits(s: seq<byte>, width: int, promptCols: int, cursor: nat, out: Layout)
    requires Boundary(s, cursor) && width >= AtLeast(0, promptCols) + 2
    requires IsLayout(s, cursor, width, promptCols, out)
    ensures 0 <= out.cursorCol <= width - 1
  {
    var row := Rows(s, width, promptCols)[out.cursorRow];
    WideEnoughFits(s, width, promptCols);
    assert RowFits(s, row, width);
    WellFormedAround(s, cursor);
    assert s[..0] == [] && s[0..] == s;
    AllRowsBoundary(s, 0, AtLeast(1, width), AtLeast(0, promptCols));
    CountBetween(s, row.start, cursor, row.end);
  }

  /** The cursor is drawn behind the prompt on the first row, and one column further for every character before it. */
  lemma CursorColumn(s: seq<byte>, cursor: nat, width: int, promptCols: int, out: Layout)
    requires Boundary(s, cursor) && IsLayout(s, cursor, width, promptCols, out)
    ensures var row := Rows(s, width, promptCols)[out.cursorRow];
            && row.start <= cursor <= row.end && (cursor < row.end || row.end == row.lineEnd)
            && (cursor == row.start ==>
                  out.cursorCol == if out.cursorRow > 0 || promptCols < 0 then 0 else promptCols)
            && (row.start < cursor ==>
                  Prev(s, cursor) >= row.start && out.cursorCol == ScreenColumn(s, row, Prev(s, cursor)) + 1)
  {
    hide Rows, WellFormed, Count;
    var row := Rows(s, width, promptCols)[out.cursorRow];
    FirstRowIsIndented(s, width, promptCols, out.cursorRow);
    RowStarts(s, width, promptCols, cursor, out.cursorRow);
    if cursor == row.start {
      NothingToCount(s, cursor);
    } else {
      NextOfPrev(s, cursor);
      var prev := Prev(s, cursor);
      if prev < row.start {
        NoBoundaryInside(s, prev);
        assert false;
      }
      CountBetween(s, row.start, prev, cursor);
      CountOne(s, prev);
    }
  }

  lemma RowStarts(s: seq<byte>, width: int, promptCols: int, cursor: nat, i: nat)
    requires Boundary(s, cursor) && i < |Rows(s, width, promptCols)|
    ensures Boundary(s, Rows(s, width, promptCols)[i].start)
  {
    WellFormedAround(s, cursor);
    assert s[..0] == [] && s[0..] == s;
    AllRowsBoundary(s, 0, AtLeast(1, width), AtLeast(0, promptCols));
  }

  // ----- no layout has fewer rows -----

  /** A way to lay out the text from `p` on: rows on character boundaries that leave the last column free. */
  ghost predicate FittingRows(s: seq<byte>, rows: seq<Row>, p: nat, width: int, col0: nat) {
    && Chain(s, rows, p, |s|) && OnBoundaries(s, rows)
    && forall i :: 0 <= i < |rows| ==> RowIsPlaced(s, rows[i], width, if i == 0 then col0 else 0)
  }

  ghost predicate RowIsPlaced(s: seq<byte>, row: Row, width: int, col0: nat) {
    && row.col0 == col0 && RowFits(s, row, width)
    && row.end <= row.lineEnd <= |s| && row.lineEnd == LineEnd(s, row.start)
  }

  lemma RestFits(s: seq<byte>, rows: seq<Row>, p: nat, width: int, col0: nat)
    requires FittingRows(s, rows, p, width, col0) && |rows| > 1
    ensures Adjacent(s, rows[0], rows[1]) && FittingRows(s, rows[1..], rows[1].start, width, 0)
  {
    hide Chain, RowIsPlaced;
    ChainTail(s, rows, p, |s|);
    forall i | 0 <= i < |rows[1..]|
      ensures RowIsPlaced(s, rows[1..][i], width, 0)
    {
      assert RowIsPlaced(s, rows[i + 1], width, 0);
    }
  }

  lemma SameLineEnd(s: seq<byte>, p: nat, q: nat)
    requires p <= |s| && p <= q <= LineEnd(s, p)
    ensures LineEnd(s, q) == LineEnd(s, p)
  {
  }

  lemma CountPositive(s: seq<byte>, p: nat, q: nat)
    requires p < q <= |s|
    ensures Count(s[p..q]) > 0
  {
  }

  /** From the same or a later place a full row on the same line gets at least as far. */
  lemma FullRowIsAhead(s: seq<byte>, p: nat, row: Row, width: int, col0: nat)
    requires Boundary(s, p) && Boundary(s, row.start) && Boundary(s, row.end) && row.start <= p <= row.lineEnd
    requires RowIsPlaced(s, row, width, col0)
    ensures LineEnd(s, p) == row.lineEnd
    ensures row.end <= RowAt(s, p, row.lineEnd, width, col0).end
  {
    hide WellFormed, Count, Take;
    SameLineEnd(s, row.start, p);
    var full := RowAt(s, p, row.lineEnd, width, col0);
    RowAtOk(s, p, row.lineEnd, width, col0);
    LinesAreBounded(s, p);
    RowEndBoundary(s, p, row.lineEnd, Budget(width, col0));
    if full.end < row.end {
      CountBetween(s, p, full.end, row.end);
      CountBetween(s, row.start, p, row.end);
      CountPositive(s, full.end, row.end);
      assert false;
    }
  }

  /** Where the row after the one at `p` starts. */
  function NextStart(s: seq<byte>, p: nat, row: Row): nat {
    if row.end < row.lineEnd then row.end else row.lineEnd + 1
  }

  lemma LineThenRows(s: seq<byte>, p: nat, width: int, col0: nat)
    requires p <= |s|
    ensures var gend := LineEnd(s, p);
            |AllRows(s, p, width, col0)|
            == |LineRows(s, p, gend, width, col0)| + if gend == |s| then 0 else |AllRows(s, gend + 1, width, 0)|
  {
    hide LineRows, LineEnd;
  }

  lemma RowThenLine(s: seq<byte>, p: nat, gend: nat, width: int, col0: nat)
    requires p <= gend <= |s|
    ensures var row := RowAt(s, p, gend, width, col0);
            |LineRows(s, p, gend, width, col0)| == 1 + if row.end < gend then |LineRows(s, row.end, gend, width, 0)| else 0
  {
    hide RowAt;
  }

  lemma RowThenRows(s: seq<byte>, p: nat, width: int, col0: nat)
    requires p <= |s|
    ensures var row := RowAt(s, p, LineEnd(s, p), width, col0);
            && p <= row.end <= row.lineEnd == LineEnd(s, p)
            && if row.end == |s| then |AllRows(s, p, width, col0)| == 1
            else
              var next := NextStart(s, p, row);
              p < next <= |s| && |AllRows(s, p, width, col0)| == 1 + |AllRows(s, next, width, 0)|
  {
    hide Take, AllRows, LineRows, LineEnd;
    var gend := LineEnd(s, p);
    var row := RowAt(s, p, gend, width, col0);
    LineThenRows(s, p, width, col0);
    RowThenLine(s, p, gend, width, col0);
    if row.end < gend {
      SameLineEnd(s, p, row.end);
      LineThenRows(s, row.end, width, 0);
    }
  }

  lemma NextIsBoundary(s: seq<byte>, p: nat, width: int, col0: nat)
    requires Boundary(s, p)
    ensures var row := RowAt(s, p, LineEnd(s, p), width, col0);
            row.end < |s| ==> Boundary(s, NextStart(s, p, row))
  {
    hide WellFormed, LineEnd, Take;
    LinesAreBounded(s, p);
    RowEndBoundary(s, p, LineEnd(s, p), Budget(width, col0));
  }

  /** A layout that is behind stays behind, row by row, so it has as many rows at least. */
  lemma {:induction false} StayAhead(s: seq<byte>, p: nat, rows: seq<Row>, q: nat, width: int, col0: nat)
    requires Boundary(s, p) && q <= p && FittingRows(s, rows, q, width, col0)
    ensures |AllRows(s, p, width, col0)| <= |rows|
    decreases |rows|
  {
    hide AllRows, RowAt, LineEnd, WellFormed, Count;
    var row := rows[0];
    var full := RowAt(s, p, LineEnd(s, p), width, col0);
    assert RowIsPlaced(s, row, width, col0);
    RowThenRows(s, p, width, col0);
    if full.end < |s| {
      if p <= row.lineEnd {
        FullRowIsAhead(s, p, row, width, col0);
      }
      var next := NextStart(s, p, full);
      NextIsBoundary(s, p, width, col0);
      assert |rows| > 1;
      RestFits(s, rows, q, width, col0);
      StayAhead(s, next, rows[1..], rows[1].start, width, 0);
    }
  }

  /** On well-formed text no layout whose rows leave the last column free has fewer rows. */
  lemma RowsAreFewest(s: seq<byte>, width: int, promptCols: int, rows: seq<Row>)
    requires WellFormed(s) && FittingRows(s, rows, 0, width, if promptCols < 0 then 0 else promptCols)
    ensures |Rows(s, width, promptCols)| <= |rows|
  {
    assert s[..0] == [] && s[0..] == s && WellFormed([]);
    hide WellFormed, Count;
    assert RowIsPlaced(s, rows[0], width, AtLeast(0, promptCols));
    StayAhead(s, 0, rows, 0, width, AtLeast(0, promptCols));
  }

  /** And in a wide enough window the program's layout is one of them. */
  lemma RowsAreFitting(s: seq<byte>, width: int, promptCols: int)
    requires WellFormed(s) && width >= (if promptCols < 0 then 0 else promptCols) + 2
    ensures FittingRows(s, Rows(s, width, promptCols), 0, width, if promptCols < 0 then 0 else promptCols)
  {
    assert s[..0] == [] && s[0..] == s && WellFormed([]);
    hide WellFormed, Count, Chain, Rows, RowIsPlaced;
    RowsPartitionTheBuffer(s, width, promptCols);
    RowsOnBoundaries(s, width, promptCols);
    var rows := Rows(s, width, promptCols);
    forall i | 0 <= i < |rows|
      ensures RowIsPlaced(s, rows[i], width, if i > 0 || promptCols < 0 then 0 else promptCols)
    {
      EveryRowIsPlaced(s, width, promptCols, i);
    }
  }

  lemma EveryRowIsPlaced(s: seq<byte>, width: int, promptCols: int, i: nat)
    requires width >= (if promptCols < 0 then 0 else promptCols) + 2 && i < |Rows(s, width, promptCols)|
    ensures RowIsPlaced(s, Rows(s, width, promptCols)[i], width, if i > 0 || promptCols < 0 then 0 else promptCols)
  {
    hide Rows, Count;
    WideEnoughFits(s, width, promptCols);
    EveryRowIsFilled(s, width, promptCols, i);
    FirstRowIsIndented(s, width, promptCols, i);
    assert RowFits(s, Rows(s, width, promptCols)[i], width);
  }

  lemma RowsOnBoundaries(s: seq<byte>, width: int, promptCols: int)
    requires Boundary(s, 0)
    ensures OnBoundaries(s, Rows(s, width, promptCols))
  {
    AllRowsBoundary(s, 0, AtLeast(1, width), AtLeast(0, promptCols));
  }
}
