/** Wrapping uses as few lines as any way to put the same words on lines. */
module WrapOptimal {
  import opened Sequences
  import opened Utf8
  import opened TextWrap
  import opened WrapContent

  // ----- greedy is optimal -----

  /** Words joined by single spaces. */
  function Join(words: seq<seq<byte>>): seq<byte> {
    if words == [] then []
    else if |words| == 1 then words[0]
    else Join(words[..|words| - 1]) + [SPACE] + words[|words| - 1]
  }

  /** Columns of a line of these words: their own, and one for every space between them. */
  function LineCols(words: seq<seq<byte>>): nat {
    if words == [] then 0
    else if |words| == 1 then Count(words[0])
    else LineCols(words[..|words| - 1]) + 1 + Count(words[|words| - 1])
  }

  /** A way to put the words on lines: non-empty groups of consecutive words, each at most `width` columns wide. */
  ghost predicate Split(lines: seq<seq<seq<byte>>>, words: seq<seq<byte>>, width: nat) {
    && Concatenated(lines) == words
    && forall k :: 0 <= k < |lines| ==> lines[k] != [] && LineCols(lines[k]) <= width
  }

  function Concatenated(lines: seq<seq<seq<byte>>>): seq<seq<byte>> {
    if lines == [] then [] else lines[0] + Concatenated(lines[1..])
  }

  /** How many of the first words fit on one line, counting on from `n` of them. */
  function Fill(words: seq<seq<byte>>, width: nat, n: nat): (k: nat)
    requires n <= |words|
    ensures n <= k <= |words|
    decreases |words| - n
  {
    if n < |words| && LineCols(words[..n + 1]) <= width then Fill(words, width, n + 1) else n
  }

  /** Fill every line as far as possible, the first word of a line always going on it. */
  function Greedy(words: seq<seq<byte>>, width: nat): (lines: seq<seq<seq<byte>>>)
    decreases |words|
  {
    if words == [] then []
    else var k := Fill(words, width, 1); [words[..k]] + Greedy(words[k..], width)
  }

  predicate AllFit(words: seq<seq<byte>>, width: nat) {
    forall k :: 0 <= k < |words| ==> Count(words[k]) <= width
  }

  lemma {:induction false} LineColsGrow(words: seq<seq<byte>>, m: nat, n: nat)
    requires m <= n <= |words|
    ensures LineCols(words[..m]) <= LineCols(words[..n])
  {
    if m < n {
      LineColsGrow(words, m, n - 1);
      assert words[..n][..n - 1] == words[..n - 1];
    }
  }

  /** A prefix of the words fits exactly when it is no longer than the greedy one. */
  lemma {:induction false} FillIsMaximal(words: seq<seq<byte>>, width: nat, n: nat, m: nat)
    requires n <= |words| && m <= |words| && LineCols(words[..n]) <= width
    ensures LineCols(words[..m]) <= width <==> m <= Fill(words, width, n)
    decreases |words| - n
  {
    if n < |words| && LineCols(words[..n + 1]) <= width {
      FillIsMaximal(words, width, n + 1, m);
    } else if m <= n {
      LineColsGrow(words, m, n);
    } else {
      LineColsGrow(words, n + 1, m);
    }
  }

  /** A line without its first words is narrower. */
  lemma {:induction false} LineColsSuffix(words: seq<seq<byte>>, j: nat)
    requires j <= |words|
    ensures LineCols(words[j..]) <= LineCols(words)
    decreases |words|
  {
    if j == |words| {
      assert words[j..] == [];
    } else if j + 1 == |words| {
      assert words[j..] == [words[j]];
    } else {
      var n := |words| - 1;
      LineColsSuffix(words[..n], j);
      assert words[..n][j..] == words[j..][..n - j];
    }
  }

  /** Fewer words never take more lines: greedy stays ahead of any other way to start a line. */
  lemma {:induction false} GreedyIsMonotone(words: seq<seq<byte>>, width: nat, j: nat)
    requires AllFit(words, width) && j <= |words|
    ensures |Greedy(words[j..], width)| <= |Greedy(words, width)|
    decreases |words|, j
  {
    hide Fill, LineCols;
    if 0 < j < |words| {
      var k := Fill(words, width, 1);
      var later := words[k..];
      if j < k {
        var i := Fill(words[j..], width, 1);
        FillAhead(words, width, j);
        DropTwice(words, j, j + i);
        DropTwice(words, k, j + i);
        GreedyIsMonotone(later, width, j + i - k);
      } else {
        DropTwice(words, k, j);
        GreedyIsMonotone(later, width, j - k);
      }
    } else if j == 0 {
      assert words[0..] == words;
    }
  }

  /** A line started later reaches at least as far. */
  lemma FillAhead(words: seq<seq<byte>>, width: nat, j: nat)
    requires AllFit(words, width) && 0 < j < |words| && j < Fill(words, width, 1)
    ensures Fill(words, width, 1) <= j + Fill(words[j..], width, 1)
  {
    hide Fill, Count;
    var k := Fill(words, width, 1);
    var rest := words[j..];
    assert LineCols(words[..1]) == Count(words[0]);
    FillIsMaximal(words, width, 1, k);
    assert LineCols(rest[..1]) == Count(words[j]);
    assert rest[..k - j] == words[..k][j..];
    LineColsSuffix(words[..k], j);
    FillIsMaximal(rest, width, 1, k - j);
  }

  /** No split has fewer lines than the greedy one. */
  lemma {:induction false} GreedyIsShortest(words: seq<seq<byte>>, width: nat, lines: seq<seq<seq<byte>>>)
    requires AllFit(words, width) && Split(lines, words, width)
    ensures |Greedy(words, width)| <= |lines|
    decreases |lines|
  {
    hide Count;
    if lines != [] {
      var m := |lines[0]|;
      var k := Fill(words, width, 1);
      assert words[..m] == lines[0] && words[m..] == Concatenated(lines[1..]);
      assert LineCols(words[..1]) == Count(words[0]);
      FillIsMaximal(words, width, 1, m);
      GreedyIsShortest(words[m..], width, lines[1..]);
      assert words[k..] == words[m..][k - m..];
      GreedyIsMonotone(words[m..], width, k - m);
    }
  }

  /** The greedy lines are a split. */
  lemma {:induction false} GreedyIsASplit(words: seq<seq<byte>>, width: nat)
    requires AllFit(words, width)
    ensures Split(Greedy(words, width), words, width)
    decreases |words|
  {
    if words != [] {
      var k := Fill(words, width, 1);
      assert LineCols(words[..1]) == Count(words[0]);
      FillIsMaximal(words, width, 1, k);
      GreedyIsASplit(words[k..], width);
      SplitCons(words, width, k, Greedy(words[k..], width));
    }
  }

  lemma SplitCons(words: seq<seq<byte>>, width: nat, k: nat, lines: seq<seq<seq<byte>>>)
    requires 0 < k <= |words| && LineCols(words[..k]) <= width && Split(lines, words[k..], width)
    ensures Split([words[..k]] + lines, words, width)
  {
    var all := [words[..k]] + lines;
    assert all[1..] == lines;
    assert words == words[..k] + words[k..];
  }

  function Joined(lines: seq<seq<seq<byte>>>): seq<seq<byte>> {
    seq(|lines|, k requires 0 <= k < |lines| => Join(lines[k]))
  }

  /** The state with the first `n` words on the line. */
  function LineOf(out: seq<seq<byte>>, words: seq<seq<byte>>, n: nat): Wrap
    requires n <= |words|
  {
    Wrap(out, Join(words[..n]), LineCols(words[..n]))
  }

  /** The next word goes on the line if the line still fits, and else starts the next one. */
  lemma PlaceNext(out: seq<seq<byte>>, words: seq<seq<byte>>, width: nat, n: nat)
    requires 1 <= n < |words| && Join(words[..n]) != []
    ensures Place(LineOf(out, words, n), words[n], width) ==
            if LineCols(words[..n + 1]) <= width then LineOf(out, words, n + 1)
            else LineOf(out + [Join(words[..n])], words[n..], 1)
  {
    assert words[..n + 1][..n] == words[..n];
    assert words[n..][..1] == [words[n]];
  }

  lemma {:induction false} JoinIsNotEmpty(words: seq<seq<byte>>)
    requires words != [] && forall k :: 0 <= k < |words| ==> words[k] != []
    ensures Join(words) != []
  {
  }

  lemma JoinedCons(first: seq<seq<byte>>, later: seq<seq<seq<byte>>>)
    ensures Joined([first] + later) == [Join(first)] + Joined(later)
  {
    hide Join;
  }

  lemma GreedyStart(words: seq<seq<byte>>, width: nat)
    requires words != []
    ensures var k := Fill(words, width, 1);
            Joined(Greedy(words, width)) == [Join(words[..k])] + Joined(Greedy(words[k..], width))
  {
    hide Join, Joined, Fill;
    var k := Fill(words, width, 1);
    JoinedCons(words[..k], Greedy(words[k..], width));
  }

  lemma NextWord(st: Wrap, words: seq<seq<byte>>, width: nat, n: nat)
    requires width >= 1 && n < |words| && Count(words[n]) <= width
    ensures AddWords(st, words[n..], width) == AddWords(Place(st, words[n], width), words[n + 1..], width)
  {
    assert words[n..][0] == words[n] && words[n..][1..] == words[n + 1..];
  }

  /** The lines that are there, the one being filled from the first `n` words, and greedily the rest. */
  function GoingOn(out: seq<seq<byte>>, words: seq<seq<byte>>, width: nat, n: nat): seq<seq<byte>>
    requires n <= |words|
  {
    var k := Fill(words, width, n);
    out + [Join(words[..k])] + Joined(Greedy(words[k..], width))
  }

  /** A full line ends here, and greedy starts the next one. */
  lemma LineEnds(out: seq<seq<byte>>, words: seq<seq<byte>>, width: nat, n: nat)
    requires 1 <= n < |words| && LineCols(words[..n + 1]) > width
    ensures GoingOn(out, words, width, n) == GoingOn(out + [Join(words[..n])], words[n..], width, 1)
  {
    hide Join, Joined, LineCols, Greedy;
    assert Fill(words, width, n) == n;
    GreedyStart(words[n..], width);
    var k := Fill(words[n..], width, 1);
    Assoc(out + [Join(words[..n])], [Join(words[n..][..k])], Joined(Greedy(words[n..][k..], width)));
  }

  lemma LastLine(out: seq<seq<byte>>, words: seq<seq<byte>>, width: nat)
    requires width >= 1 && words != [] && Join(words) != []
    ensures Flush(AddWords(LineOf(out, words, |words|), words[|words|..], width)).out
            == GoingOn(out, words, width, |words|)
  {
    hide Join, LineCols;
    assert words[..|words|] == words && words[|words|..] == [];
  }

  /** With `n` words on the line, the loop goes on as the greedy split does. */
  lemma {:induction false} WrapIsGreedy(out: seq<seq<byte>>, words: seq<seq<byte>>, width: nat, n: nat)
    requires width >= 1 && AllFit(words, width) && 1 <= n <= |words|
    requires forall k :: 0 <= k < |words| ==> words[k] != []
    ensures Flush(AddWords(LineOf(out, words, n), words[n..], width)).out == GoingOn(out, words, width, n)
    decreases |words|, |words| - n
  {
    hide Join, Count, LineCols, Flush, AddWords, Place, LineOf, Joined, Greedy;
    var line := Join(words[..n]);
    JoinIsNotEmpty(words[..n]);
    if n < |words| {
      PlaceNext(out, words, width, n);
      NextWord(LineOf(out, words, n), words, width, n);
      if LineCols(words[..n + 1]) <= width {
        WrapIsGreedy(out, words, width, n + 1);
      } else {
        DropTwice(words, n, n + 1);
        WrapIsGreedy(out + [line], words[n..], width, 1);
        LineEnds(out, words, width, n);
      }
    } else {
      assert words[..n] == words;
      LastLine(out, words, width);
    }
  }

  lemma FirstWord(words: seq<seq<byte>>, width: nat)
    requires width >= 1 && words != [] && Count(words[0]) <= width
    ensures AddWords(START, words, width) == AddWords(LineOf([], words, 1), words[1..], width)
  {
    assert words[..1] == [words[0]];
    assert Place(START, words[0], width) == LineOf([], words, 1);
  }

  lemma NothingToWrap(width: nat)
    requires width >= 1
    ensures Flush(AddWords(START, [], width)).out == Joined(Greedy([], width))
  {
  }

  /** Adding words that fit gives the greedy lines. */
  lemma AddingIsGreedy(words: seq<seq<byte>>, width: nat)
    requires width >= 1 && AllFit(words, width) && forall k :: 0 <= k < |words| ==> words[k] != []
    ensures Flush(AddWords(START, words, width)).out == Joined(Greedy(words, width))
  {
    hide Greedy, Joined, Join, Fill, AddWords, LineOf, Flush;
    if words == [] {
      NothingToWrap(width);
    } else {
      WrapIsGreedy([], words, width, 1);
      FirstWord(words, width);
      GreedyStart(words, width);
    }
  }

  /**
    For a paragraph whose words all fit, the lines are a split of its words joined by single spaces,
    and no split has fewer lines.
   */
  lemma WrapUsesFewestLines(para: seq<byte>, width: nat)
    requires width >= 1 && para != [] && AllFit(Words(para), width)
    ensures Wrapped(para, width) == Joined(Greedy(Words(para), width))
    ensures Split(Greedy(Words(para), width), Words(para), width)
    ensures forall lines :: Split(lines, Words(para), width) ==> |Wrapped(para, width)| <= |lines|
  {
    AddingIsGreedy(Words(para), width);
    GreedyIsASplit(Words(para), width);
    forall lines | Split(lines, Words(para), width)
      ensures |Wrapped(para, width)| <= |lines|
    {
      hide Wrapped, Words, Split, AllFit;
      GreedyIsShortest(Words(para), width, lines);
    }
  }

  // ----- the columns of the lines themselves -----

  /** On well-formed words the sum of their columns and the spaces between them is the width of the joined line. */
  lemma {:induction false} JoinedCols(words: seq<seq<byte>>)
    requires forall k :: 0 <= k < |words| ==> WellFormed(words[k])
    ensures WellFormed(Join(words)) && Count(Join(words)) == LineCols(words)
    decreases |words|
  {
    hide WellFormed, Count;
    if words == [] {
      NothingHasNoCols();
    } else if |words| > 1 {
      var n := |words| - 1;
      JoinedCols(words[..n]);
      JoinedWord(Join(words[..n]), words[n]);
    }
  }

  lemma NothingHasNoCols()
    ensures WellFormed([]) && Count([]) == 0
  {
  }

  /** A way to put the words on lines, measured as the user sees it: joined by spaces, each line fits the width. */
  ghost predicate FittingLines(lines: seq<seq<seq<byte>>>, words: seq<seq<byte>>, width: nat) {
    && Concatenated(lines) == words
    && forall k :: 0 <= k < |lines| ==> lines[k] != [] && Count(Join(lines[k])) <= width
  }

  lemma {:induction false} PartsOfWords(lines: seq<seq<seq<byte>>>, words: seq<seq<byte>>, k: nat)
    requires Concatenated(lines) == words && k < |lines| && forall i :: 0 <= i < |words| ==> WellFormed(words[i])
    ensures forall i :: 0 <= i < |lines[k]| ==> WellFormed(lines[k][i])
    decreases |lines|
  {
    hide WellFormed;
    if k > 0 {
      var rest := Concatenated(lines[1..]);
      assert words == lines[0] + rest;
      assert forall i :: 0 <= i < |rest| ==> rest[i] == words[|lines[0]| + i];
      PartsOfWords(lines[1..], rest, k - 1);
    } else {
      assert forall i :: 0 <= i < |lines[0]| ==> lines[0][i] == words[i];
    }
  }

  lemma SplitIffFitting(lines: seq<seq<seq<byte>>>, words: seq<seq<byte>>, width: nat)
    requires forall i :: 0 <= i < |words| ==> WellFormed(words[i])
    ensures Split(lines, words, width) <==> FittingLines(lines, words, width)
  {
    hide WellFormed, Count, LineCols, Join;
    if Concatenated(lines) == words {
      forall k | 0 <= k < |lines|
        ensures Count(Join(lines[k])) == LineCols(lines[k])
      {
        PartsOfWords(lines, words, k);
        JoinedCols(lines[k]);
      }
    }
  }

  /**
    For a well-formed paragraph whose words all fit, the lines are its words joined by spaces, each at most `width`
    code points wide, and no other way to put the words on lines of at most `width` code points has fewer lines.
   */
  lemma WrapUsesFewestColumns(para: seq<byte>, width: nat)
    requires width >= 1 && para != [] && WellFormed(para) && AllFit(Words(para), width)
    ensures exists lines :: FittingLines(lines, Words(para), width) && Wrapped(para, width) == Joined(lines)
    ensures forall lines :: FittingLines(lines, Words(para), width) ==> |Wrapped(para, width)| <= |lines|
  {
    hide WellFormed, AllFit, Wrapped, Words, Greedy, Split, FittingLines;
    WordsWellFormed(para);
    WrapUsesFewestLines(para, width);
    SplitIffFitting(Greedy(Words(para), width), Words(para), width);
    forall lines | FittingLines(lines, Words(para), width)
      ensures |Wrapped(para, width)| <= |lines|
    {
      SplitIffFitting(lines, Words(para), width);
    }
  }

  /** On malformed bytes the two measures differ: two words that join to one code point. */
  lemma MalformedColumnsDiffer()
    ensures Count(Join([[0xF0], [97]])) == 1 && LineCols([[0xF0], [97]]) == 3
  {
    var words: seq<seq<byte>> := [[0xF0], [97]];
    assert words[..1] == [[0xF0]];
    var line := Join(words);
    assert line == [0xF0, SPACE, 97];
    assert line[Step(line)..] == [];
  }
}
