/** Words that are too wide for a line, and wrapping for all words. */
module WrapPieces {
  import opened Utf8
  import opened TextWrap
  import opened WrapContent
  import opened WrapOptimal

  // ----- the pieces of a word -----

  /** A word cut into lines of its own, from the left. */
  function Pieces(word: seq<byte>, width: nat): (pieces: seq<seq<byte>>)
    requires width >= 1
    ensures pieces != [] && (word != [] ==> forall k :: 0 <= k < |pieces| ==> pieces[k] != [])
    decreases |word|
  {
    if Count(word) <= width then [word]
    else
      TakeAllIff(word, width);
      [word[..Take(word, width)]] + Pieces(word[Take(word, width)..], width)
  }

  lemma CountIsPositive(s: seq<byte>)
    requires s != []
    ensures Count(s) >= 1
  {
  }

  /** All pieces but the last are exactly as wide as a line, no piece is wider, and together they are the word. */
  lemma {:induction false} PiecesAreFull(word: seq<byte>, width: nat)
    requires width >= 1
    ensures var pieces := Pieces(word, width);
            && Concat(pieces) == word && AllFit(pieces, width)
            && forall k :: 0 <= k < |pieces| - 1 ==> Count(pieces[k]) == width
    decreases |word|
  {
    hide Count, Take, Concat;
    if Count(word) <= width {
      ConcatCons(word, []);
      ConcatOfNothing();
      assert [word] + [] == [word] && word + [] == word;
    } else {
      var t := Take(word, width);
      TakeCount(word, width);
      PiecesAreFull(word[t..], width);
      ConcatCons(word[..t], Pieces(word[t..], width));
    }
  }

  lemma ConcatOfNothing()
    ensures Concat([]) == []
  {
  }

  predicate AllWellFormed(parts: seq<seq<byte>>) {
    forall k :: 0 <= k < |parts| ==> WellFormed(parts[k])
  }

  lemma {:induction false} CountOfParts(parts: seq<seq<byte>>, width: nat)
    requires AllWellFormed(parts) && AllFit(parts, width)
    ensures WellFormed(Concat(parts)) && Count(Concat(parts)) <= |parts| * width
    decreases |parts|
  {
    hide WellFormed, Count;
    if parts == [] {
      NothingIsWellFormed();
    } else {
      var front, last := parts[..|parts| - 1], parts[|parts| - 1];
      CountOfParts(front, width);
      CountConcat(Concat(front), last);
      WellFormedConcat(Concat(front), last);
      assert |parts| * width == |front| * width + width;
    }
  }

  lemma NothingIsWellFormed()
    ensures WellFormed([]) && Count([]) == 0
  {
  }

  lemma {:induction false} CountOfPieces(word: seq<byte>, width: nat)
    requires width >= 1 && WellFormed(word) && word != []
    ensures AllWellFormed(Pieces(word, width))
    ensures Count(word) > (|Pieces(word, width)| - 1) * width
    decreases |word|
  {
    hide WellFormed, Count, Take;
    if Count(word) <= width {
      CountIsPositive(word);
    } else {
      var t := Take(word, width);
      TakeCount(word, width);
      TakeWellFormed(word, width);
      TakeAllIff(word, width);
      CountOfPieces(word[t..], width);
      CountConcat(word[..t], word[t..]);
      assert word == word[..t] + word[t..];
      assert (|Pieces(word, width)| - 1) * width == (|Pieces(word[t..], width)| - 1) * width + width;
    }
  }

  /** A well-formed word is cut into well-formed pieces, and no way to cut it into parts that fit has fewer of them. */
  lemma PiecesAreFewest(word: seq<byte>, width: nat, parts: seq<seq<byte>>)
    requires width >= 1 && WellFormed(word) && word != []
    requires Concat(parts) == word && AllWellFormed(parts) && AllFit(parts, width)
    ensures AllWellFormed(Pieces(word, width)) && |Pieces(word, width)| <= |parts|
  {
    hide WellFormed, Count, Concat, Pieces;
    CountOfPieces(word, width);
    CountOfParts(parts, width);
    if |parts| < |Pieces(word, width)| {
      LessTimes(|parts|, |Pieces(word, width)| - 1, width);
      assert false;
    }
  }

  lemma LessTimes(a: nat, b: nat, width: nat)
    requires a <= b
    ensures a * width <= b * width
  {
  }

  // ----- wrapping goes piece by piece -----

  predicate NewLineIsEmpty(st: Wrap) {
    st.line == [] ==> st.cols == 0
  }

  /** The same lines, up to a full last line that `s` has finished and `t` has not. */
  predicate SameLines(s: Wrap, t: Wrap, width: nat) {
    && NewLineIsEmpty(s) && NewLineIsEmpty(t)
    && (s == t || (s == Flush(t) && t.line != [] && t.cols == width))
  }

  lemma PlaceOnSame(s: Wrap, t: Wrap, word: seq<byte>, width: nat)
    requires SameLines(s, t, width) && word != []
    ensures Place(s, word, width) == Place(t, word, width) && NewLineIsEmpty(Place(t, word, width))
  {
    CountIsPositive(word);
  }

  /** Breaking off a full piece is putting it on a line as a word. */
  lemma BreakIsPlace(s: Wrap, t: Wrap, word: seq<byte>, width: nat)
    requires SameLines(s, t, width) && width >= 1 && Count(word) > width
    ensures SameLines(HardBreak(s, word, width), Place(t, word[..Take(word, width)], width), width)
  {
    hide Count, Take;
    TakeCount(word, width);
    TakeAllIff(word, width);
    assert Take(word, width) > 0 by {
      TakesSomething(word, width);
    }
  }

  lemma TakesSomething(word: seq<byte>, width: nat)
    requires word != [] && width >= 1
    ensures Take(word, width) > 0
  {
  }

  lemma AddOne(t: Wrap, first: seq<byte>, rest: seq<seq<byte>>, width: nat)
    requires width >= 1 && Count(first) <= width
    ensures AddWords(t, [first] + rest, width) == AddWords(Place(t, first, width), rest, width)
  {
    assert ([first] + rest)[1..] == rest;
  }

  lemma NoWords(t: Wrap, width: nat)
    requires width >= 1
    ensures AddWords(t, [], width) == t
  {
  }

  lemma {:induction false} PieceByPiece(s: Wrap, t: Wrap, word: seq<byte>, width: nat)
    requires width >= 1 && SameLines(s, t, width) && word != []
    ensures AddWord(s, word, width) == AddWords(t, Pieces(word, width), width)
    ensures NewLineIsEmpty(AddWord(s, word, width))
    decreases |word|
  {
    hide Count, Take, Place, HardBreak, SameLines, AddWords;
    if Count(word) <= width {
      PlaceOnSame(s, t, word, width);
      AddOne(t, word, [], width);
      NoWords(Place(t, word, width), width);
      assert [word] + [] == [word];
    } else {
      var n := Take(word, width);
      TakeCount(word, width);
      TakeAllIff(word, width);
      BreakIsPlace(s, t, word, width);
      PieceByPiece(HardBreak(s, word, width), Place(t, word[..n], width), word[n..], width);
      AddOne(t, word[..n], Pieces(word[n..], width), width);
    }
  }

  function AllPieces(words: seq<seq<byte>>, width: nat): seq<seq<byte>>
    requires width >= 1
  {
    if words == [] then [] else Pieces(words[0], width) + AllPieces(words[1..], width)
  }

  lemma {:induction false} AddWordsConcat(st: Wrap, a: seq<seq<byte>>, b: seq<seq<byte>>, width: nat)
    requires width >= 1
    ensures AddWords(st, a + b, width) == AddWords(AddWords(st, a, width), b, width)
    decreases |a|
  {
    hide AddWord;
    if a == [] {
      assert a + b == b;
    } else {
      AddWordsConcat(AddWord(st, a[0], width), a[1..], b, width);
      assert (a + b)[0] == a[0] && (a + b)[1..] == a[1..] + b;
    }
  }

  predicate NoneEmpty(words: seq<seq<byte>>) {
    forall k :: 0 <= k < |words| ==> words[k] != []
  }

  lemma {:induction false} AllPieceByPiece(st: Wrap, words: seq<seq<byte>>, width: nat)
    requires width >= 1 && NewLineIsEmpty(st) && NoneEmpty(words)
    ensures AddWords(st, words, width) == AddWords(st, AllPieces(words, width), width)
    ensures AllFit(AllPieces(words, width), width) && NoneEmpty(AllPieces(words, width))
    decreases |words|
  {
    hide AddWord, Pieces, Count;
    if words != [] {
      var next := AddWord(st, words[0], width);
      PieceByPiece(st, st, words[0], width);
      PiecesAreFull(words[0], width);
      AllPieceByPiece(next, words[1..], width);
      AddWordsConcat(st, Pieces(words[0], width), AllPieces(words[1..], width), width);
    }
  }

  /**
    For every paragraph: wrapping is greedy on its words, where those that are too wide are cut into pieces, and no
    way to put these words and pieces on lines has fewer lines.
   */
  lemma WrapIsGreedyOnPieces(para: seq<byte>, width: nat)
    requires width >= 1 && para != []
    ensures var parts := AllPieces(Words(para), width);
            && Wrapped(para, width) == Joined(Greedy(parts, width)) && Split(Greedy(parts, width), parts, width)
            && forall lines :: Split(lines, parts, width) ==> |Wrapped(para, width)| <= |lines|
  {
    hide Words, AddWords, Flush, Greedy, Joined, Split, AllPieces, Count;
    var parts := AllPieces(Words(para), width);
    AllPieceByPiece(START, Words(para), width);
    AddingIsGreedy(parts, width);
    GreedyIsASplit(parts, width);
    forall lines | Split(lines, parts, width)
      ensures |Wrapped(para, width)| <= |lines|
    {
      GreedyIsShortest(parts, width, lines);
      JoinedLength(Greedy(parts, width));
    }
  }

  lemma JoinedLength(lines: seq<seq<seq<byte>>>)
    ensures |Joined(lines)| == |lines|
  {
  }
}
