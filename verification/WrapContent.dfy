/** What wrapping keeps of a text: its non-space bytes, its characters, and the width asked for. */
module WrapContent {
  import opened Sequences
  import opened Utf8
  import opened TextWrap

  // ----- nothing but spaces is lost -----

  function NonSpace(s: seq<byte>): seq<byte> {
    if s == [] then [] else NonSpace(s[..|s| - 1]) + if s[|s| - 1] == SPACE then [] else [s[|s| - 1]]
  }

  lemma {:induction false} NonSpaceConcat(a: seq<byte>, b: seq<byte>)
    ensures NonSpace(a + b) == NonSpace(a) + NonSpace(b)
  {
    if b == [] {
      assert a + b == a;
    } else {
      NonSpaceConcat(a, b[..|b| - 1]);
      assert (a + b)[..|a + b| - 1] == a + b[..|b| - 1];
    }
  }

  lemma {:induction false} NonSpaceOfWord(w: seq<byte>)
    requires NoSpace(w)
    ensures NonSpace(w) == w
  {
    if w != [] {
      NonSpaceOfWord(w[..|w| - 1]);
    }
  }

  lemma {:induction false} ConcatParts(a: seq<seq<byte>>, b: seq<seq<byte>>)
    ensures Concat(a + b) == Concat(a) + Concat(b)
  {
    if b == [] {
      assert a + b == a;
    } else {
      ConcatParts(a, b[..|b| - 1]);
      assert (a + b)[..|a + b| - 1] == a + b[..|b| - 1];
    }
  }

  lemma ConcatSnoc(a: seq<seq<byte>>, last: seq<byte>)
    ensures Concat(a + [last]) == Concat(a) + last
  {
    assert (a + [last])[..|a|] == a;
  }

  lemma ConcatCons(first: seq<byte>, rest: seq<seq<byte>>)
    ensures Concat([first] + rest) == first + Concat(rest)
  {
    ConcatParts([first], rest);
    assert [first][..0] == [];
    assert Concat([first]) == first;
  }

  /** The words of a paragraph are its non-space bytes. */
  lemma {:induction false} WordsAreTheNonSpaces(s: seq<byte>)
    ensures Concat(Words(s)) == NonSpace(s)
    decreases |s|
  {
    if s == [] {
    } else if s[0] == SPACE {
      WordsAreTheNonSpaces(s[1..]);
      NonSpaceConcat([SPACE], s[1..]);
      assert s == [SPACE] + s[1..];
      assert [SPACE][..0] == [];
      assert NonSpace([SPACE]) == [];
    } else {
      var k := WordEnd(s);
      WordsAreTheNonSpaces(s[k..]);
      ConcatCons(s[..k], Words(s[k..]));
      NonSpaceConcat(s[..k], s[k..]);
      NonSpaceOfWord(s[..k]);
      assert s == s[..k] + s[k..];
    }
  }

  /** The non-space bytes a state holds. */
  function Held(st: Wrap): seq<byte> {
    NonSpace(Concat(st.out) + st.line)
  }

  lemma FlushHolds(st: Wrap)
    ensures Held(Flush(st)) == Held(st) && Flush(st).line == []
  {
    ConcatSnoc(st.out, st.line);
    assert Concat(Flush(st).out) + [] == Concat(Flush(st).out);
  }

  lemma NonSpaceOfSpace(a: seq<byte>)
    ensures NonSpace(a + [SPACE]) == NonSpace(a)
  {
    assert (a + [SPACE])[..|a|] == a;
  }

  lemma NonSpaceOfMore(a: seq<byte>, word: seq<byte>)
    requires NoSpace(word)
    ensures NonSpace(a + word) == NonSpace(a) + word
  {
    NonSpaceConcat(a, word);
    NonSpaceOfWord(word);
  }

  lemma PlaceHolds(st: Wrap, word: seq<byte>, width: nat)
    requires NoSpace(word)
    ensures Held(Place(st, word, width)) == Held(st) + word
  {
    var held := Concat(st.out) + st.line;
    if st.line == [] {
      assert held == Concat(st.out);
      NonSpaceOfMore(held, word);
    } else if st.cols + 1 + Count(word) <= width {
      NonSpaceOfSpace(held);
      NonSpaceOfMore(held + [SPACE], word);
      assert held + [SPACE] + word == Concat(st.out) + (st.line + [SPACE] + word);
    } else {
      ConcatSnoc(st.out, st.line);
      NonSpaceOfMore(held, word);
    }
  }

  lemma HardBreakHolds(st: Wrap, word: seq<byte>, width: nat)
    requires NoSpace(word)
    ensures Held(HardBreak(st, word, width)) == Held(st) + word[..Take(word, width)]
  {
    var chunk := word[..Take(word, width)];
    var flushed := Flush(st);
    FlushHolds(st);
    NonSpaceOfWord(chunk);
    ConcatSnoc(flushed.out, chunk);
    NonSpaceConcat(Concat(flushed.out), chunk);
    assert Concat(flushed.out) + [] == Concat(flushed.out);
    assert Concat(flushed.out + [chunk]) + [] == Concat(flushed.out + [chunk]);
  }

  lemma TwoParts(held: seq<byte>, word: seq<byte>, n: nat)
    requires n <= |word|
    ensures held + word[..n] + word[n..] == held + word
  {
  }

  lemma {:induction false} AddWordHolds(st: Wrap, word: seq<byte>, width: nat)
    requires width >= 1 && NoSpace(word)
    ensures Held(AddWord(st, word, width)) == Held(st) + word
    decreases |word|
  {
    if Count(word) > width {
      var n := Take(word, width);
      HardBreakHolds(st, word, width);
      AddWordHolds(HardBreak(st, word, width), word[n..], width);
      TwoParts(Held(st), word, n);
    } else {
      PlaceHolds(st, word, width);
    }
  }

  lemma {:induction false} AddWordsHold(st: Wrap, words: seq<seq<byte>>, width: nat)
    requires width >= 1 && forall k :: 0 <= k < |words| ==> NoSpace(words[k])
    ensures Held(AddWords(st, words, width)) == Held(st) + Concat(words)
    decreases |words|
  {
    if words != [] {
      AddWordHolds(st, words[0], width);
      AddWordsHold(AddWord(st, words[0], width), words[1..], width);
      ConcatCons(words[0], words[1..]);
      assert words == [words[0]] + words[1..];
      Assoc(Held(st), words[0], Concat(words[1..]));
    }
  }

  /** Over every input the non-space bytes come out unchanged and in order. */
  lemma WrapKeepsNonSpaces(para: seq<byte>, width: nat)
    requires width >= 1
    ensures NonSpace(Concat(Wrapped(para, width))) == NonSpace(para)
  {
    if para == [] {
      var blank: seq<seq<byte>> := [[]];
      assert blank[..0] == [] && Concat(blank) == [];
    } else {
      var st := AddWords(START, Words(para), width);
      AddWordsHold(START, Words(para), width);
      WordsAreTheNonSpaces(para);
      FlushHolds(st);
      assert Concat(Flush(st).out) + [] == Concat(Flush(st).out);
      assert Held(START) == [];
    }
  }

  predicate Blank(s: seq<byte>) {
    forall k :: 0 <= k < |s| ==> s[k] == SPACE
  }

  lemma {:induction false} NoNonSpacesIff(s: seq<byte>)
    ensures NonSpace(s) == [] <==> Blank(s)
  {
    if s != [] {
      NoNonSpacesIff(s[..|s| - 1]);
    }
  }

  lemma {:induction false} NoWordsIn(s: seq<byte>)
    requires Blank(s)
    ensures Words(s) == []
  {
    if s != [] {
      NoWordsIn(s[1..]);
    }
  }

  /** A paragraph has no line at all exactly when it consists of spaces and has at least one. */
  lemma NoLinesIff(para: seq<byte>, width: nat)
    requires width >= 1
    ensures Wrapped(para, width) == [] <==> para != [] && Blank(para)
  {
    WrapKeepsNonSpaces(para, width);
    NoNonSpacesIff(para);
    if Blank(para) {
      NoWordsIn(para);
    }
  }

  /** `text` without its newlines. */
  function WithoutNewlines(text: seq<byte>): seq<byte>
    decreases |text|
  {
    var nl := FirstNewline(text);
    if nl == |text| then text else text[..nl] + WithoutNewlines(text[nl + 1..])
  }

  /** `lines` hold what `text` holds besides spaces. */
  predicate Keep(lines: seq<seq<byte>>, text: seq<byte>) {
    NonSpace(Concat(lines)) == NonSpace(text)
  }

  lemma KeepBoth(first: seq<seq<byte>>, others: seq<seq<byte>>, a: seq<byte>, b: seq<byte>)
    requires Keep(first, a) && Keep(others, b)
    ensures Keep(first + others, a + b)
  {
    ConcatParts(first, others);
    NonSpaceConcat(Concat(first), Concat(others));
    NonSpaceConcat(a, b);
  }

  lemma {:induction false} LinesKeep(text: seq<byte>, width: nat)
    requires width >= 1
    ensures Keep(WrappedText(text, width), WithoutNewlines(text))
    decreases |text|
  {
    hide Wrapped, Concat, NonSpace;
    var nl := FirstNewline(text);
    if nl == |text| {
      AtEnd(text, width);
      WrapKeepsNonSpaces(text, width);
    } else {
      var para, rest := text[..nl], text[nl + 1..];
      WrapKeepsNonSpaces(para, width);
      LinesKeep(rest, width);
      AtNewline(text, nl, width);
      KeepBoth(Wrapped(para, width), WrappedText(rest, width), para, WithoutNewlines(rest));
    }
  }

  /** The same for a whole text, whose newlines become line breaks. */
  lemma WrapTextKeepsNonSpaces(text: seq<byte>, width: nat)
    requires width >= 1
    ensures NonSpace(Concat(WrappedText(text, width))) == NonSpace(WithoutNewlines(text))
  {
    LinesKeep(text, width);
  }

  // ----- lines of well-formed text -----

  /** A line is never split inside a character and never wider than `width` columns. */
  predicate LineOk(line: seq<byte>, width: nat) {
    WellFormed(line) && Count(line) <= width
  }

  predicate AllOk(lines: seq<seq<byte>>, width: nat) {
    forall k :: 0 <= k < |lines| ==> LineOk(lines[k], width)
  }

  predicate StateOk(st: Wrap, width: nat) {
    AllOk(st.out, width) && LineOk(st.line, width) && st.cols == Count(st.line)
  }

  lemma JoinedWord(line: seq<byte>, word: seq<byte>)
    requires WellFormed(line) && WellFormed(word)
    ensures WellFormed(line + [SPACE] + word) && Count(line + [SPACE] + word) == Count(line) + 1 + Count(word)
  {
    var space: seq<byte> := [SPACE];
    AsciiChar(SPACE);
    WellFormedConcat(line, space);
    CountConcat(line, space);
    WellFormedConcat(line + space, word);
    CountConcat(line + space, word);
  }

  lemma PlaceOk(st: Wrap, word: seq<byte>, width: nat)
    requires StateOk(st, width) && LineOk(word, width)
    ensures StateOk(Place(st, word, width), width)
  {
    JoinedWord(st.line, word);
  }

  lemma {:induction false} AddWordOk(st: Wrap, word: seq<byte>, width: nat)
    requires width >= 1 && StateOk(st, width) && WellFormed(word)
    ensures StateOk(AddWord(st, word, width), width)
    decreases |word|
  {
    if Count(word) > width {
      TakeCount(word, width);
      TakeWellFormed(word, width);
      AddWordOk(HardBreak(st, word, width), word[Take(word, width)..], width);
    } else {
      PlaceOk(st, word, width);
    }
  }

  lemma {:induction false} AddWordsOk(st: Wrap, words: seq<seq<byte>>, width: nat)
    requires width >= 1 && StateOk(st, width)
    requires forall k :: 0 <= k < |words| ==> WellFormed(words[k])
    ensures StateOk(AddWords(st, words, width), width)
    decreases |words|
  {
    if words != [] {
      AddWordOk(st, words[0], width);
      AddWordsOk(AddWord(st, words[0], width), words[1..], width);
    }
  }

  lemma {:induction false} WordsWellFormed(s: seq<byte>)
    requires WellFormed(s)
    ensures forall k :: 0 <= k < |Words(s)| ==> WellFormed(Words(s)[k])
    decreases |s|
  {
    if s != [] {
      if s[0] == SPACE {
        AsciiBoundaries(s, 0);
        WordsWellFormed(s[1..]);
      } else {
        var k := WordEnd(s);
        if k < |s| {
          AsciiBoundaries(s, k);
        } else {
          assert s[..k] == s && s[k..] == [];
        }
        WordsWellFormed(s[k..]);
      }
    }
  }

  lemma WrappedLinesFit(para: seq<byte>, width: nat)
    requires width >= 1 && WellFormed(para)
    ensures AllOk(Wrapped(para, width), width)
  {
    WordsWellFormed(para);
    AddWordsOk(START, Words(para), width);
  }

  /** On well-formed UTF-8 every line is well-formed and fits, whatever the width asked for. */
  lemma {:induction false} WrappedTextFits(text: seq<byte>, width: nat)
    requires width >= 1 && WellFormed(text)
    ensures AllOk(WrappedText(text, width), width)
    decreases |text|
  {
    var nl := FirstNewline(text);
    if nl == |text| {
      WrappedLinesFit(text, width);
    } else {
      AsciiBoundaries(text, nl);
      WrappedLinesFit(text[..nl], width);
      WrappedTextFits(text[nl + 1..], width);
    }
  }
}
