/** Greedy word wrap of src/ui/TextWrap.cpp. */
module TextWrap {
  import opened Sequences
  import opened Utf8

  // ----- words -----

  predicate NoSpace(s: seq<byte>) {
    forall k :: 0 <= k < |s| ==> s[k] != SPACE
  }

  /** Length of the longest prefix without a space. */
  function WordEnd(s: seq<byte>): (k: nat)
    ensures k <= |s| && NoSpace(s[..k]) && (k < |s| ==> s[k] == SPACE)
    ensures s != [] && s[0] != SPACE ==> k > 0
  {
    if s == [] || s[0] == SPACE then 0
    else
      var k := WordEnd(s[1..]);
      assert s[..k + 1] == [s[0]] + s[1..][..k];
      k + 1
  }

  /** The words of a paragraph: its longest parts without spaces. */
  function Words(s: seq<byte>): (words: seq<seq<byte>>)
    ensures forall k :: 0 <= k < |words| ==> words[k] != [] && NoSpace(words[k])
    decreases |s|
  {
    if s == [] then []
    else if s[0] == SPACE then Words(s[1..])
    else [s[..WordEnd(s)]] + Words(s[WordEnd(s)..])
  }

  /** A word is as long as possible: it ends at a space or where the paragraph ends. */
  lemma WordsEndAtSpaces(word: seq<byte>, rest: seq<byte>)
    requires word != [] && NoSpace(word)
    ensures Words(word) == [word]
    ensures Words(word + [SPACE] + rest) == [word] + Words(rest)
    ensures Words([SPACE] + rest) == Words(rest)
  {
    WordEndIs(word, rest);
    var s := word + [SPACE] + rest;
    assert word[..|word|] == word && word[|word|..] == [] && s[0] == word[0];
    assert s[..|word|] == word && s[|word|..] == [SPACE] + rest && ([SPACE] + rest)[1..] == rest;
  }

  lemma {:induction false} WordEndIs(word: seq<byte>, rest: seq<byte>)
    requires NoSpace(word)
    ensures WordEnd(word) == |word| && WordEnd(word + [SPACE] + rest) == |word|
  {
    if word == [] {
      assert (word + [SPACE] + rest)[0] == SPACE;
    } else {
      WordEndIs(word[1..], rest);
      assert (word + [SPACE] + rest)[1..] == word[1..] + [SPACE] + rest;
    }
  }

  function Concat(parts: seq<seq<byte>>): seq<byte> {
    if parts == [] then [] else Concat(parts[..|parts| - 1]) + parts[|parts| - 1]
  }

  // ----- wrapping -----

  /** The lines pushed so far, the line being filled, and its width in columns. */
  datatype Wrap = Wrap(out: seq<seq<byte>>, line: seq<byte>, cols: nat)

  const START := Wrap([], [], 0)

  function Flush(st: Wrap): Wrap {
    if st.line == [] then st else Wrap(st.out + [st.line], [], 0)
  }

  /** Puts a word that fits on the line, or on the next one. */
  function Place(st: Wrap, word: seq<byte>, width: nat): Wrap {
    var c := Count(word);
    if st.line == [] then Wrap(st.out, word, c)
    else if st.cols + 1 + c <= width then Wrap(st.out, st.line + [SPACE] + word, st.cols + 1 + c)
    else Wrap(st.out + [st.line], word, c)
  }

  /** The first full line of a word that is too wide, on a line of its own. */
  function HardBreak(st: Wrap, word: seq<byte>, width: nat): Wrap {
    var flushed := Flush(st);
    flushed.(out := flushed.out + [word[..Take(word, width)]])
  }

  /** Adds a word, broken on character boundaries while it is wider than a line. */
  function AddWord(st: Wrap, word: seq<byte>, width: nat): Wrap
    requires width >= 1
    decreases |word|
  {
    if Count(word) > width then AddWord(HardBreak(st, word, width), word[Take(word, width)..], width)
    else Place(st, word, width)
  }

  function AddWords(st: Wrap, words: seq<seq<byte>>, width: nat): Wrap
    requires width >= 1
    decreases |words|
  {
    if words == [] then st else AddWords(AddWord(st, words[0], width), words[1..], width)
  }

  /** The lines of a paragraph. A blank paragraph is one blank line; one of spaces only has no line at all. */
  function Wrapped(para: seq<byte>, width: nat): seq<seq<byte>>
    requires width >= 1
  {
    if para == [] then [[]] else Flush(AddWords(START, Words(para), width)).out
  }

  function FirstNewline(text: seq<byte>): (k: nat)
    ensures k <= |text| && (k < |text| ==> text[k] == NEWLINE)
    ensures NEWLINE !in text[..k]
  {
    if text == [] || text[0] == NEWLINE then 0
    else
      var k := FirstNewline(text[1..]);
      assert text[..k + 1] == [text[0]] + text[1..][..k];
      k + 1
  }

  /** The lines of a text, paragraph by paragraph. */
  function WrappedText(text: seq<byte>, width: nat): seq<seq<byte>>
    requires width >= 1
    decreases |text|
  {
    var nl := FirstNewline(text);
    if nl == |text| then Wrapped(text, width)
    else Wrapped(text[..nl], width) + WrappedText(text[nl + 1..], width)
  }

  lemma {:induction false} FirstNewlineIs(para: seq<byte>, rest: seq<byte>)
    requires NEWLINE !in para
    ensures FirstNewline(para) == |para| && FirstNewline(para + [NEWLINE] + rest) == |para|
  {
    if para == [] {
      assert (para + [NEWLINE] + rest)[0] == NEWLINE;
    } else {
      assert forall b :: b in para[1..] ==> b in para;
      FirstNewlineIs(para[1..], rest);
      assert (para + [NEWLINE] + rest)[1..] == para[1..] + [NEWLINE] + rest;
    }
  }

  /** Every newline ends a paragraph, which is wrapped on its own; a blank one is one blank line. */
  lemma ParagraphsAreWrappedApart(para: seq<byte>, rest: seq<byte>, width: nat)
    requires width >= 1 && NEWLINE !in para
    ensures WrappedText(para, width) == Wrapped(para, width)
    ensures WrappedText(para + [NEWLINE] + rest, width) == Wrapped(para, width) + WrappedText(rest, width)
    ensures Wrapped([], width) == [[]]
  {
    hide Wrapped;
    FirstNewlineIs(para, rest);
    var text := para + [NEWLINE] + rest;
    assert text[..|para|] == para && text[|para| + 1..] == rest;
    assert Wrapped([], width) == [[]] by {
      BlankParagraph(width);
    }
  }

  lemma BlankParagraph(width: nat)
    requires width >= 1
    ensures Wrapped([], width) == [[]]
  {
  }

  // ----- the loops -----

  /** The hard-break loop: it ends because every chunk takes at least one byte. */
  method BreakWord(st: Wrap, whole: seq<byte>, width: nat) returns (broken: Wrap, word: seq<byte>)
    requires width >= 1
    ensures Count(word) <= width
    ensures AddWord(st, whole, width) == Place(broken, word, width)
  {
    broken, word := st, whole;
    var c := CountCodePoints(word);
    while c > width
      invariant c == Count(word)
      invariant AddWord(broken, word, width) == AddWord(st, whole, width)
      decreases |word|
    {
      if broken.line != [] {
        broken := Wrap(broken.out + [broken.line], [], 0);
      }
      var n := TakeCols(word, width);
      broken := broken.(out := broken.out + [word[..n]]);
      word := word[n..];
      c := CountCodePoints(word);
    }
  }

  method PlaceWord(st: Wrap, word: seq<byte>, width: nat) returns (next: Wrap)
    ensures next == Place(st, word, width)
  {
    var c := CountCodePoints(word);
    if st.line == [] {
      next := Wrap(st.out, word, c);
    } else if st.cols + 1 + c <= width {
      next := Wrap(st.out, st.line + [SPACE] + word, st.cols + 1 + c);
    } else {
      next := Wrap(st.out + [st.line], word, c);
    }
  }

  method SkipSpaces(para: seq<byte>, start: nat) returns (i: nat)
    requires start <= |para|
    ensures start <= i <= |para| && (i < |para| ==> para[i] != SPACE)
    ensures Words(para[i..]) == Words(para[start..])
  {
    i := start;
    while i < |para| && para[i] == SPACE
      invariant start <= i <= |para|
      invariant Words(para[i..]) == Words(para[start..])
    {
      assert para[i..][1..] == para[i + 1..];
      i := i + 1;
    }
  }

  method EndOfWord(para: seq<byte>, start: nat) returns (i: nat)
    requires start < |para| && para[start] != SPACE
    ensures start < i <= |para| && Words(para[start..]) == [para[start..i]] + Words(para[i..])
  {
    i := start;
    ghost var rest := para[start..];
    ghost var end := WordEnd(rest);
    while i < |para| && para[i] != SPACE
      invariant start <= i <= start + end
    {
      WordGoesOn(rest, i - start);
      i := i + 1;
    }
    if i < |para| {
      WordStops(rest, i - start);
    }
    assert para[start..][..end] == para[start..i] && para[start..][end..] == para[i..];
  }

  lemma WordStops(rest: seq<byte>, k: nat)
    requires k <= WordEnd(rest) && k < |rest| && rest[k] == SPACE
    ensures k == WordEnd(rest)
  {
    assert forall i :: 0 <= i < WordEnd(rest) ==> rest[..WordEnd(rest)][i] == rest[i];
  }

  lemma WordGoesOn(rest: seq<byte>, k: nat)
    requires k <= WordEnd(rest) && k < |rest| && rest[k] != SPACE
    ensures k < WordEnd(rest)
  {
  }

  method WrapParagraph(para: seq<byte>, width: nat) returns (out: seq<seq<byte>>)
    requires width >= 1
    ensures out == Wrapped(para, width)
  {
    if para == [] {
      return [[]];
    }
    var st := START;
    var i := 0;
    ghost var words := Words(para);
    assert para[0..] == para;
    while i < |para|
      invariant 0 <= i <= |para|
      invariant words == Words(para[i..])
      invariant AddWords(st, words, width) == AddWords(START, Words(para), width)
    {
      i := SkipSpaces(para, i);
      if i >= |para| {
        break;
      }
      var wordBegin := i;
      i := EndOfWord(para, wordBegin);
      var word;
      ghost var whole := para[wordBegin..i];
      ghost var before := st;
      st, word := BreakWord(st, para[wordBegin..i], width);
      st := PlaceWord(st, word, width);
      assert st == AddWord(before, whole, width);
      assert words[0] == whole && words[1..] == Words(para[i..]);
      words := words[1..];
    }
    out := st.out;
    if st.line != [] {
      out := out + [st.line];
    }
  }

  /** A width below 1 counts as 1. */
  function AtLeastOne(width: int): nat {
    if width < 1 then 1 else width
  }

  method WrapText(text: seq<byte>, width: int) returns (out: seq<seq<byte>>)
    ensures out == WrappedText(text, if width < 1 then 1 else width)
  {
    hide Wrapped, WrappedText, FirstNewline;
    var w := AtLeastOne(width);
    out := [];
    var start := 0;
    ghost var rest := text;
    while true
      invariant 0 <= start <= |text| && rest == text[start..]
      invariant Emitted(text, w, rest, out)
      decreases |text| - start
    {
      var len := FirstNewline(text[start..]);
      TakeDropped(text, start, start + len);
      var lines := WrapParagraph(text[start..start + len], w);
      if start + len == |text| {
        EmitLast(text, w, rest, out);
        out := out + lines;
        return;
      }
      EmitNext(text, w, rest, len, out);
      DropTwice(text, start, start + len + 1);
      out := out + lines;
      rest := rest[len + 1..];
      start := start + len + 1;
    }
  }

  ghost predicate Emitted(text: seq<byte>, w: nat, rest: seq<byte>, out: seq<seq<byte>>)
    requires w >= 1
  {
    WrappedText(text, w) == out + WrappedText(rest, w)
  }

  lemma AtNewline(text: seq<byte>, nl: nat, w: nat)
    requires w >= 1 && nl == FirstNewline(text) < |text|
    ensures WrappedText(text, w) == Wrapped(text[..nl], w) + WrappedText(text[nl + 1..], w)
  {
  }

  lemma AtEnd(text: seq<byte>, w: nat)
    requires w >= 1 && FirstNewline(text) == |text|
    ensures WrappedText(text, w) == Wrapped(text, w)
  {
  }

  lemma EmitNext(text: seq<byte>, w: nat, rest: seq<byte>, nl: nat, out: seq<seq<byte>>)
    requires w >= 1 && nl == FirstNewline(rest) < |rest| && Emitted(text, w, rest, out)
    ensures Emitted(text, w, rest[nl + 1..], out + Wrapped(rest[..nl], w))
  {
    var lines, others := Wrapped(rest[..nl], w), WrappedText(rest[nl + 1..], w);
    calc {
      WrappedText(text, w);
      out + WrappedText(rest, w);
      { AtNewline(rest, nl, w); }
      out + (lines + others);
      { Assoc(out, lines, others); }
      (out + lines) + others;
    }
  }

  lemma EmitLast(text: seq<byte>, w: nat, rest: seq<byte>, out: seq<seq<byte>>)
    requires w >= 1 && FirstNewline(rest) == |rest| && Emitted(text, w, rest, out)
    ensures out + Wrapped(rest[..|rest|], w) == WrappedText(text, w)
  {
    assert rest[..|rest|] == rest;
    AtEnd(rest, w);
  }
}
