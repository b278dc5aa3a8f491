/** Newline-delimited framing of a byte stream that arrives in arbitrary pieces. */
module Framing {
  import opened Sequences
  import opened TextLines

  /** The newline-terminated lines at the front of `s`. */
  function Complete(s: string): seq<string>
    decreases |s|
  {
    var k := FirstNewline(s);
    if k == |s| then [] else [s[..k]] + Complete(s[k + 1..])
  }

  /** What follows the last newline. */
  function Remainder(s: string): (r: string)
    ensures NoNewline(r)
    decreases |s|
  {
    var k := FirstNewline(s);
    if k == |s| then assert s[..k] == s; s else Remainder(s[k + 1..])
  }

  function Flatten(chunks: seq<string>): string {
    if chunks == [] then "" else chunks[0] + Flatten(chunks[1..])
  }

  /** The complete lines, each with its newline, and the remainder are the text. */
  lemma {:induction false} LinesAndRemainder(s: string)
    ensures Unlines(Complete(s)) + Remainder(s) == s
    ensures forall i :: 0 <= i < |Complete(s)| ==> NoNewline(Complete(s)[i])
    decreases |s|
  {
    hide FirstNewline;
    var k := FirstNewline(s);
    if k == |s| {
      assert "" + s == s;
    } else {
      var rest := s[k + 1..];
      LinesAndRemainder(rest);
      hide Unlines;
      UnlinesCons(s[..k], Complete(rest));
      NextLine(s);
      Assoc(s[..k] + "\n", Unlines(Complete(rest)), Remainder(rest));
    }
  }

  lemma NoCompleteLine(s: string)
    requires NoNewline(s)
    ensures FirstNewline(s) == |s| && Complete(s) == [] && Remainder(s) == s
  {
    FirstNewlineIs(s, "");
  }

  /** Text that arrives later does not move the first newline. */
  lemma {:induction false} FirstNewlineConcat(a: string, b: string)
    requires FirstNewline(a) < |a|
    ensures FirstNewline(a + b) == FirstNewline(a)
    decreases |a|
  {
    assert (a + b)[0] == a[0];
    if a[0] != '\n' {
      FirstNewlineConcat(a[1..], b);
      assert (a + b)[1..] == a[1..] + b;
    }
  }

  lemma Peel(a: string, b: string)
    requires FirstNewline(a) < |a|
    ensures var k := FirstNewline(a);
            && Complete(a + b) == [a[..k]] + Complete(a[k + 1..] + b)
            && Remainder(a + b) == Remainder(a[k + 1..] + b)
  {
    var k := FirstNewline(a);
    FirstNewlineConcat(a, b);
    assert (a + b)[..k] == a[..k];
    assert (a + b)[k + 1..] == a[k + 1..] + b;
  }

  /** Lines may be taken off as soon as they are there: only the remainder has to be kept for later. */
  lemma {:induction false} CompleteConcat(a: string, b: string)
    ensures Complete(a + b) == Complete(a) + Complete(Remainder(a) + b)
    decreases |a|
  {
    hide FirstNewline;
    var k := FirstNewline(a);
    if k == |a| {
      assert a[..k] == a;
      NoCompleteLine(a);
      assert [] + Complete(a + b) == Complete(a + b);
    } else {
      var rest := a[k + 1..];
      calc {
        Complete(a + b);
        { Peel(a, b); }
        [a[..k]] + Complete(rest + b);
        { CompleteConcat(rest, b); }
        [a[..k]] + (Complete(rest) + Complete(Remainder(rest) + b));
        { Assoc([a[..k]], Complete(rest), Complete(Remainder(rest) + b)); }
        Complete(a) + Complete(Remainder(a) + b);
      }
    }
  }

  lemma {:induction false} RemainderConcat(a: string, b: string)
    ensures Remainder(a + b) == Remainder(Remainder(a) + b)
    decreases |a|
  {
    hide Complete, FirstNewline;
    var k := FirstNewline(a);
    if k == |a| {
      assert a[..k] == a;
      NoCompleteLine(a);
    } else {
      Peel(a, b);
      RemainderConcat(a[k + 1..], b);
    }
  }
}
