/** Text split into lines, as the diff preview splits it (src/util/Diff.cpp). */
module TextLines {
  import opened Sequences

  /** The white space that text is trimmed of. */
  predicate IsBlank(c: char) {
    c == ' ' || c == '\t' || c == '\r' || c == '\n'
  }

  lemma Blanks(c: char)
    ensures IsBlank(c) <==> c in " \t\r\n"
  {
  }

  predicate NoNewline(line: string) {
    '\n' !in line
  }

  /** Length of the longest prefix of `s` without a newline. */
  function FirstNewline(s: string): (k: nat)
    ensures k <= |s| && NoNewline(s[..k])
    ensures k < |s| ==> s[k] == '\n'
  {
    if s == "" || s[0] == '\n' then 0
    else
      var k := FirstNewline(s[1..]);
      assert s[..k + 1] == [s[0]] + s[1..][..k];
      k + 1
  }

  /** Every newline ends a line; bytes after the last newline are a line of their own if there are any. */
  function Lines(s: string): (lines: seq<string>)
    ensures forall i :: 0 <= i < |lines| ==> NoNewline(lines[i])
    decreases |s|
  {
    var k := FirstNewline(s);
    if s == "" then []
    else if k == |s| then assert s == s[..k]; [s]
    else [s[..k]] + Lines(s[k + 1..])
  }

  /** The text that has exactly these lines, each one terminated. */
  function Unlines(lines: seq<string>): string {
    if lines == [] then "" else lines[0] + "\n" + Unlines(lines[1..])
  }

  /** `s` with its last line terminated. */
  function Terminated(s: string): string {
    if s == "" || s[|s| - 1] == '\n' then s else s + "\n"
  }

  lemma FirstNewlineIs(line: string, rest: string)
    requires NoNewline(line)
    ensures FirstNewline(line + "\n" + rest) == |line|
    ensures FirstNewline(line) == |line|
  {
    if line == "" {
      assert (line + "\n" + rest)[0] == '\n';
    } else {
      assert line[0] in line;
      assert forall c :: c in line[1..] ==> c in line;
      FirstNewlineIs(line[1..], rest);
      assert (line + "\n" + rest)[1..] == line[1..] + "\n" + rest;
    }
  }

  /** Peels one terminated line off the front. */
  lemma LinesCons(line: string, rest: string)
    requires NoNewline(line)
    ensures Lines(line + "\n" + rest) == [line] + Lines(rest)
  {
    FirstNewlineIs(line, rest);
    var s := line + "\n" + rest;
    assert s[..|line|] == line && s[|line| + 1..] == rest;
  }

  lemma LinesLast(line: string)
    requires NoNewline(line)
    ensures Lines(line) == if line == "" then [] else [line]
  {
    FirstNewlineIs(line, "");
  }

  lemma TerminatedCons(line: string, rest: string)
    ensures Terminated(line + "\n" + rest) == line + "\n" + Terminated(rest)
  {
    if rest == "" {
      assert line + "\n" + rest == line + "\n";
    }
  }

  lemma NextLine(s: string)
    requires FirstNewline(s) < |s|
    ensures var k := FirstNewline(s);
            s == s[..k] + "\n" + s[k + 1..] && Lines(s) == [s[..k]] + Lines(s[k + 1..])
  {
    hide FirstNewline;
    var k := FirstNewline(s);
    assert Lines(s) == [s[..k]] + Lines(s[k + 1..]);
    hide Lines;
    CutAt(s, k);
    assert ['\n'] == "\n";
  }

  lemma UnlinesCons(line: string, lines: seq<string>)
    ensures Unlines([line] + lines) == line + "\n" + Unlines(lines)
  {
    assert ([line] + lines)[1..] == lines;
  }

  /** Splitting then joining gives the text back with its last line terminated. */
  lemma {:induction false} UnlinesOfLines(s: string)
    ensures Unlines(Lines(s)) == Terminated(s)
    decreases |s|
  {
    var k := FirstNewline(s);
    if s == "" {
    } else if k == |s| {
      assert s[..k] == s && s[|s| - 1] in s;
    } else {
      var line, rest := s[..k], s[k + 1..];
      UnlinesOfLines(rest);
      NextLine(s);
      hide Terminated, Unlines, Lines, FirstNewline;
      UnlinesCons(line, Lines(rest));
      TerminatedCons(line, rest);
    }
  }

  /** Joining then splitting gives the lines back. */
  lemma {:induction false} LinesOfUnlines(lines: seq<string>)
    requires forall i :: 0 <= i < |lines| ==> NoNewline(lines[i])
    ensures Lines(Unlines(lines)) == lines
  {
    if lines == [] {
    } else {
      LinesOfUnlines(lines[1..]);
      LinesCons(lines[0], Unlines(lines[1..]));
    }
  }

  /** Two texts have equal line sequences exactly when they differ at most in a final newline. */
  lemma LinesEqualIff(s: string, t: string)
    ensures Lines(s) == Lines(t) <==> Terminated(s) == Terminated(t)
  {
    UnlinesOfLines(s);
    UnlinesOfLines(t);
    LinesOfUnlines(Lines(s));
    LinesOfUnlines(Lines(t));
  }

  /** One character of the loop below. */
  lemma SplitStep(cur: string, tail: string)
    requires NoNewline(cur) && tail != ""
    ensures tail[0] == '\n' ==> Lines(cur + tail) == [cur] + Lines(tail[1..])
    ensures cur + tail == (cur + [tail[0]]) + tail[1..]
  {
    var rest := tail[1..];
    assert tail == [tail[0]] + rest;
    assert cur + ([tail[0]] + rest) == cur + [tail[0]] + rest;
    if tail[0] == '\n' {
      assert ['\n'] == "\n";
      LinesCons(cur, rest);
    }
  }

  /** The source's loop: append to `cur`, push it at every newline, push what is left if not empty. */
  method SplitLines(s: string) returns (out: seq<string>)
    ensures out == Lines(s)
  {
    hide Lines;
    out := [];
    var cur := "";
    ghost var todo := Lines(s);
    assert cur + s[0..] == s;
    for i := 0 to |s|
      invariant NoNewline(cur)
      invariant todo == Lines(cur + s[i..])
      invariant out + todo == Lines(s)
    {
      var c := s[i];
      SplitStep(cur, s[i..]);
      assert s[i..][1..] == s[i + 1..];
      if c == '\n' {
        out := out + [cur];
        cur := "";
        todo := todo[1..];
        assert cur + s[i + 1..] == s[i + 1..];
      } else {
        cur := cur + [c];
      }
    }
    LinesLast(cur);
    assert cur + s[|s|..] == cur;
    if cur != "" {
      out := out + [cur];
    }
  }
}
