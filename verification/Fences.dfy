/** Taking the code fence off a generated text (src/app/SystemPrompt.cpp). */
module Fences {
  import opened Sequences
  import opened TextLines

  const FENCE := "```"

  predicate Blank(s: string) {
    forall i :: 0 <= i < |s| ==> IsBlank(s[i])
  }

  /** Length of the longest prefix of blanks. */
  function FirstNonBlank(s: string): (k: nat)
    ensures k <= |s|
  {
    if s == "" || !IsBlank(s[0]) then 0 else 1 + FirstNonBlank(s[1..])
  }

  /** Length without the blanks at the end. */
  function EndOfText(s: string): (e: nat)
    ensures e <= |s|
  {
    if s == "" then 0 else if IsBlank(s[|s| - 1]) then EndOfText(s[..|s| - 1]) else |s|
  }

  /** One more than the position of the last newline among the first `e` characters, or 0. */
  function LineBefore(s: string, e: nat): (k: nat)
    requires e <= |s|
    ensures k <= e && NoNewline(s[k..e])
    ensures k == 0 || s[k - 1] == '\n'
  {
    if e == 0 then 0 else if s[e - 1] == '\n' then e else LineBefore(s, e - 1)
  }

  /**
    Drops a closing fence and what follows it, keeping the newline in front of it. For a fence at the very start the
    source looks for the newline from position -1, which wraps around: it then searches the whole text.
   */
  function DropClosingFence(inner: string): string {
    var e := EndOfText(inner);
    if e < 3 || inner[e - 3..e] != FENCE then inner
    else inner[..LineBefore(inner, if e == 3 then |inner| else e - 3)]
  }

  function StripCodeFence(s: string): string {
    var b := FirstNonBlank(s);
    if b == |s| || !(FENCE <= s[b..]) then s
    else
      var nl := b + FirstNewline(s[b..]);
      if nl == |s| then s else DropClosingFence(s[nl + 1..])
  }

  // ----- what is stripped -----

  /** A text that opens a fence: blanks, a fence, a label, and a newline. */
  predicate Opens(s: string, lead: string, lang: string, inner: string) {
    Blank(lead) && NoNewline(lang) && s == lead + FENCE + lang + "\n" + inner
  }

  lemma {:induction false} FirstNonBlankIs(lead: string, rest: string)
    requires Blank(lead) && rest != "" && !IsBlank(rest[0])
    ensures FirstNonBlank(lead + rest) == |lead|
  {
    if lead == "" {
      assert lead + rest == rest;
    } else {
      FirstNonBlankIs(lead[1..], rest);
      assert (lead + rest)[1..] == lead[1..] + rest;
    }
  }

  lemma OpeningFence(s: string, lead: string, lang: string, inner: string)
    requires Opens(s, lead, lang, inner)
    ensures StripCodeFence(s) == DropClosingFence(inner)
  {
    hide DropClosingFence;
    var first := FENCE + lang;
    var rest := first + "\n" + inner;
    assert s == lead + rest && rest[0] == '`' && FENCE <= rest;
    FirstNonBlankIs(lead, rest);
    FirstNewlineIs(first, inner);
    assert s[|lead|..] == rest && s[|lead| + |first| + 1..] == inner;
  }

  lemma {:induction false} LeadIsBlank(s: string)
    ensures Blank(s[..FirstNonBlank(s)])
  {
    if s != "" && IsBlank(s[0]) {
      LeadIsBlank(s[1..]);
      assert s[..FirstNonBlank(s)] == [s[0]] + s[1..][..FirstNonBlank(s[1..])];
    }
  }

  lemma FenceLine(s: string)
    requires FENCE <= s && FirstNewline(s) < |s|
    ensures var k := FirstNewline(s);
            k >= 3 && NoNewline(s[3..k]) && s == FENCE + s[3..k] + "\n" + s[k + 1..]
  {
    hide FirstNewline;
    var k := FirstNewline(s);
    assert s[0] == '`' && s[1] == '`' && s[2] == '`' && k >= 3;
    assert forall c :: c in s[3..k] ==> c in s[..k];
    CutAt(s, k);
    assert s[..k] == FENCE + s[3..k] && ['\n'] == "\n";
  }

  /** Where the source finds a fence and a newline behind it, the text opens a fence. */
  lemma FoundIsOpened(s: string)
    requires var b := FirstNonBlank(s); FENCE <= s[b..] && FirstNewline(s[b..]) < |s[b..]|
    ensures var b := FirstNonBlank(s);
            var k := FirstNewline(s[b..]);
            k >= 3 && Opens(s, s[..b], s[b..][3..k], s[b..][k + 1..])
  {
    hide FirstNonBlank, FirstNewline, Blank, NoNewline;
    LeadIsBlank(s);
    var b := FirstNonBlank(s);
    var rest := s[b..];
    FenceLine(rest);
    var k := FirstNewline(rest);
    assert s == s[..b] + (FENCE + rest[3..k] + "\n" + rest[k + 1..]);
    FenceRegrouped(s[..b], rest[3..k], rest[k + 1..]);
  }

  lemma FenceRegrouped(lead: string, lang: string, inner: string)
    ensures lead + (FENCE + lang + "\n" + inner) == lead + FENCE + lang + "\n" + inner
  {
  }

  /** Text is left as it is if and only if it does not open a fence. */
  lemma KeptUnlessOpened(s: string)
    ensures StripCodeFence(s) == s <==> !exists lead, lang, inner :: Opens(s, lead, lang, inner)
  {
    hide DropClosingFence, FirstNonBlank, FirstNewline;
    forall lead, lang, inner | Opens(s, lead, lang, inner)
      ensures StripCodeFence(s) != s
    {
      hide StripCodeFence;
      OpeningFence(s, lead, lang, inner);
      NothingIsAdded(inner);
    }
    if StripCodeFence(s) != s {
      FoundIsOpened(s);
    }
  }

  lemma NothingIsAdded(inner: string)
    ensures |DropClosingFence(inner)| <= |inner|
  {
  }

  // ----- stripping a text that was fenced -----

  /** A text between fences, with blanks and a label around the first one and `tail` behind the last one. */
  function Fenced(lead: string, lang: string, body: string, tail: string): string {
    lead + FENCE + lang + "\n" + (body + FENCE + tail)
  }

  lemma {:induction false} EndOfBlankTail(s: string, tail: string)
    requires s != "" && !IsBlank(s[|s| - 1]) && Blank(tail)
    ensures EndOfText(s + tail) == |s|
    decreases |tail|
  {
    if tail == "" {
      assert s + tail == s;
    } else {
      EndOfBlankTail(s, tail[..|tail| - 1]);
      assert (s + tail)[..|s + tail| - 1] == s + tail[..|tail| - 1];
    }
  }

  /** What is left inside the opening fence once the closing one is found. */
  lemma ClosingFence(body: string, tail: string)
    requires Blank(tail)
    ensures var inner := body + FENCE + tail;
            DropClosingFence(inner) == inner[..LineBefore(inner, if body == "" then |inner| else |body|)]
  {
    var text := body + FENCE;
    EndOfBlankTail(text, tail);
    assert (text + tail)[|body|..|body| + 3] == FENCE;
  }

  lemma StripFenced(lead: string, lang: string, body: string, tail: string)
    requires Blank(lead) && NoNewline(lang) && Blank(tail)
    ensures var inner := body + FENCE + tail;
            StripCodeFence(Fenced(lead, lang, body, tail))
            == inner[..LineBefore(inner, if body == "" then |inner| else |body|)]
  {
    hide StripCodeFence, DropClosingFence, LineBefore;
    OpeningFence(Fenced(lead, lang, body, tail), lead, lang, body + FENCE + tail);
    ClosingFence(body, tail);
  }

  /** Of a body that is not empty exactly its last line is lost, unless that is terminated. */
  lemma StripKeepsWholeLines(lead: string, lang: string, body: string, tail: string)
    requires Blank(lead) && NoNewline(lang) && Blank(tail) && body != ""
    ensures var kept := StripCodeFence(Fenced(lead, lang, body, tail));
            kept <= body && NoNewline(body[|kept|..]) && (kept == "" || kept[|kept| - 1] == '\n')
  {
    hide StripCodeFence, Fenced, LineBefore;
    StripFenced(lead, lang, body, tail);
    var inner := body + FENCE + tail;
    var k := LineBefore(inner, |body|);
    assert inner[..k] == body[..k] && inner[k..|body|] == body[k..];
  }

  /** An empty body comes back unless a newline follows the closing fence, which is then kept. */
  lemma StripOfEmptyBody(lead: string, lang: string, tail: string)
    requires Blank(lead) && NoNewline(lang) && Blank(tail)
    ensures StripCodeFence(Fenced(lead, lang, "", tail)) == "" <==> '\n' !in tail
  {
    hide StripCodeFence, Fenced, LineBefore;
    StripFenced(lead, lang, "", tail);
    var inner := FENCE + tail;
    assert "" + FENCE + tail == inner;
    var k := LineBefore(inner, |inner|);
    assert inner[k..|inner|] == inner[k..];
    if k == 0 {
      assert forall c :: c in tail ==> c in inner[0..];
    } else {
      assert inner[0] == '`' && inner[1] == '`' && inner[2] == '`';
      assert k > 3 && inner[k - 1] == tail[k - 4];
    }
  }

  /**
    Stripping takes off exactly what fencing puts on if and only if the body ends its last line, or is empty with no
    newline behind the closing fence: for every label without a newline and all blanks around the fences.
   */
  lemma StripInvertsFencingIff(lead: string, lang: string, body: string, tail: string)
    requires Blank(lead) && NoNewline(lang) && Blank(tail)
    ensures StripCodeFence(Fenced(lead, lang, body, tail)) == body
            <==> if body == "" then '\n' !in tail else body[|body| - 1] == '\n'
  {
    hide StripCodeFence, Fenced;
    if body == "" {
      StripOfEmptyBody(lead, lang, tail);
    } else {
      StripKeepsWholeLines(lead, lang, body, tail);
      var kept := StripCodeFence(Fenced(lead, lang, body, tail));
      if |kept| < |body| {
        assert body[|kept|..][|body| - 1 - |kept|] == body[|body| - 1];
        assert body[|body| - 1] in body[|kept|..];
      }
    }
  }

  /** The two failing cases: an empty body keeps the closing fence, and a line that is not terminated is lost. */
  lemma StripFails()
    ensures StripCodeFence("```\n```\n") == "```\n"
    ensures StripCodeFence("```\nabc```") == ""
  {
    hide StripCodeFence;
    StripFenced("", "", "", "\n");
    assert Fenced("", "", "", "\n") == "```\n```\n" && "" + FENCE + "\n" == "```\n";
    StripFenced("", "", "abc", "");
    assert Fenced("", "", "abc", "") == "```\nabc```";
    var inner := "abc" + FENCE + "";
    assert LineBefore(inner, 3) == LineBefore(inner, 2) == LineBefore(inner, 1) == LineBefore(inner, 0);
  }
}
