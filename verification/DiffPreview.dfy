/** The diff preview of src/util/Diff.cpp: which operations it prints, and how to read them back. */
module DiffPreview {
  import opened Sequences
  import opened TextLines
  import opened Diff
  import opened Decimal

  // ----- which operations are printed -----

  /** `k` lies within `context` positions of a change. */
  predicate NearChange(ops: Ops, context: int, k: int) {
    exists i :: 0 <= i < |ops| && ops[i].kind != Equal && i - context <= k <= i + context
  }

  predicate Printed(ops: Ops, context: int, k: nat)
    requires k < |ops|
  {
    ops[k].kind != Equal || NearChange(ops, context, k)
  }

  /** One line of the preview: the hunk separator, or the operation at an index. */
  datatype Item = Gap | Shown(index: nat)

  /** The lines printed for the first `n` operations. */
  function Items(ops: Ops, context: int, n: nat): (items: seq<Item>)
    requires n <= |ops|
    ensures forall j :: 0 <= j < |items| && items[j].Shown? ==> items[j].index < n
  {
    if n == 0 then []
    else
      var before := Items(ops, context, n - 1);
      if !Printed(ops, context, n - 1) then before
      else
        before
        + (if before != [] && !Printed(ops, context, n - 2) then [Gap] else [])
        + [Shown(n - 1)]
  }

  /**
    A layout of the first `n` operations: it shows exactly the printed ones, in order; neighbours in the
    layout are neighbours in the script; and where the script was elided between two shown operations
    there is exactly one separator.
   */
  ghost predicate Layout(items: seq<Item>, ops: Ops, context: int, n: nat)
    requires n <= |ops|
  {
    && (forall k :: 0 <= k < n && Printed(ops, context, k) ==> Shown(k) in items)
    && (forall j :: 0 <= j < |items| && items[j].Shown? ==>
          items[j].index < n && Printed(ops, context, items[j].index))
    && (forall j :: 0 <= j < |items| ==> WellPlaced(items, j))
  }

  /** A separator stands for an elision between the operations around it; neighbours are neighbours. */
  ghost predicate WellPlaced(items: seq<Item>, j: nat)
    requires j < |items|
  {
    if items[j].Gap? then
      && 0 < j < |items| - 1
      && items[j - 1].Shown? && items[j + 1].Shown?
      && items[j - 1].index + 1 < items[j + 1].index
    else
      j + 1 < |items| && items[j + 1].Shown? ==> items[j + 1].index == items[j].index + 1
  }

  /** The newest shown operation is the newest printed one. */
  lemma {:induction false} LastShown(ops: Ops, context: int, n: nat)
    requires n <= |ops|
    ensures var items := Items(ops, context, n);
            if items == [] then forall k :: 0 <= k < n ==> !Printed(ops, context, k)
            else
              && items[|items| - 1].Shown?
              && Printed(ops, context, items[|items| - 1].index)
              && forall k :: items[|items| - 1].index < k < n ==> !Printed(ops, context, k)
  {
    if n > 0 {
      LastShown(ops, context, n - 1);
    }
  }

  /** Showing the next operation extends a layout, with a separator if something was skipped since. */
  lemma ShowNext(before: seq<Item>, ops: Ops, context: int, n: nat)
    requires n < |ops| && Layout(before, ops, context, n) && Printed(ops, context, n)
    requires before == [] ==> forall k :: 0 <= k < n ==> !Printed(ops, context, k)
    requires before != [] ==> before[|before| - 1].Shown?
    requires before != [] ==> forall k :: before[|before| - 1].index < k < n ==> !Printed(ops, context, k)
    ensures before != [] && !Printed(ops, context, n - 1) ==> Layout(before + [Gap, Shown(n)], ops, context, n + 1)
    ensures before == [] || Printed(ops, context, n - 1) ==> Layout(before + [Shown(n)], ops, context, n + 1)
  {
    hide Printed;
    var gap := if before != [] && !Printed(ops, context, n - 1) then [Gap] else [];
    var items := before + gap + [Shown(n)];
    assert items[|items| - 1] == Shown(n);
    assert forall k :: Shown(k) in before ==> Shown(k) in items;
    forall j | 0 <= j < |items|
      ensures WellPlaced(items, j)
    {
      assert j < |before| ==> WellPlaced(before, j);
    }
    assert items == if gap == [] then before + [Shown(n)] else before + [Gap, Shown(n)];
  }

  /** The preview is a layout: an operation is shown iff it is a change or near one, and every elision is
      marked by exactly one separator, none of them at either end. */
  lemma {:induction false} ItemsAreALayout(ops: Ops, context: int, n: nat)
    requires n <= |ops|
    ensures Layout(Items(ops, context, n), ops, context, n)
  {
    hide Layout, Printed, Items;
    if n == 0 {
      NothingIsALayout(ops, context);
    } else {
      ItemsAreALayout(ops, context, n - 1);
      if Printed(ops, context, n - 1) {
        ShowPrinted(ops, context, n - 1);
      } else {
        ShowNothing(ops, context, n - 1);
      }
    }
  }

  lemma NothingIsALayout(ops: Ops, context: int)
    ensures Layout(Items(ops, context, 0), ops, context, 0)
  {
    hide Printed, WellPlaced;
  }

  lemma ShowPrinted(ops: Ops, context: int, n: nat)
    requires n < |ops| && Layout(Items(ops, context, n), ops, context, n) && Printed(ops, context, n)
    ensures Layout(Items(ops, context, n + 1), ops, context, n + 1)
  {
    hide Layout, Printed;
    var before := Items(ops, context, n);
    LastShown(ops, context, n);
    ShowNext(before, ops, context, n);
    assert before + [Gap] + [Shown(n)] == before + [Gap, Shown(n)];
    assert before + [] + [Shown(n)] == before + [Shown(n)];
  }

  lemma ShowNothing(ops: Ops, context: int, n: nat)
    requires n < |ops| && Layout(Items(ops, context, n), ops, context, n) && !Printed(ops, context, n)
    ensures Layout(Items(ops, context, n + 1), ops, context, n + 1)
  {
    hide Printed;
    assert Items(ops, context, n + 1) == Items(ops, context, n);
  }

  // ----- the text -----

  function Marker(kind: Kind): char {
    match kind
    case Equal => ' '
    case Del => '-'
    case Add => '+'
  }

  function ItemLine(ops: Ops, item: Item): string
    requires item.Shown? ==> item.index < |ops|
  {
    match item
    case Gap => "@@"
    case Shown(k) => [Marker(ops[k].kind)] + ops[k].text
  }

  predicate InRange(ops: Ops, items: seq<Item>) {
    forall j :: 0 <= j < |items| && items[j].Shown? ==> items[j].index < |ops|
  }

  function ItemLines(ops: Ops, items: seq<Item>): (lines: seq<string>)
    requires InRange(ops, items)
    ensures |lines| == |items|
  {
    seq(|items|, j requires 0 <= j < |items| => ItemLine(ops, items[j]))
  }

  /** The text printed for the first `n` operations. */
  function RenderedPrefix(ops: Ops, context: int, n: nat): string
    requires n <= |ops|
  {
    Unlines(ItemLines(ops, Items(ops, context, n)))
  }

  function RenderedText(ops: Ops, context: int): string {
    RenderedPrefix(ops, context, |ops|)
  }

  lemma {:induction false} UnlinesSnoc(lines: seq<string>, line: string)
    ensures Unlines(lines + [line]) == Unlines(lines) + line + "\n"
  {
    if lines == [] {
      assert [] + [line] == [line];
    } else {
      UnlinesSnoc(lines[1..], line);
      assert (lines + [line])[1..] == lines[1..] + [line];
    }
  }

  /** Appends one line to the text printed so far. */
  lemma RenderSnoc(ops: Ops, items: seq<Item>, item: Item)
    requires InRange(ops, items) && (item.Shown? ==> item.index < |ops|)
    ensures InRange(ops, items + [item])
    ensures Unlines(ItemLines(ops, items + [item])) == Unlines(ItemLines(ops, items)) + ItemLine(ops, item) + "\n"
  {
    assert ItemLines(ops, items + [item]) == ItemLines(ops, items) + [ItemLine(ops, item)];
    UnlinesSnoc(ItemLines(ops, items), ItemLine(ops, item));
  }

  lemma ShownLine(ops: Ops, n: nat, out: string)
    requires n < |ops|
    ensures out + ItemLine(ops, Shown(n)) + "\n" == out + [Marker(ops[n].kind)] + ops[n].text + "\n"
  {
    hide Marker;
  }

  /** What one more operation adds to the text. */
  lemma RenderStep(ops: Ops, context: int, n: nat)
    requires n < |ops|
    ensures !Printed(ops, context, n) ==> RenderedPrefix(ops, context, n + 1) == RenderedPrefix(ops, context, n)
    ensures Printed(ops, context, n) ==>
              RenderedPrefix(ops, context, n + 1)
              == (if Items(ops, context, n) != [] && !Printed(ops, context, n - 1)
                  then RenderedPrefix(ops, context, n) + "@@\n" else RenderedPrefix(ops, context, n))
                 + [Marker(ops[n].kind)] + ops[n].text + "\n"
    ensures Items(ops, context, n + 1) != [] <==> Items(ops, context, n) != [] || Printed(ops, context, n)
  {
    hide Printed, ItemLines, Unlines;
    var before := Items(ops, context, n);
    var shown := ItemLine(ops, Shown(n));
    if Printed(ops, context, n) {
      if before != [] && !Printed(ops, context, n - 1) {
        RenderSnoc(ops, before, Gap);
        RenderSnoc(ops, before + [Gap], Shown(n));
        var out := RenderedPrefix(ops, context, n);
        assert RenderedPrefix(ops, context, n + 1) == out + "@@" + "\n" + shown + "\n";
        assert out + "@@" + "\n" == out + "@@\n";
        ShownLine(ops, n, out + "@@\n");
      } else {
        RenderSnoc(ops, before, Shown(n));
        assert before + [] == before;
        ShownLine(ops, n, RenderedPrefix(ops, context, n));
      }
    }
  }

  function Summary(n: nat, m: nat): string {
    "(" + ToString(n) + " lines → " + ToString(m) + " lines; diff too large to preview)"
  }

  function ScriptOf(oldText: string, newText: string): Ops {
    Script(Lines(oldText), Lines(newText))
  }

  /** The whole preview. */
  function DiffText(oldText: string, newText: string, context: int, maxLines: int): string {
    var a, b := Lines(oldText), Lines(newText);
    if oldText == newText then ""
    else if |a| > maxLines || |b| > maxLines then Summary(|a|, |b|)
    else RenderedText(Script(a, b), context)
  }

  // ----- the loops -----

  /** Marks everything within `context` of a change; a negative context marks nothing. */
  method MarkKept(ops: Ops, context: int) returns (keep: array<bool>)
    ensures fresh(keep) && keep.Length == |ops|
    ensures forall k :: 0 <= k < |ops| ==> (keep[k] <==> NearChange(ops, context, k))
  {
    var n := |ops|;
    keep := new bool[n](_ => false);
    for i := 0 to n
      invariant forall k :: 0 <= k < n ==>
        (keep[k] <==> exists c :: 0 <= c < i && ops[c].kind != Equal && c - context <= k <= c + context)
    {
      if ops[i].kind != Equal {
        var lo := if i - context < 0 then 0 else i - context;
        var hi := if n - 1 < i + context then n - 1 else i + context;
        ghost var before := keep[..];
        var k := lo;
        while k <= hi
          invariant lo <= k && (k <= hi + 1 || k == lo)
          invariant forall p :: 0 <= p < n ==> (keep[p] <==> before[p] || lo <= p < k)
        {
          keep[k] := true;
          k := k + 1;
        }
      }
    }
  }

  /** Prints the operations, with a separator where some were skipped after something was printed. */
  method Render(ops: Ops, context: int) returns (out: string)
    ensures out == RenderedText(ops, context)
  {
    hide NearChange, Marker;
    var keep := MarkKept(ops, context);
    out := "";
    var inGap, wroteAny := false, false;
    var i := 0;
    while i < |ops|
      invariant 0 <= i <= |ops|
      invariant out == RenderedPrefix(ops, context, i)
      invariant inGap <==> i > 0 && !Printed(ops, context, i - 1)
      invariant wroteAny <==> Items(ops, context, i) != []
      invariant forall k :: 0 <= k < |ops| ==> (keep[k] <==> NearChange(ops, context, k))
    {
      hide RenderedPrefix, Items;
      RenderStep(ops, context, i);
      if ops[i].kind == Equal && !keep[i] {
        inGap := true;
      } else {
        if inGap && wroteAny {
          out := out + "@@\n";
        }
        inGap := false;
        out := out + [Marker(ops[i].kind)];
        out := out + ops[i].text;
        out := out + "\n";
        wroteAny := true;
      }
      i := i + 1;
    }
  }

  method UnifiedDiff(oldText: string, newText: string, context: int := 3, maxLines: int := 4000)
    returns (out: string)
    ensures out == DiffText(oldText, newText, context, maxLines)
  {
    if oldText == newText {
      return "";
    }
    var a := SplitLines(oldText);
    var b := SplitLines(newText);
    if |a| > maxLines || |b| > maxLines {
      return Summary(|a|, |b|);
    }
    var ops := LcsOps(a, b);
    out := Render(ops, context);
  }

  // ----- reading the text back -----

  /** What a reader sees in one line of the preview: a separator, or an operation. */
  datatype Seen = Separator | Line(op: Op) | Unreadable

  function ReadLine(line: string): Seen {
    if line == "" then Unreadable
    else if line == "@@" then Separator
    else if line[0] == ' ' then Line(Op(Equal, line[1..]))
    else if line[0] == '-' then Line(Op(Del, line[1..]))
    else if line[0] == '+' then Line(Op(Add, line[1..]))
    else Unreadable
  }

  function ReadDiff(text: string): seq<Seen> {
    var lines := Lines(text);
    seq(|lines|, j requires 0 <= j < |lines| => ReadLine(lines[j]))
  }

  /** The operations among what was read. */
  function Operations(seen: seq<Seen>): Ops {
    if seen == [] then []
    else (if seen[0].Line? then [seen[0].op] else []) + Operations(seen[1..])
  }

  predicate SingleLines(ops: Ops) {
    forall k :: 0 <= k < |ops| ==> NoNewline(ops[k].text)
  }

  lemma ScriptsAreSingleLines(oldText: string, newText: string)
    ensures SingleLines(ScriptOf(oldText, newText))
  {
    TextsAreLines(Lines(oldText), Lines(newText));
  }

  /** What a reader sees of some items. */
  function SeenOf(ops: Ops, items: seq<Item>): (seen: seq<Seen>)
    requires InRange(ops, items)
    ensures |seen| == |items|
  {
    seq(|items|, j requires 0 <= j < |items| => if items[j].Gap? then Separator else Line(ops[items[j].index]))
  }

  /** Reading the preview gives back its layout, separators and operations alike, for any context. */
  lemma ReadBack(ops: Ops, context: int)
    requires SingleLines(ops)
    ensures var items := Items(ops, context, |ops|);
            ReadDiff(RenderedText(ops, context)) == SeenOf(ops, items)
  {
    var items := Items(ops, context, |ops|);
    var lines := ItemLines(ops, items);
    forall j | 0 <= j < |lines|
      ensures NoNewline(lines[j])
      ensures ReadLine(lines[j]) == if items[j].Gap? then Separator else Line(ops[items[j].index])
    {
      if items[j].Shown? {
        var op := ops[items[j].index];
        assert lines[j] == [Marker(op.kind)] + op.text;
        assert lines[j][1..] == op.text && lines[j][0] != "@@"[0];
      }
    }
    LinesOfUnlines(lines);
  }

  /** A context at least as long as a script with a change prints every operation and no separator. */
  lemma {:induction false} FullContextShowsAll(ops: Ops, context: int, n: nat)
    requires n <= |ops| <= context
    requires exists c :: 0 <= c < |ops| && ops[c].kind != Equal
    ensures Items(ops, context, n) == seq(n, k requires k >= 0 => Shown(k))
  {
    if n > 0 {
      FullContextShowsAll(ops, context, n - 1);
      var c :| 0 <= c < |ops| && ops[c].kind != Equal;
      forall k | 0 <= k < n
        ensures Printed(ops, context, k)
      {
        assert c - context <= k <= c + context;
      }
    }
  }

  /** With no change, nothing is printed. */
  lemma {:induction false} NoChangeShowsNothing(ops: Ops, context: int, n: nat)
    requires n <= |ops|
    requires forall k :: 0 <= k < |ops| ==> ops[k].kind == Equal
    ensures Items(ops, context, n) == []
  {
    if n > 0 {
      NoChangeShowsNothing(ops, context, n - 1);
    }
  }

  lemma {:induction false} OperationsOfLines(ops: Ops)
    ensures Operations(seq(|ops|, k requires 0 <= k < |ops| => Line(ops[k]))) == ops
  {
    if ops != [] {
      var seen := seq(|ops|, k requires 0 <= k < |ops| => Line(ops[k]));
      var rest := ops[1..];
      assert seen[1..] == seq(|rest|, k requires 0 <= k < |rest| => Line(rest[k]));
      OperationsOfLines(rest);
    }
  }

  /**
    With full context and inputs within the limit, the preview determines both line sequences, unless they
    are equal and not empty: then nothing is printed and the lines cannot be recovered.
   */
  lemma FullContextReadsBackIff(oldText: string, newText: string, context: int, maxLines: int)
    requires |Lines(oldText)| <= maxLines && |Lines(newText)| <= maxLines
    requires |ScriptOf(oldText, newText)| <= context
    ensures
      Transforms(Operations(ReadDiff(DiffText(oldText, newText, context, maxLines))), Lines(oldText), Lines(newText))
      <==> (Lines(oldText) != Lines(newText) || Lines(oldText) == [])
  {
    var a, b := Lines(oldText), Lines(newText);
    var ops := Script(a, b);
    NoChangesIff(a, b);
    if a == b {
      NoChangeShowsNothing(ops, context, |ops|);
      assert DiffText(oldText, newText, context, maxLines) == "";
    } else {
      ScriptsAreSingleLines(oldText, newText);
      ReadBack(ops, context);
      FullContextShowsAll(ops, context, |ops|);
      OperationsOfLines(ops);
      ScriptTransforms(a, b);
      assert ReadDiff(RenderedText(ops, context)) == seq(|ops|, k requires 0 <= k < |ops| => Line(ops[k]));
    }
  }

  /** Two texts, equal but for the final newline, whose preview cannot be read back. */
  lemma ReadBackFails()
    ensures !Transforms(Operations(ReadDiff(DiffText("a", "a\n", 1, 4000))), Lines("a"), Lines("a\n"))
  {
    LinesCons("a", "");
    LinesLast("a");
    assert "a" + "\n" + "" == "a\n";
    assert Script(["a"], ["a"]) == [Op(Equal, "a")] by {
      ScriptTransforms(["a"], ["a"]);
    }
    FullContextReadsBackIff("a", "a\n", 1, 4000);
  }

  /**
    When the preview is empty: the texts are equal, or both are within the limit and have equal lines.
    In particular two texts that differ only in a final newline have an empty preview.
   */
  lemma EmptyIff(oldText: string, newText: string, context: int, maxLines: int)
    ensures DiffText(oldText, newText, context, maxLines) == ""
            <==> oldText == newText
                 || (|Lines(oldText)| <= maxLines && |Lines(newText)| <= maxLines
                     && Terminated(oldText) == Terminated(newText))
  {
    var a, b := Lines(oldText), Lines(newText);
    LinesEqualIff(oldText, newText);
    NoChangesIff(a, b);
    var ops := Script(a, b);
    if a == b {
      NoChangeShowsNothing(ops, context, |ops|);
    } else {
      var c :| 0 <= c < |ops| && ops[c].kind != Equal;
      ItemsAreALayout(ops, context, |ops|);
      assert Shown(c) in Items(ops, context, |ops|);
    }
  }

  // ----- exactly the printed operations -----

  /** Operation `c` is a change, and `k` is that change or at most `context` lines away from it. */
  predicate IsNear(ops: Ops, context: int, c: int, k: int) {
    0 <= c < |ops| && ops[c].kind != Equal && (k == c || (if c < k then k - c else c - k) <= context)
  }

  /** The printed ones among the first `n` operations, in order. */
  function PrintedOps(ops: Ops, context: int, n: nat): Ops
    requires n <= |ops|
  {
    if n == 0 then []
    else if Printed(ops, context, n - 1) then PrintedOps(ops, context, n - 1) + [ops[n - 1]]
    else PrintedOps(ops, context, n - 1)
  }

  lemma {:induction false} OperationsConcat(a: seq<Seen>, b: seq<Seen>)
    ensures Operations(a + b) == Operations(a) + Operations(b)
    decreases |a|
  {
    if a == [] {
      assert a + b == b;
    } else {
      OperationsConcat(a[1..], b);
      assert (a + b)[0] == a[0] && (a + b)[1..] == a[1..] + b;
      Assoc(if a[0].Line? then [a[0].op] else [], Operations(a[1..]), Operations(b));
    }
  }

  lemma OneMoreSeen(ops: Ops, items: seq<Item>, item: Item)
    requires InRange(ops, items) && InRange(ops, items + [item]) && (item.Shown? ==> item.index < |ops|)
    ensures Operations(SeenOf(ops, items + [item]))
            == if item.Gap? then Operations(SeenOf(ops, items)) else Operations(SeenOf(ops, items)) + [ops[item.index]]
  {
    var more := items + [item];
    assert more[|items|] == item;
    var last := if item.Gap? then Separator else Line(ops[item.index]);
    assert SeenOf(ops, more) == SeenOf(ops, items) + [last];
    OperationsConcat(SeenOf(ops, items), [last]);
    assert [last][1..] == [];
  }

  lemma NextSeen(ops: Ops, context: int, n: nat)
    requires n < |ops|
    ensures var seen := Operations(SeenOf(ops, Items(ops, context, n)));
            Operations(SeenOf(ops, Items(ops, context, n + 1)))
            == if Printed(ops, context, n) then seen + [ops[n]] else seen
  {
    hide Operations, Printed, SeenOf;
    if Printed(ops, context, n) {
      var before := Items(ops, context, n);
      var gap := if before != [] && !Printed(ops, context, n - 1) then [Gap] else [];
      assert Items(ops, context, n + 1) == before + gap + [Shown(n)];
      hide Items;
      if gap != [] {
        OneMoreSeen(ops, before, Gap);
      } else {
        assert before + gap == before;
      }
      OneMoreSeen(ops, before + gap, Shown(n));
    }
  }

  lemma NothingSeen(ops: Ops, context: int)
    ensures Operations(SeenOf(ops, Items(ops, context, 0))) == []
  {
  }

  lemma {:induction false} SeenAreThePrinted(ops: Ops, context: int, n: nat)
    requires n <= |ops|
    ensures Operations(SeenOf(ops, Items(ops, context, n))) == PrintedOps(ops, context, n)
  {
    hide Operations, Printed, SeenOf, Items;
    if n == 0 {
      NothingSeen(ops, context);
    } else {
      SeenAreThePrinted(ops, context, n - 1);
      NextSeen(ops, context, n - 1);
    }
  }

  lemma PrintedIsNear(ops: Ops, context: int, k: nat)
    requires k < |ops|
    ensures Printed(ops, context, k) <==> exists c :: 0 <= c < |ops| && IsNear(ops, context, c, k)
  {
    if Printed(ops, context, k) {
      if ops[k].kind != Equal {
        assert IsNear(ops, context, k, k);
      } else {
        var c :| 0 <= c < |ops| && ops[c].kind != Equal && c - context <= k <= c + context;
        assert IsNear(ops, context, c, k);
      }
    }
    if exists c :: 0 <= c < |ops| && IsNear(ops, context, c, k) {
      var c :| 0 <= c < |ops| && IsNear(ops, context, c, k);
      assert k != c ==> c - context <= k <= c + context;
    }
  }

  /**
    Reading a preview within the limit gives exactly the printed operations, in order and with their kinds and texts,
    whatever the context: the changes and what is near one.
   */
  lemma PreviewShowsExactlyThePrinted(oldText: string, newText: string, context: int, maxLines: int, k: nat)
    requires |Lines(oldText)| <= maxLines && |Lines(newText)| <= maxLines && oldText != newText
    requires k < |ScriptOf(oldText, newText)|
    ensures var ops := ScriptOf(oldText, newText);
            Shown(k) in Items(ops, context, |ops|) <==> exists c :: 0 <= c < |ops| && IsNear(ops, context, c, k)
    ensures var ops := ScriptOf(oldText, newText);
            |ReadDiff(DiffText(oldText, newText, context, maxLines))| == |Items(ops, context, |ops|)|
    ensures var ops := ScriptOf(oldText, newText);
            Operations(ReadDiff(DiffText(oldText, newText, context, maxLines))) == PrintedOps(ops, context, |ops|)
  {
    var ops := ScriptOf(oldText, newText);
    assert Printed(ops, context, k) <==> exists c :: 0 <= c < |ops| && IsNear(ops, context, c, k) by {
      PrintedIsNear(ops, context, k);
    }
    SeenAreThePrinted(ops, context, |ops|);
    ItemsAreALayout(ops, context, |ops|);
    ScriptsAreSingleLines(oldText, newText);
    ReadBack(ops, context);
  }

  // ----- texts over the limit -----

  /** Two numbers in decimal figures between these words. */
  predicate TellsCounts(text: string, a: string, b: string) {
    text == "(" + a + " lines → " + b + " lines; diff too large to preview)"
  }

  /** Over the limit, and only then, different texts get a summary that tells the number of old and of new lines. */
  lemma TooLargeTellsTheCounts(oldText: string, newText: string, context: int, maxLines: int)
    returns (a: string, b: string)
    requires oldText != newText && (|Lines(oldText)| > maxLines || |Lines(newText)| > maxLines)
    ensures TellsCounts(DiffText(oldText, newText, context, maxLines), a, b)
    ensures Number(a) == |Lines(oldText)| && Number(b) == |Lines(newText)|
    ensures forall k :: 0 <= k < |a| ==> IsFigure(a[k])
    ensures forall k :: 0 <= k < |b| ==> IsFigure(b[k])
  {
    hide Lines, ToString;
    a, b := ToString(|Lines(oldText)|), ToString(|Lines(newText)|);
    ToStringSpells(|Lines(oldText)|);
    ToStringSpells(|Lines(newText)|);
  }
}
