/** The edit script of src/util/Diff.cpp: its table, its backtrack, and what they guarantee. */
module Diff {
  import opened Sequences


  datatype Kind = Equal | Del | Add

  datatype Op = Op(kind: Kind, text: string)

  type Ops = seq<Op>

  // ----- what an edit script means -----

  /** The lines a script keeps or removes: the text it starts from. */
  function Olds(ops: Ops): seq<string> {
    if ops == [] then []
    else (if ops[0].kind == Add then [] else [ops[0].text]) + Olds(ops[1..])
  }

  /** The lines a script keeps or adds: the text it ends in. */
  function News(ops: Ops): seq<string> {
    if ops == [] then []
    else (if ops[0].kind == Del then [] else [ops[0].text]) + News(ops[1..])
  }

  /** The lines a script keeps. */
  function Kept(ops: Ops): seq<string> {
    if ops == [] then []
    else (if ops[0].kind == Equal then [ops[0].text] else []) + Kept(ops[1..])
  }

  /** The number of removals and additions in a script. */
  function Changes(ops: Ops): nat {
    if ops == [] then 0
    else (if ops[0].kind == Equal then 0 else 1) + Changes(ops[1..])
  }

  predicate Transforms(ops: Ops, a: seq<string>, b: seq<string>) {
    Olds(ops) == a && News(ops) == b
  }

  /** `c` can be obtained from `a` by leaving lines out. */
  predicate Subsequence(c: seq<string>, a: seq<string>) {
    c == []
    || (a != [] && c[0] == a[0] && Subsequence(c[1..], a[1..]))
    || (a != [] && Subsequence(c, a[1..]))
  }

  // ----- the table -----

  function Max(x: nat, y: nat): nat {
    if x < y then y else x
  }

  /** The value the source stores at dp[i][j], for the suffixes a[i..] and b[j..]. */
  function Lcs(a: seq<string>, b: seq<string>): nat
    decreases |a| + |b|
  {
    if a == [] || b == [] then 0
    else if a[0] == b[0] then Lcs(a[1..], b[1..]) + 1
    else Max(Lcs(a[1..], b), Lcs(a, b[1..]))
  }

  /** Dropping a line changes the table value by at most one, in the right direction. */
  lemma {:induction false} LcsDrop(a: seq<string>, b: seq<string>)
    ensures a != [] ==> Lcs(a[1..], b) <= Lcs(a, b) <= Lcs(a[1..], b) + 1
    ensures b != [] ==> Lcs(a, b[1..]) <= Lcs(a, b) <= Lcs(a, b[1..]) + 1
    decreases |a| + |b|
  {
    if a != [] && b != [] {
      LcsDrop(a[1..], b);
      LcsDrop(a, b[1..]);
    }
  }

  // ----- the backtrack -----

  /** One step of the walk through the table, and the suffixes it leaves. */
  datatype Walk = Done | Next(op: Op, a: seq<string>, b: seq<string>)

  /** Equal lines are kept; otherwise a removal comes first unless the table is better off with an addition. */
  function FirstStep(a: seq<string>, b: seq<string>): (w: Walk)
    ensures w.Next? ==> |w.a| + |w.b| < |a| + |b|
  {
    if a == [] && b == [] then Done
    else if a == [] then Next(Op(Add, b[0]), a, b[1..])
    else if b == [] then Next(Op(Del, a[0]), a[1..], b)
    else if a[0] == b[0] then Next(Op(Equal, a[0]), a[1..], b[1..])
    else if Lcs(a[1..], b) >= Lcs(a, b[1..]) then Next(Op(Del, a[0]), a[1..], b)
    else Next(Op(Add, b[0]), a, b[1..])
  }

  /** The script the source reads off the table for the suffixes `a` and `b`. */
  function Script(a: seq<string>, b: seq<string>): Ops
    decreases |a| + |b|
  {
    match FirstStep(a, b)
    case Done => []
    case Next(op, a', b') => [op] + Script(a', b')
  }

  /** Every cell holds the value for its two suffixes. */
  ghost predicate Filled(dp: array2<nat>, a: seq<string>, b: seq<string>)
    reads dp
  {
    && dp.Length0 == |a| + 1 && dp.Length1 == |b| + 1
    && forall r, c {:trigger dp[r, c]} :: 0 <= r <= |a| && 0 <= c <= |b| ==> dp[r, c] == Lcs(a[r..], b[c..])
  }

  lemma FilledAt(dp: array2<nat>, a: seq<string>, b: seq<string>, r: nat, c: nat)
    requires Filled(dp, a, b) && r <= |a| && c <= |b|
    ensures r < dp.Length0 && c < dp.Length1 && dp[r, c] == Lcs(a[r..], b[c..])
  {
  }

  /** Fills the table from the far corner; the last row and column stay 0. */
  method FillTable(a: seq<string>, b: seq<string>) returns (dp: array2<nat>)
    ensures fresh(dp) && Filled(dp, a, b)
  {
    var n, m := |a|, |b|;
    dp := new nat[n + 1, m + 1]((i, j) => 0);
    var i := n;
    while i > 0
      invariant 0 <= i <= n
      invariant forall r, c {:trigger dp[r, c]} :: i <= r <= n && 0 <= c <= m ==> dp[r, c] == Lcs(a[r..], b[c..])
      invariant forall r :: 0 <= r <= n ==> dp[r, m] == 0
    {
      i := i - 1;
      var j := m;
      while j > 0
        invariant 0 <= j <= m
        invariant forall r, c {:trigger dp[r, c]} :: i < r <= n && 0 <= c <= m ==> dp[r, c] == Lcs(a[r..], b[c..])
        invariant forall c {:trigger dp[i, c]} :: j <= c <= m ==> dp[i, c] == Lcs(a[i..], b[c..])
        invariant forall r :: 0 <= r <= n ==> dp[r, m] == 0
      {
        j := j - 1;
        assert a[i..][1..] == a[i + 1..] && b[j..][1..] == b[j + 1..];
        dp[i, j] := if a[i] == b[j] then dp[i + 1, j + 1] + 1 else Max(dp[i + 1, j], dp[i, j + 1]);
      }
    }
  }

  /** `ops` is the part of the script emitted before position (i, j) is reached. */
  ghost predicate Emitted(a: seq<string>, b: seq<string>, i: nat, j: nat, ops: Ops) {
    i <= |a| && j <= |b| && ops + Script(a[i..], b[j..]) == Script(a, b)
  }

  lemma EmitNothing(a: seq<string>, b: seq<string>)
    ensures Emitted(a, b, 0, 0, [])
  {
    assert a[0..] == a && b[0..] == b;
  }

  lemma EmitAll(a: seq<string>, b: seq<string>, ops: Ops)
    requires Emitted(a, b, |a|, |b|, ops)
    ensures ops == Script(a, b)
  {
  }

  lemma EmitEqual(a: seq<string>, b: seq<string>, i: nat, j: nat, ops: Ops)
    requires Emitted(a, b, i, j, ops) && i < |a| && j < |b| && a[i] == b[j]
    ensures Emitted(a, b, i + 1, j + 1, ops + [Op(Equal, a[i])])
  {
    assert a[i..][1..] == a[i + 1..] && b[j..][1..] == b[j + 1..];
    Assoc(ops, [Op(Equal, a[i])], Script(a[i + 1..], b[j + 1..]));
  }

  lemma EmitDel(a: seq<string>, b: seq<string>, i: nat, j: nat, ops: Ops)
    requires Emitted(a, b, i, j, ops) && i < |a|
    requires j < |b| ==> a[i] != b[j] && Lcs(a[i + 1..], b[j..]) >= Lcs(a[i..], b[j + 1..])
    ensures Emitted(a, b, i + 1, j, ops + [Op(Del, a[i])])
  {
    assert a[i..][1..] == a[i + 1..] && (j < |b| ==> b[j..][1..] == b[j + 1..]);
    Assoc(ops, [Op(Del, a[i])], Script(a[i + 1..], b[j..]));
  }

  lemma EmitAdd(a: seq<string>, b: seq<string>, i: nat, j: nat, ops: Ops)
    requires Emitted(a, b, i, j, ops) && j < |b|
    requires i < |a| ==> a[i] != b[j] && Lcs(a[i + 1..], b[j..]) < Lcs(a[i..], b[j + 1..])
    ensures Emitted(a, b, i, j + 1, ops + [Op(Add, b[j])])
  {
    assert b[j..][1..] == b[j + 1..] && (i < |a| ==> a[i..][1..] == a[i + 1..]);
    Assoc(ops, [Op(Add, b[j])], Script(a[i..], b[j + 1..]));
  }

  method LcsOps(a: seq<string>, b: seq<string>) returns (ops: Ops)
    ensures ops == Script(a, b)
  {
    hide Script, Emitted, Lcs, Filled;
    var n, m := |a|, |b|;
    var dp := FillTable(a, b);
    ops := [];
    var i, j := 0, 0;
    EmitNothing(a, b);
    while i < n && j < m
      invariant 0 <= i <= n && 0 <= j <= m && Emitted(a, b, i, j, ops)
      invariant Filled(dp, a, b)
      decreases n - i + m - j
    {
      FilledAt(dp, a, b, i + 1, j);
      FilledAt(dp, a, b, i, j + 1);
      if a[i] == b[j] {
        EmitEqual(a, b, i, j, ops);
        ops := ops + [Op(Equal, a[i])];
        i, j := i + 1, j + 1;
      } else if dp[i + 1, j] >= dp[i, j + 1] {
        EmitDel(a, b, i, j, ops);
        ops := ops + [Op(Del, a[i])];
        i := i + 1;
      } else {
        EmitAdd(a, b, i, j, ops);
        ops := ops + [Op(Add, b[j])];
        j := j + 1;
      }
    }
    while i < n
      invariant i <= n && j <= m && Emitted(a, b, i, j, ops) && (i < n ==> j == m)
    {
      EmitDel(a, b, i, j, ops);
      ops := ops + [Op(Del, a[i])];
      i := i + 1;
    }
    while j < m
      invariant j <= m && Emitted(a, b, i, j, ops) && i == n
    {
      EmitAdd(a, b, i, j, ops);
      ops := ops + [Op(Add, b[j])];
      j := j + 1;
    }
    EmitAll(a, b, ops);
  }

  // ----- optimality -----

  lemma Prepend(op: Op, ops: Ops)
    ensures Olds([op] + ops) == (if op.kind == Add then [] else [op.text]) + Olds(ops)
    ensures News([op] + ops) == (if op.kind == Del then [] else [op.text]) + News(ops)
    ensures Kept([op] + ops) == (if op.kind == Equal then [op.text] else []) + Kept(ops)
  {
    assert ([op] + ops)[1..] == ops;
  }

  /** A step takes its line off the sequences it belongs to. */
  lemma StepSpells(a: seq<string>, b: seq<string>)
    ensures var w := FirstStep(a, b);
            if w.Done? then a == [] && b == []
            else
              && a == (if w.op.kind == Add then [] else [w.op.text]) + w.a
              && b == (if w.op.kind == Del then [] else [w.op.text]) + w.b
  {
    hide Lcs;
  }

  lemma {:induction false} ScriptTransforms(a: seq<string>, b: seq<string>)
    ensures Transforms(Script(a, b), a, b)
    decreases |a| + |b|
  {
    hide FirstStep;
    StepSpells(a, b);
    match FirstStep(a, b) {
      case Done =>
      case Next(op, a', b') =>
        ScriptTransforms(a', b');
        hide Olds, News, Script;
        Prepend(op, Script(a', b'));
    }
  }

  lemma {:induction false} ScriptKeepsLcs(a: seq<string>, b: seq<string>)
    ensures |Kept(Script(a, b))| == Lcs(a, b)
    decreases |a| + |b|
  {
    match FirstStep(a, b) {
      case Done =>
      case Next(op, a', b') =>
        ScriptKeepsLcs(a', b');
        hide Kept;
        Prepend(op, Script(a', b'));
    }
  }

  /** No common subsequence is longer than the table says. */
  lemma {:induction false} LcsBoundsCommonSubsequences(c: seq<string>, a: seq<string>, b: seq<string>)
    requires Subsequence(c, a) && Subsequence(c, b)
    ensures |c| <= Lcs(a, b)
    decreases |a| + |b|
  {
    if c != [] {
      LcsDrop(a, b);
      if Subsequence(c, a[1..]) {
        LcsBoundsCommonSubsequences(c, a[1..], b);
      } else if Subsequence(c, b[1..]) {
        LcsBoundsCommonSubsequences(c, a, b[1..]);
      } else {
        LcsBoundsCommonSubsequences(c[1..], a[1..], b[1..]);
      }
    }
  }

  lemma SubsequenceCons(c: seq<string>, a: seq<string>, t: string)
    requires Subsequence(c, a)
    ensures Subsequence(c, [t] + a) && Subsequence([t] + c, [t] + a)
  {
    assert ([t] + a)[1..] == a && ([t] + c)[1..] == c;
  }

  /** What a script keeps is a common subsequence of what it starts from and what it ends in. */
  lemma {:induction false} KeptIsCommon(ops: Ops)
    ensures Subsequence(Kept(ops), Olds(ops)) && Subsequence(Kept(ops), News(ops))
  {
    if ops != [] {
      hide Subsequence;
      var op, rest := ops[0], ops[1..];
      var kept := Kept(rest);
      KeptIsCommon(rest);
      assert ops == [op] + rest;
      Prepend(op, rest);
      hide Kept, Olds, News;
      SubsequenceCons(kept, Olds(rest), op.text);
      SubsequenceCons(kept, News(rest), op.text);
      assert [] + kept == kept && [] + Olds(rest) == Olds(rest) && [] + News(rest) == News(rest);
    }
  }

  /** Every line is kept, and then counted twice, or changed. */
  lemma {:induction false} ChangesCount(ops: Ops)
    ensures |Olds(ops)| + |News(ops)| == 2 * |Kept(ops)| + Changes(ops)
  {
    if ops != [] {
      ChangesCount(ops[1..]);
    }
  }

  /**
    The script the source computes turns `a` into `b`; it keeps a longest common subsequence;
    and no script that turns `a` into `b` has fewer changes.
   */
  lemma ScriptIsOptimal(a: seq<string>, b: seq<string>)
    ensures Transforms(Script(a, b), a, b)
    ensures Subsequence(Kept(Script(a, b)), a) && Subsequence(Kept(Script(a, b)), b)
    ensures forall c :: Subsequence(c, a) && Subsequence(c, b) ==> |c| <= |Kept(Script(a, b))|
    ensures forall t :: Transforms(t, a, b) ==> Changes(Script(a, b)) <= Changes(t)
  {
    ScriptTransforms(a, b);
    ScriptKeepsLcs(a, b);
    KeptIsCommon(Script(a, b));
    ChangesCount(Script(a, b));
    forall c | Subsequence(c, a) && Subsequence(c, b)
      ensures |c| <= |Kept(Script(a, b))|
    {
      LcsBoundsCommonSubsequences(c, a, b);
    }
    forall t | Transforms(t, a, b)
      ensures Changes(Script(a, b)) <= Changes(t)
    {
      KeptIsCommon(t);
      ChangesCount(t);
      LcsBoundsCommonSubsequences(Kept(t), a, b);
    }
  }

  // ----- the tie-break -----

  predicate NoAddThenDel(ops: Ops) {
    forall k :: 0 <= k < |ops| - 1 && ops[k].kind == Add ==> ops[k + 1].kind != Del
  }

  /** After an addition the backtrack never removes: this is what `>=` (and not `>`) buys. */
  lemma {:induction false} AddIsNeverFollowedByDel(a: seq<string>, b: seq<string>)
    ensures NoAddThenDel(Script(a, b))
    decreases |a| + |b|
  {
    if a != [] || b != [] {
      var s := Script(a, b);
      if s[0].kind == Equal {
        AddIsNeverFollowedByDel(a[1..], b[1..]);
      } else if s[0].kind == Del {
        AddIsNeverFollowedByDel(a[1..], b);
      } else {
        AddIsNeverFollowedByDel(a, b[1..]);
        LcsDrop(a, b);
        if b != [] {
          LcsDrop(a, b[1..]);
          if a != [] {
            LcsDrop(a[1..], b);
          }
        }
      }
    }
  }

  /** Within a run of changes every removal comes before every addition. */
  lemma {:induction false} RemovalsComeFirst(ops: Ops, i: nat, j: nat)
    requires NoAddThenDel(ops)
    requires i <= j < |ops|
    requires forall k :: i <= k <= j ==> ops[k].kind != Equal
    requires ops[i].kind == Add
    ensures ops[j].kind == Add
    decreases j - i
  {
    if i < j {
      RemovalsComeFirst(ops, i + 1, j);
    }
  }

  /** Every change block of the computed script lists its removals first. */
  lemma ChangeBlocksListRemovalsFirst(a: seq<string>, b: seq<string>, i: nat, j: nat)
    requires i < j < |Script(a, b)|
    requires forall k :: i <= k <= j ==> Script(a, b)[k].kind != Equal
    ensures Script(a, b)[i].kind == Add ==> Script(a, b)[j].kind == Add
  {
    AddIsNeverFollowedByDel(a, b);
    if Script(a, b)[i].kind == Add {
      RemovalsComeFirst(Script(a, b), i, j);
    }
  }

  /** The script has no change at all exactly when the two sequences are equal. */
  lemma NoChangesIff(a: seq<string>, b: seq<string>)
    ensures (forall k :: 0 <= k < |Script(a, b)| ==> Script(a, b)[k].kind == Equal) <==> a == b
  {
    ScriptTransforms(a, b);
    ScriptKeepsLcs(a, b);
    if a == b {
      ScriptOfEqual(a);
    }
    if forall k :: 0 <= k < |Script(a, b)| ==> Script(a, b)[k].kind == Equal {
      AllEqual(Script(a, b));
    }
  }

  lemma {:induction false} AllEqual(ops: Ops)
    requires forall k :: 0 <= k < |ops| ==> ops[k].kind == Equal
    ensures Olds(ops) == News(ops)
  {
    if ops != [] {
      AllEqual(ops[1..]);
    }
  }

  lemma {:induction false} ScriptOfEqual(a: seq<string>)
    ensures forall k :: 0 <= k < |Script(a, a)| ==> Script(a, a)[k].kind == Equal
  {
    if a != [] {
      ScriptOfEqual(a[1..]);
    }
  }

  /** The texts of the script are lines of the inputs. */
  lemma {:induction false} TextsAreLines(a: seq<string>, b: seq<string>)
    ensures forall k :: 0 <= k < |Script(a, b)| ==> Script(a, b)[k].text in a || Script(a, b)[k].text in b
    decreases |a| + |b|
  {
    if a != [] || b != [] {
      var s := Script(a, b);
      if s[0].kind == Equal {
        TextsAreLines(a[1..], b[1..]);
      } else if s[0].kind == Del {
        TextsAreLines(a[1..], b);
      } else {
        TextsAreLines(a, b[1..]);
      }
    }
  }
}
