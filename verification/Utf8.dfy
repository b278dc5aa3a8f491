/** Character boundaries in byte strings (src/util/Utf8.cpp), and well-formed UTF-8 (RFC 3629). */
module Utf8 {

  type byte = b: int | 0 <= b < 256

  const NEWLINE: byte := 10
  const SPACE: byte := 32

  // ----- lead and continuation bytes -----

  predicate IsCont(b: byte) {
    0x80 <= b < 0xC0
  }

  /** Bytes in the sequence that `b` starts; 1 for a continuation byte or an invalid lead. */
  function SeqLen(b: byte): (n: nat)
    ensures 1 <= n <= 4
  {
    if b < 0x80 then 1
    else if 0xC0 <= b < 0xE0 then 2
    else if 0xE0 <= b < 0xF0 then 3
    else if 0xF0 <= b < 0xF8 then 4
    else 1
  }

  /** The ranges above are what the source's masks select. */
  lemma MasksAreRanges(b: bv8)
    ensures b & 0xC0 == 0x80 <==> 0x80 <= b < 0xC0
    ensures b & 0xE0 == 0xC0 <==> 0xC0 <= b < 0xE0
    ensures b & 0xF0 == 0xE0 <==> 0xE0 <= b < 0xF0
    ensures b & 0xF8 == 0xF0 <==> 0xF0 <= b < 0xF8
  {
  }

  /** The length that the masks announce, for every byte. */
  lemma SequenceLength(b: bv8)
    ensures SeqLen(b as int)
            == if b & 0xE0 == 0xC0 then 2 else if b & 0xF0 == 0xE0 then 3 else if b & 0xF8 == 0xF0 then 4 else 1
  {
    MasksAreRanges(b);
  }

  /** The bytes the first sequence of `s` takes up, cut off at the end of `s`. */
  function Step(s: seq<byte>): (n: nat)
    requires s != []
    ensures 1 <= n <= |s|
  {
    if SeqLen(s[0]) <= |s| then SeqLen(s[0]) else |s|
  }

  // ----- well-formed UTF-8 -----

  /** One character: the productions UTF8-1 to UTF8-4 in section 4 of RFC 3629. */
  predicate ValidChar(c: seq<byte>) {
    || (|c| == 1 && c[0] < 0x80)
    || (|c| == 2 && 0xC2 <= c[0] < 0xE0 && IsCont(c[1]))
    || (|c| == 3 && IsCont(c[1]) && IsCont(c[2])
        && ((c[0] == 0xE0 && 0xA0 <= c[1])
            || 0xE1 <= c[0] < 0xED
            || (c[0] == 0xED && c[1] < 0xA0)
            || 0xEE <= c[0] < 0xF0))
    || (|c| == 4 && IsCont(c[1]) && IsCont(c[2]) && IsCont(c[3])
        && ((c[0] == 0xF0 && 0x90 <= c[1])
            || 0xF1 <= c[0] < 0xF4
            || (c[0] == 0xF4 && c[1] < 0x90)))
  }

  predicate WellFormed(s: seq<byte>) {
    s == [] || (ValidChar(s[..Step(s)]) && WellFormed(s[Step(s)..]))
  }

  /** A valid character is a lead byte that announces its length, then continuation bytes. */
  lemma ValidCharShape(c: seq<byte>)
    requires ValidChar(c)
    ensures c != [] && !IsCont(c[0]) && SeqLen(c[0]) == |c| && forall k :: 1 <= k < |c| ==> IsCont(c[k])
  {
  }

  lemma WellFormedCons(c: seq<byte>, rest: seq<byte>)
    requires ValidChar(c)
    ensures Step(c + rest) == |c| && (c + rest)[..|c|] == c && (c + rest)[|c|..] == rest
    ensures WellFormed(c + rest) <==> WellFormed(rest)
  {
    ValidCharShape(c);
  }

  /** What follows does not change the first sequence of a text that holds it whole. */
  lemma ConcatStep(a: seq<byte>, b: seq<byte>)
    requires a != [] && SeqLen(a[0]) <= |a|
    ensures a + b != [] && Step(a + b) == Step(a)
    ensures (a + b)[..Step(a)] == a[..Step(a)] && (a + b)[Step(a)..] == a[Step(a)..] + b
  {
  }

  lemma {:induction false} WellFormedConcat(a: seq<byte>, b: seq<byte>)
    requires WellFormed(a)
    ensures WellFormed(a + b) <==> WellFormed(b)
  {
    if a == [] {
      assert a + b == b;
    } else {
      ValidCharShape(a[..Step(a)]);
      ConcatStep(a, b);
      WellFormedConcat(a[Step(a)..], b);
    }
  }

  // ----- counting -----

  /** Code points in `s`, one per sequence. */
  function Count(s: seq<byte>): (n: nat)
    ensures n <= |s|
    ensures n == 0 <==> s == []
  {
    if s == [] then 0 else 1 + Count(s[Step(s)..])
  }

  method CountCodePoints(s: seq<byte>) returns (n: nat)
    ensures n == Count(s)
  {
    n := 0;
    var i := 0;
    ghost var rest := s;
    while i < |s|
      invariant 0 <= i
      invariant rest == if i <= |s| then s[i..] else []
      invariant n + Count(rest) == Count(s)
      decreases |s| - i
    {
      rest := rest[Step(rest)..];
      i := i + SeqLen(s[i]);
      n := n + 1;
    }
  }

  lemma {:induction false} CountConcat(a: seq<byte>, b: seq<byte>)
    requires WellFormed(a)
    ensures Count(a + b) == Count(a) + Count(b)
  {
    if a == [] {
      assert a + b == b;
    } else {
      ValidCharShape(a[..Step(a)]);
      ConcatStep(a, b);
      CountConcat(a[Step(a)..], b);
    }
  }

  /** Bytes spanned by the first `n` code points of `s`, or by all of them. */
  function Take(s: seq<byte>, n: nat): (k: nat)
    ensures k <= |s|
    ensures s != [] && n > 0 ==> k > 0
  {
    if s == [] || n == 0 then 0 else Step(s) + Take(s[Step(s)..], n - 1)
  }

  /** Taking as many code points as there are takes everything, and fewer does not. This holds of all bytes. */
  lemma {:induction false} TakeAllIff(s: seq<byte>, n: nat)
    ensures Count(s) <= n <==> Take(s, n) == |s|
  {
    if s != [] && n > 0 {
      TakeAllIff(s[Step(s)..], n - 1);
    }
  }

  /** A proper prefix is cut after a whole sequence. */
  lemma PrefixStep(s: seq<byte>, t: nat)
    requires s != [] && Step(s) <= t <= |s|
    ensures s[..t] != [] && Step(s[..t]) == Step(s)
    ensures s[..t][..Step(s)] == s[..Step(s)] && s[..t][Step(s)..] == s[Step(s)..][..t - Step(s)]
    ensures s[t..] == s[Step(s)..][t - Step(s)..]
  {
  }

  lemma CountPrefix(s: seq<byte>, t: nat)
    requires s != [] && t <= |s| - Step(s)
    ensures Count(s[..Step(s) + t]) == 1 + Count(s[Step(s)..][..t])
  {
    hide Take;
    PrefixStep(s, Step(s) + t);
  }

  /** Exactly `n` code points are taken, if there are that many. This holds of all bytes. */
  lemma {:induction false} TakeCount(s: seq<byte>, n: nat)
    requires n <= Count(s)
    ensures Count(s[..Take(s, n)]) == n
  {
    hide Step;
    if n == 0 {
      assert s[..0] == [];
    } else {
      TakeCount(s[Step(s)..], n - 1);
      CountPrefix(s, Take(s[Step(s)..], n - 1));
    }
  }

  /** A boundary behind the first character is one of the rest. */
  lemma BoundaryInRest(s: seq<byte>, t: nat)
    requires s != [] && ValidChar(s[..Step(s)]) && t <= |s| - Step(s) && Boundary(s[Step(s)..], t)
    ensures Boundary(s, Step(s) + t)
  {
    hide ValidChar, WellFormed, Step;
    var c, rest := s[..Step(s)], s[Step(s)..];
    WellFormedCons(c, rest[..t]);
    assert s[..Step(s) + t] == c + rest[..t] && s[Step(s) + t..] == rest[t..];
  }

  /** Well-formed text is cut into well-formed parts. */
  lemma {:induction false} TakeWellFormed(s: seq<byte>, n: nat)
    requires WellFormed(s)
    ensures Boundary(s, Take(s, n))
  {
    if s == [] || n == 0 {
      assert s[..0] == [] && s[0..] == s;
    } else {
      TakeWellFormed(s[Step(s)..], n - 1);
      hide ValidChar, Boundary;
      BoundaryInRest(s, Take(s[Step(s)..], n - 1));
    }
  }

  /** The source's loop behind take_cols and bytes_for_cols. */
  method TakeCols(s: seq<byte>, n: nat) returns (i: nat)
    ensures i == Take(s, n)
  {
    i := 0;
    var k := 0;
    ghost var rest := s;
    while k < n && i < |s|
      invariant 0 <= i <= |s| && 0 <= k <= n
      invariant rest == s[i..]
      invariant i + Take(rest, n - k) == Take(s, n)
    {
      rest := rest[Step(rest)..];
      i := Next(s, i);
      k := k + 1;
    }
  }

  // ----- boundaries -----

  /** An ASCII byte is one character. */
  lemma AsciiChar(b: byte)
    requires b < 0x80
    ensures WellFormed([b]) && Count([b]) == 1
  {
    var c: seq<byte> := [b];
    assert c[..Step(c)] == c && c[Step(c)..] == [];
  }

  /** Position `i` lies between characters: both sides are well-formed. */
  predicate Boundary(s: seq<byte>, i: int) {
    0 <= i <= |s| && WellFormed(s[..i]) && WellFormed(s[i..])
  }

  /** The next boundary after `pos`. */
  function Next(s: seq<byte>, pos: nat): (r: nat)
    ensures r <= |s| && (pos < |s| ==> r == pos + Step(s[pos..]))
  {
    if pos >= |s| then |s|
    else if pos + SeqLen(s[pos]) > |s| then |s|
    else pos + SeqLen(s[pos])
  }

  /** The nearest position at or before `i` that is 0 or no continuation byte. */
  function BackToLead(s: seq<byte>, i: nat): (r: nat)
    requires i < |s|
    ensures r <= i && (r == 0 || !IsCont(s[r]))
    ensures forall k :: r < k <= i ==> IsCont(s[k])
  {
    if i > 0 && IsCont(s[i]) then BackToLead(s, i - 1) else i
  }

  /** The boundary before `pos`. */
  function Prev(s: seq<byte>, pos: nat): (r: nat)
    requires pos <= |s|
    ensures r <= pos && (pos > 0 ==> r < pos)
  {
    if pos == 0 then 0 else BackToLead(s, pos - 1)
  }

  /** The start of the character `pos` lands in. */
  function Snap(s: seq<byte>, pos: nat): nat {
    if pos >= |s| then |s| else BackToLead(s, pos)
  }

  /** Whatever the bytes: the steps back and forth, and the count, go by lead bytes alone. */
  lemma StepsOfAnyBytes(s: seq<byte>, pos: nat)
    requires pos < |s|
    ensures Next(s, pos) == if pos + SeqLen(s[pos]) < |s| then pos + SeqLen(s[pos]) else |s|
    ensures Count(s[pos..]) == 1 + Count(s[Next(s, pos)..])
    ensures pos > 0 ==>
              && (Prev(s, pos) == 0 || !IsCont(s[Prev(s, pos)]))
              && forall k :: Prev(s, pos) < k < pos ==> IsCont(s[k])
    ensures Snap(s, pos) <= pos && (Snap(s, pos) == 0 || !IsCont(s[Snap(s, pos)]))
    ensures forall k :: Snap(s, pos) < k <= pos ==> IsCont(s[k])
  {
    assert s[pos..][Step(s[pos..])..] == s[Next(s, pos)..];
  }

  method PrevBoundary(s: seq<byte>, pos: nat) returns (i: nat)
    requires pos <= |s|
    ensures i == Prev(s, pos)
  {
    if pos == 0 {
      return 0;
    }
    i := pos - 1;
    while i > 0 && IsCont(s[i])
      invariant 0 <= i < |s|
      invariant BackToLead(s, i) == BackToLead(s, pos - 1)
    {
      i := i - 1;
    }
  }

  method SnapBoundary(s: seq<byte>, pos: nat) returns (i: nat)
    ensures i == Snap(s, pos)
  {
    if pos == 0 || pos >= |s| {
      return if pos > |s| then |s| else pos;
    }
    if !IsCont(s[pos]) {
      return pos;
    }
    i := pos;
    while i > 0 && IsCont(s[i])
      invariant 0 <= i < |s|
      invariant BackToLead(s, i) == BackToLead(s, pos)
    {
      i := i - 1;
    }
  }

  /** In well-formed text the boundaries are the positions that hold no continuation byte. */
  lemma {:induction false} BoundaryIff(s: seq<byte>, i: nat)
    requires WellFormed(s) && i <= |s|
    ensures Boundary(s, i) <==> i == |s| || !IsCont(s[i])
    decreases |s|
  {
    if s == [] || i == 0 {
      assert s[..0] == [] && s[0..] == s;
      if s != [] {
        ValidCharShape(s[..Step(s)]);
      }
    } else if i < Step(s) {
      ValidCharShape(s[..Step(s)]);
      assert s[..Step(s)][i] == s[i] && s[i..][0] == s[i];
      ContIsNoStart(s[i..]);
    } else {
      var k := Step(s);
      var c, rest := s[..k], s[k..];
      assert s == c + rest;
      BoundaryIff(rest, i - k);
      BoundaryBeyond(c, rest, i - k);
    }
  }

  /** A character in front moves the boundaries. */
  lemma BoundaryBeyond(c: seq<byte>, rest: seq<byte>, i: nat)
    requires ValidChar(c) && i <= |rest|
    ensures Boundary(c + rest, |c| + i) <==> Boundary(rest, i)
  {
    var s := c + rest;
    assert s[..|c| + i] == c + rest[..i] && s[|c| + i..] == rest[i..];
    WellFormedCons(c, rest[..i]);
  }

  lemma ContIsNoStart(s: seq<byte>)
    requires s != [] && IsCont(s[0])
    ensures !WellFormed(s)
  {
  }

  /** Stepping forward from a boundary passes exactly one character. */
  lemma NextBoundary(s: seq<byte>, p: nat)
    requires Boundary(s, p) && p < |s|
    ensures Boundary(s, Next(s, p)) && ValidChar(s[p..Next(s, p)])
    ensures Count(s[..Next(s, p)]) == Count(s[..p]) + 1
  {
    var n := Next(s, p);
    var c := s[p..n];
    assert s[p..][..n - p] == c && s[p..][n - p..] == s[n..];
    assert s[..n] == s[..p] + c;
    assert c + [] == c;
    WellFormedCons(c, []);
    WellFormedConcat(s[..p], c);
    CountConcat(s[..p], c);
    assert Count(c) == 1 by {
      assert c[Step(c)..] == [];
    }
  }

  lemma WellFormedAround(s: seq<byte>, p: nat)
    requires Boundary(s, p)
    ensures WellFormed(s)
  {
    WellFormedConcat(s[..p], s[p..]);
    assert s == s[..p] + s[p..];
  }

  /** The first boundary at or before `i`, found by going back over continuation bytes. */
  lemma LeadIsBoundary(s: seq<byte>, i: nat)
    requires WellFormed(s) && i < |s|
    ensures Boundary(s, BackToLead(s, i))
    ensures forall k :: BackToLead(s, i) < k <= i ==> !Boundary(s, k)
  {
    var r := BackToLead(s, i);
    BoundaryIff(s, 0);
    assert s[..0] == [] && s[0..] == s;
    BoundaryIff(s, r);
    forall k | r < k <= i
      ensures !Boundary(s, k)
    {
      BoundaryIff(s, k);
    }
  }

  /** One step back from the next boundary. */
  lemma PrevOfNext(s: seq<byte>, p: nat)
    requires Boundary(s, p) && p < |s|
    ensures Prev(s, Next(s, p)) == p
  {
    WellFormedAround(s, p);
    NextBoundary(s, p);
    NoBoundaryInside(s, p);
    LeadIsBoundary(s, Next(s, p) - 1);
  }

  /** One step forward from the previous boundary. */
  lemma NextOfPrev(s: seq<byte>, p: nat)
    requires Boundary(s, p) && p > 0
    ensures Boundary(s, Prev(s, p)) && Prev(s, p) < p && Next(s, Prev(s, p)) == p
  {
    WellFormedAround(s, p);
    LeadIsBoundary(s, p - 1);
    NextBoundary(s, Prev(s, p));
    NoBoundaryInside(s, Prev(s, p));
  }

  /** No boundary lies strictly inside a character. */
  lemma NoBoundaryInside(s: seq<byte>, p: nat)
    requires Boundary(s, p) && p < |s|
    ensures forall k :: p < k < Next(s, p) ==> !Boundary(s, k)
  {
    WellFormedAround(s, p);
    NextBoundary(s, p);
    var c := s[p..Next(s, p)];
    ValidCharShape(c);
    forall k | p < k < Next(s, p)
      ensures !Boundary(s, k)
    {
      assert s[k] == c[k - p];
      BoundaryIff(s, k);
    }
  }

  /** Snapping gives the last boundary at or before the position. */
  lemma SnapIsLastBoundary(s: seq<byte>, pos: nat)
    requires WellFormed(s) && pos <= |s|
    ensures Boundary(s, Snap(s, pos)) && Snap(s, pos) <= pos
    ensures forall k :: Snap(s, pos) < k <= pos ==> !Boundary(s, k)
  {
    if pos < |s| {
      LeadIsBoundary(s, pos);
    } else {
      assert s[..|s|] == s && s[|s|..] == [];
    }
  }

  /** Different boundaries have different numbers of code points before them. */
  lemma {:induction false} CountIncreases(s: seq<byte>, p: nat, q: nat)
    requires Boundary(s, p) && Boundary(s, q) && p < q
    ensures Count(s[..p]) < Count(s[..q])
    decreases q - p
  {
    hide WellFormed, ValidChar, Count;
    var n := Next(s, p);
    NextBoundary(s, p);
    NoBoundaryInside(s, p);
    if n < q {
      CountIncreases(s, n, q);
    }
  }

  lemma WellFormedBetween(s: seq<byte>, p: nat, q: nat)
    requires Boundary(s, p) && Boundary(s, q) && p <= q
    ensures WellFormed(s[p..q])
  {
    assert s[..q] == s[..p] + s[p..q];
    WellFormedConcat(s[..p], s[p..q]);
  }

  /** Counting adds up over boundaries. */
  lemma CountBetween(s: seq<byte>, p: nat, q: nat, r: nat)
    requires Boundary(s, p) && Boundary(s, q) && p <= q <= r <= |s|
    ensures Count(s[p..r]) == Count(s[p..q]) + Count(s[q..r])
  {
    WellFormedBetween(s, p, q);
    assert s[p..r] == s[p..q] + s[q..r];
    CountConcat(s[p..q], s[q..r]);
  }

  /** A byte that is no continuation byte starts a character, and so does the byte after an ASCII one. */
  lemma AsciiBoundaries(s: seq<byte>, k: nat)
    requires WellFormed(s) && k < |s| && s[k] < 0x80
    ensures Boundary(s, k) && Boundary(s, k + 1) && Next(s, k) == k + 1
  {
    hide WellFormed, ValidChar;
    BoundaryIff(s, k);
    NextBoundary(s, k);
  }

  // ----- encoding a code point -----

  /** A Unicode scalar value: a code point that is no surrogate. */
  predicate IsScalar(cp: nat) {
    cp < 0xD800 || 0xE000 <= cp < 0x110000
  }

  /** Encoding a 32-bit code point; of a lead byte that does not fit, the lower eight bits are left. */
  function Encode(cp: nat): seq<byte>
    requires cp < 0x1_0000_0000
  {
    if cp <= 0x7F then [cp]
    else if cp <= 0x7FF then [0xC0 + cp / 64, 0x80 + cp % 64]
    else if cp <= 0xFFFF then [0xE0 + cp / 4096, 0x80 + cp / 64 % 64, 0x80 + cp % 64]
    else [0xF0 + cp / 262144 % 16, 0x80 + cp / 4096 % 64, 0x80 + cp / 64 % 64, 0x80 + cp % 64]
  }

  /** The sums above are what the source's shifts, masks and conversions to a byte compute. */
  lemma BitsAreSums(cp: bv32)
    ensures cp <= 0x7FF ==> 0xC0 | (cp >> 6) == 0xC0 + cp / 64
    ensures cp <= 0xFFFF ==> 0xE0 | (cp >> 12) == 0xE0 + cp / 4096
    ensures (0xF0 | (cp >> 18)) & 0xFF == 0xF0 + cp / 262144 % 16
    ensures 0x80 | ((cp >> 12) & 0x3F) == 0x80 + cp / 4096 % 64
    ensures 0x80 | ((cp >> 6) & 0x3F) == 0x80 + cp / 64 % 64
    ensures 0x80 | (cp & 0x3F) == 0x80 + cp % 64
  {
  }

  /** The code point that a lead byte and continuation bytes spell (section 3 of RFC 3629). */
  function CodePoint(c: seq<int>): int
    requires 1 <= |c| <= 4
  {
    if |c| == 1 then c[0]
    else if |c| == 2 then (c[0] - 0xC0) * 64 + (c[1] - 0x80)
    else if |c| == 3 then (c[0] - 0xE0) * 4096 + (c[1] - 0x80) * 64 + (c[2] - 0x80)
    else (c[0] - 0xF0) * 262144 + (c[1] - 0x80) * 4096 + (c[2] - 0x80) * 64 + (c[3] - 0x80)
  }

  /** The bits of a code point that are encoded: all of them, or else the lowest 22. */
  function Encoded(cp: nat): nat {
    if cp <= 0xFFFF then cp else cp % 0x40_0000
  }

  /**
    For every 32-bit value: the bytes spell its bits that are encoded, and they are well-formed exactly if these are a
    scalar value that needs as many bytes.
   */
  lemma EncodeIsWellFormedIff(cp: nat)
    requires cp < 0x1_0000_0000
    ensures CodePoint(Encode(cp)) == Encoded(cp)
    ensures WellFormed(Encode(cp)) <==> ValidChar(Encode(cp))
    ensures WellFormed(Encode(cp)) <==> IsScalar(Encoded(cp)) && (cp > 0xFFFF ==> Encoded(cp) > 0xFFFF)
  {
    var c := Encode(cp);
    if cp > 0xFFFF {
      FourBytes(cp);
    } else if cp > 0x7FF {
      ThreeBytes(cp);
    }
    if c[0] < 0xF8 {
      assert Step(c) == |c| && c[..|c|] == c && c[|c|..] == [];
    } else {
      assert |c[..Step(c)]| == 1;
    }
  }

  /** The bytes are well-formed and spell the value that was given exactly for scalar values. */
  lemma EncodeIsFaithfulIff(cp: nat)
    requires cp < 0x1_0000_0000
    ensures WellFormed(Encode(cp)) && CodePoint(Encode(cp)) == cp <==> IsScalar(cp)
  {
    hide WellFormed, ValidChar, Encode, CodePoint;
    EncodeIsWellFormedIff(cp);
  }

  /** A value that is no code point and gets the bytes of one. */
  lemma EncodeWrapsAround()
    ensures WellFormed(Encode(0x41_0000)) && Encode(0x41_0000) == Encode(0x1_0000)
  {
    EncodeIsWellFormedIff(0x41_0000);
  }

  lemma ThreeBytes(cp: nat)
    requires 0x7FF < cp <= 0xFFFF
    ensures CodePoint(Encode(cp)) == cp
    ensures ValidChar(Encode(cp)) <==> IsScalar(cp)
  {
    var a, b, c := cp / 4096, cp / 64 % 64, cp % 64;
    assert cp / 64 == a * 64 + b;
    assert cp == a * 4096 + b * 64 + c;
  }

  /** The code point with these bits, in groups of six. */
  function Spelled(a: nat, b: nat, c: nat, d: nat): nat {
    a * 262144 + b * 4096 + c * 64 + d
  }

  lemma SixBitGroups(cp: nat)
    ensures cp % 0x40_0000 == Spelled(cp / 262144 % 16, cp / 4096 % 64, cp / 64 % 64, cp % 64)
  {
    var q, r, t, h := cp / 64, cp / 4096, cp / 262144, cp / 0x40_0000;
    assert r == q / 64 && t == r / 64 && h == t / 16;
    assert cp % 0x40_0000 == cp - h * 0x40_0000;
    assert cp == q * 64 + cp % 64 && q == r * 64 + q % 64 && r == t * 64 + r % 64 && t == h * 16 + t % 16;
  }

  lemma FourBytesAre(a: nat, b: nat, c: nat, d: nat)
    requires a < 16 && b < 64 && c < 64 && d < 64
    ensures var s := [0xF0 + a, 0x80 + b, 0x80 + c, 0x80 + d];
            && CodePoint(s) == Spelled(a, b, c, d)
            && (ValidChar(s) <==> 0xFFFF < Spelled(a, b, c, d) < 0x11_0000)
  {
  }

  lemma FourBytes(cp: nat)
    requires 0xFFFF < cp < 0x1_0000_0000
    ensures CodePoint(Encode(cp)) == Encoded(cp)
    ensures ValidChar(Encode(cp)) <==> 0xFFFF < Encoded(cp) < 0x11_0000
  {
    hide CodePoint, ValidChar, Spelled;
    SixBitGroups(cp);
    FourBytesAre(cp / 262144 % 16, cp / 4096 % 64, cp / 64 % 64, cp % 64);
  }
}
