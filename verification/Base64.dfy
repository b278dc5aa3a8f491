/** Base64 as src/util/Base64.cpp has it: section 4 of RFC 4648, with a decoder that never masks its accumulator. */
module Base64 {
  import opened Sequences


  type sextet = v: bv8 | v < 64

  const PAD: bv8 := 61  // '='
  const NOT_A_DIGIT: bv8 := 0xFF

  // ----- the alphabet -----

  const UPPER := "ABCDEFGHIJKLMNOPQRSTUVWXYZ"
  const LOWER := "abcdefghijklmnopqrstuvwxyz"
  const ALPHABET := UPPER + LOWER + "0123456789+/"

  /** The code of the digit with six-bit value `v`. */
  function Digit(v: sextet): bv8 {
    if v < 26 then 65 + v
    else if v < 52 then 71 + v
    else if v < 62 then v - 4
    else if v == 62 then 43
    else 47
  }

  /** The value of a digit, or NOT_A_DIGIT. */
  function Value(c: bv8): bv8 {
    if 65 <= c <= 90 then c - 65
    else if 97 <= c <= 122 then c - 71
    else if 48 <= c <= 57 then c + 4
    else if c == 43 then 62
    else if c == 47 then 63
    else NOT_A_DIGIT
  }

  predicate IsDigit(c: bv8) {
    Value(c) != NOT_A_DIGIT
  }

  /** C's isspace in the default locale. */
  predicate IsSpace(c: bv8) {
    c == 32 || 9 <= c <= 13
  }

  /** Tab, line feed, vertical tab, form feed, carriage return, and the space. */
  lemma Spaces(c: bv8)
    ensures IsSpace(c) <==> c in {0x09, 0x0A, 0x0B, 0x0C, 0x0D, 0x20}
  {
  }

  lemma UpperAt(v: nat)
    requires v < 26
    ensures |UPPER| == 26 && UPPER[v] as int == 65 + v
  {
  }

  lemma LowerAt(v: nat)
    requires v < 26
    ensures |LOWER| == 26 && LOWER[v] as int == 97 + v
  {
  }

  /** Digits are the characters of the alphabet, in order. */
  lemma DigitsAreTheAlphabet(v: sextet)
    ensures |ALPHABET| == 64 && ALPHABET[v as int] as int == Digit(v) as int
  {
    if v < 26 {
      UpperAt(v as int);
    } else if v < 52 {
      UpperAt(0);
      LowerAt(v as int - 26);
    } else {
      UpperAt(0);
      LowerAt(0);
    }
  }

  /** Value inverts Digit, on all 256 bytes; no digit is padding or white space. */
  lemma DigitsAndValues(v: sextet, c: bv8)
    ensures Value(Digit(v)) == v && Digit(v) != PAD && !IsSpace(Digit(v))
    ensures IsDigit(c) ==> Value(c) < 64 && Digit(Value(c)) == c && c != PAD && !IsSpace(c)
  {
  }

  /** The source's reverse table, filled digit by digit. */
  method MakeReverse() returns (t: array<bv8>)
    ensures fresh(t) && t.Length == 256
    ensures forall c: bv8 :: t[c as int] == Value(c)
  {
    t := new bv8[256](_ => NOT_A_DIGIT);
    var i: bv8 := 0;
    while i < 64
      invariant i <= 64
      invariant forall c: bv8 :: t[c as int] == if Value(c) < i then Value(c) else NOT_A_DIGIT
      decreases 64 - i
    {
      DigitsAndValues(i, 0);
      t[Digit(i) as int] := i;
      i := i + 1;
    }
  }

  // ----- bits -----

  function First(b0: bv8): sextet {
    b0 >> 2
  }

  function Second(b0: bv8, b1: bv8): sextet {
    ((b0 & 0x03) << 4) | (b1 >> 4)
  }

  function Third(b1: bv8, b2: bv8): sextet {
    ((b1 & 0x0F) << 2) | (b2 >> 6)
  }

  function Fourth(b2: bv8): sextet {
    b2 & 0x3F
  }

  /** The byte completed by digit `d` after digit `p`, when `d` is the second, third or fourth of a group. */
  function Completed(place: int, p: sextet, d: sextet): bv8 {
    if place == 1 then (p << 2) | (d >> 4)
    else if place == 2 then (p << 4) | (d >> 2)
    else (p << 6) | d
  }

  lemma BytesOfDigits(b0: bv8, b1: bv8, b2: bv8)
    ensures Completed(1, First(b0), Second(b0, b1)) == b0
    ensures Completed(2, Second(b0, b1), Third(b1, b2)) == b1
    ensures Completed(3, Third(b1, b2), Fourth(b2)) == b2
  {
  }

  lemma DigitsOfBytes(a: sextet, b: sextet, c: sextet, d: sextet)
    ensures var b0, b1, b2 := Completed(1, a, b), Completed(2, b, c), Completed(3, c, d);
            First(b0) == a && Second(b0, b1) == b && Third(b1, b2) == c && Fourth(b2) == d
    ensures b & 0x0F == 0 ==> Second(Completed(1, a, b), 0) == b
    ensures c & 0x03 == 0 ==> Third(Completed(2, b, c), 0) == c
  {
  }

  /** A full group carries exactly the 24 bits of its three bytes, most significant first. */
  lemma GroupKeepsBits(b0: bv8, b1: bv8, b2: bv8)
    ensures (First(b0) as bv32 << 18) | (Second(b0, b1) as bv32 << 12) | (Third(b1, b2) as bv32 << 6) | Fourth(b2) as bv32
         == (b0 as bv32 << 16) | (b1 as bv32 << 8) | b2 as bv32
  {
  }

  // ----- encoding -----

  /** Six-bit groups of the input, the last one filled with zero bits. */
  function Sextets(bytes: seq<bv8>): seq<sextet> {
    if |bytes| == 0 then []
    else if |bytes| == 1 then [First(bytes[0]), Second(bytes[0], 0)]
    else if |bytes| == 2 then [First(bytes[0]), Second(bytes[0], bytes[1]), Third(bytes[1], 0)]
    else
      [First(bytes[0]), Second(bytes[0], bytes[1]), Third(bytes[1], bytes[2]), Fourth(bytes[2])]
      + Sextets(bytes[3..])
  }

  function DigitText(digits: seq<sextet>): seq<bv8> {
    seq(|digits|, k requires 0 <= k < |digits| => Digit(digits[k]))
  }

  function Padding(n: nat): seq<bv8> {
    if n % 3 == 1 then [PAD, PAD] else if n % 3 == 2 then [PAD] else []
  }

  function Encode(bytes: seq<bv8>): seq<bv8> {
    DigitText(Sextets(bytes)) + Padding(|bytes|)
  }

  /** The four characters of a full group. */
  function Group(b0: bv8, b1: bv8, b2: bv8): seq<bv8> {
    [Digit(First(b0)), Digit(Second(b0, b1)), Digit(Third(b1, b2)), Digit(Fourth(b2))]
  }

  lemma DigitTextConcat(a: seq<sextet>, b: seq<sextet>)
    ensures DigitText(a + b) == DigitText(a) + DigitText(b)
  {
    hide Digit;
  }

  lemma EncodeGroup(bytes: seq<bv8>)
    requires |bytes| >= 3
    ensures Encode(bytes) == Group(bytes[0], bytes[1], bytes[2]) + Encode(bytes[3..])
  {
    hide First, Second, Third, Fourth, Digit;
    var rest := Sextets(bytes[3..]);
    var first := [First(bytes[0]), Second(bytes[0], bytes[1]), Third(bytes[1], bytes[2]), Fourth(bytes[2])];
    assert DigitText(first) == Group(bytes[0], bytes[1], bytes[2]);
    hide DigitText, Group;
    DigitTextConcat(first, rest);
    Assoc(DigitText(first), DigitText(rest), Padding(|bytes|));
  }

  lemma EncodeTail(bytes: seq<bv8>)
    requires |bytes| < 3
    ensures Encode(bytes) ==
            if |bytes| == 0 then []
            else if |bytes| == 1 then [Digit(First(bytes[0])), Digit(Second(bytes[0], 0)), PAD, PAD]
            else [Digit(First(bytes[0])), Digit(Second(bytes[0], bytes[1])), Digit(Third(bytes[1], 0)), PAD]
  {
  }

  /** `out` is the encoding of the first `i` bytes. */
  ghost predicate Encoded(bytes: seq<bv8>, i: nat, out: seq<bv8>) {
    i <= |bytes| && out + Encode(bytes[i..]) == Encode(bytes)
  }

  lemma EncodedGroup(bytes: seq<bv8>, i: nat, out: seq<bv8>)
    requires Encoded(bytes, i, out) && i + 3 <= |bytes|
    ensures Encoded(bytes, i + 3, out + Group(bytes[i], bytes[i + 1], bytes[i + 2]))
  {
    var group := Group(bytes[i], bytes[i + 1], bytes[i + 2]);
    EncodeGroup(bytes[i..]);
    assert bytes[i..][3..] == bytes[i + 3..];
    assert out + (group + Encode(bytes[i + 3..])) == (out + group) + Encode(bytes[i + 3..]);
  }

  /** The one or two bytes that do not fill a group. */
  method EncodeRemainder(bytes: seq<bv8>, i: nat) returns (tail: seq<bv8>)
    requires i <= |bytes| < i + 3
    ensures tail == Encode(bytes[i..])
  {
    EncodeTail(bytes[i..]);
    var rem := |bytes| - i;
    tail := [];
    if rem == 1 {
      var b0 := bytes[i];
      tail := [Digit(First(b0)), Digit(Second(b0, 0)), PAD, PAD];
    } else if rem == 2 {
      var b0, b1 := bytes[i], bytes[i + 1];
      tail := [Digit(First(b0)), Digit(Second(b0, b1)), Digit(Third(b1, 0)), PAD];
    }
  }

  method Base64Encode(bytes: seq<bv8>) returns (out: seq<bv8>)
    ensures out == Encode(bytes)
  {
    out := [];
    var i := 0;
    assert bytes[0..] == bytes;
    while i + 3 <= |bytes|
      invariant Encoded(bytes, i, out)
    {
      var b0, b1, b2 := bytes[i], bytes[i + 1], bytes[i + 2];
      EncodedGroup(bytes, i, out);
      out := out + [Digit(First(b0)), Digit(Second(b0, b1)), Digit(Third(b1, b2)), Digit(Fourth(b2))];
      i := i + 3;
    }
    var tail := EncodeRemainder(bytes, i);
    out := out + tail;
  }

  /** The encoded length is four characters for every three bytes begun. */
  lemma {:induction false} EncodedLength(bytes: seq<bv8>)
    ensures |Encode(bytes)| == 4 * ((|bytes| + 2) / 3)
  {
    if |bytes| >= 3 {
      EncodedLength(bytes[3..]);
      EncodeGroup(bytes);
    } else {
      EncodeTail(bytes);
    }
  }

  // ----- decoding -----

  /** The digit values the decoder consumes: it stops at '=' or at a byte outside the alphabet. */
  function Consumed(text: seq<bv8>): seq<sextet> {
    if text == [] || text[0] == PAD then []
    else if IsSpace(text[0]) then Consumed(text[1..])
    else if !IsDigit(text[0]) then []
    else [Value(text[0])] + Consumed(text[1..])
  }

  /** Six-bit groups packed into bytes, four to three; bits that do not fill a byte are dropped. */
  function Pack(v: seq<sextet>): seq<bv8> {
    if |v| < 2 then []
    else if |v| == 2 then [Completed(1, v[0], v[1])]
    else if |v| == 3 then [Completed(1, v[0], v[1]), Completed(2, v[1], v[2])]
    else [Completed(1, v[0], v[1]), Completed(2, v[1], v[2]), Completed(3, v[2], v[3])] + Pack(v[4..])
  }

  function Decode(text: seq<bv8>): seq<bv8> {
    Pack(Consumed(text))
  }

  function Last(v: seq<sextet>): sextet {
    if v == [] then 0 else v[|v| - 1]
  }

  /** One more digit completes one more byte, unless it is the first of a group. */
  lemma {:induction false} PackSnoc(v: seq<sextet>, d: sextet)
    ensures Pack(v + [d]) == Pack(v) + if |v| % 4 == 0 then [] else [Completed(|v| % 4, Last(v), d)]
  {
    hide Completed;
    if |v| >= 4 {
      PackSnoc(v[4..], d);
      assert (v + [d])[4..] == v[4..] + [d];
      assert |v| == 4 ==> v[4..] == [];
    }
  }

  /** Shifts a digit into the accumulator; the six highest bits are lost. */
  function Shifted(buf: bv32, d: sextet): bv32 {
    (buf << 6) | d as bv32
  }

  /** The byte the source reads off the accumulator when `bits` bits stay behind. */
  function Emitted(next: bv32, bits: nat): bv8
    requires bits <= 6
  {
    ((next >> bits) & 0xFF) as bv8
  }

  /** The accumulator's high bits are never cleared; the byte read off it depends on two digits only. */
  lemma AccumulatorStep(buf: bv32, p: sextet, d: sextet, bits: int)
    requires buf & 0x3F == p as bv32
    ensures Shifted(buf, d) & 0x3F == d as bv32
    ensures bits == 4 ==> Emitted(Shifted(buf, d), bits) == Completed(1, p, d)
    ensures bits == 2 ==> Emitted(Shifted(buf, d), bits) == Completed(2, p, d)
    ensures bits == 0 ==> Emitted(Shifted(buf, d), bits) == Completed(3, p, d)
  {
    if bits == 4 {
      EmittedSecond(buf, p, d);
    } else if bits == 2 {
      EmittedThird(buf, p, d);
    } else {
      EmittedFourth(buf, p, d);
    }
  }

  lemma EmittedSecond(buf: bv32, p: sextet, d: sextet)
    requires buf & 0x3F == p as bv32
    ensures Emitted(Shifted(buf, d), 4) == Completed(1, p, d)
  {
  }

  lemma EmittedThird(buf: bv32, p: sextet, d: sextet)
    requires buf & 0x3F == p as bv32
    ensures Emitted(Shifted(buf, d), 2) == Completed(2, p, d)
  {
  }

  lemma EmittedFourth(buf: bv32, p: sextet, d: sextet)
    requires buf & 0x3F == p as bv32
    ensures Emitted(Shifted(buf, d), 0) == Completed(3, p, d)
  {
  }

  /** The number of accumulated bits after `k` digits. */
  function PendingBits(k: nat): nat {
    if k % 4 == 0 then 0 else if k % 4 == 1 then 6 else if k % 4 == 2 then 4 else 2
  }

  /** What shifting in one more digit completes. */
  lemma DigitCompletes(buf: bv32, seen: seq<sextet>, d: sextet)
    requires buf & 0x3F == Last(seen) as bv32
    ensures Shifted(buf, d) & 0x3F == d as bv32
    ensures Pack(seen + [d]) == Pack(seen) + if |seen| % 4 == 0 then []
                                             else [Emitted(Shifted(buf, d), PendingBits(|seen|) - 2)]
  {
    PackSnoc(seen, d);
    AccumulatorStep(buf, Last(seen), d, 6 - 2 * (|seen| % 4));
  }

  /** What the loop has consumed and produced after `i` characters. */
  ghost predicate Decoded(text: seq<bv8>, i: nat, seen: seq<sextet>, out: seq<bv8>) {
    && i <= |text|
    && seen + Consumed(text[i..]) == Consumed(text)
    && out == Pack(seen)
  }

  lemma DecodedStep(text: seq<bv8>, i: nat, seen: seq<sextet>, out: seq<bv8>)
    requires Decoded(text, i, seen, out) && i < |text|
    ensures text[i] == PAD || (!IsSpace(text[i]) && !IsDigit(text[i])) ==> out == Decode(text)
    ensures IsSpace(text[i]) ==> Decoded(text, i + 1, seen, out)
    ensures IsDigit(text[i]) ==>
              Value(text[i]) < 64 && Decoded(text, i + 1, seen + [Value(text[i])], Pack(seen + [Value(text[i])]))
  {
    assert text[i..][1..] == text[i + 1..];
    assert seen + [] == seen;
    DigitsAndValues(0, text[i]);
    if IsDigit(text[i]) {
      var v := Value(text[i]);
      assert (seen + [v]) + Consumed(text[i + 1..]) == seen + ([v] + Consumed(text[i + 1..]));
    }
  }

  /** Shifts one digit in; emits a byte when eight bits are there. */
  method Accumulate(buf: bv32, bits: nat, v: sextet, ghost seen: seq<sextet>)
    returns (next: bv32, left: nat, emitted: seq<bv8>)
    requires bits == PendingBits(|seen|) && buf & 0x3F == Last(seen) as bv32
    ensures left == PendingBits(|seen| + 1) && next & 0x3F == v as bv32
    ensures Pack(seen + [v]) == Pack(seen) + emitted
  {
    DigitCompletes(buf, seen, v);
    next := Shifted(buf, v);
    left := bits + 6;
    emitted := [];
    if left >= 8 {
      left := left - 8;
      emitted := [Emitted(next, left)];
    }
  }

  method Base64Decode(text: seq<bv8>) returns (out: seq<bv8>)
    ensures out == Decode(text)
  {
    var rev := MakeReverse();
    out := [];
    var buf: bv32, bits: nat := 0, 0;
    ghost var seen: seq<sextet> := [];
    assert text[0..] == text;
    for i := 0 to |text|
      invariant Decoded(text, i, seen, out)
      invariant bits == PendingBits(|seen|) && buf & 0x3F == Last(seen) as bv32
      invariant forall c: bv8 :: rev[c as int] == Value(c)
    {
      var c := text[i];
      DecodedStep(text, i, seen, out);
      if c == PAD {
        return;
      }
      if IsSpace(c) {
        continue;
      }
      var v := rev[c as int];
      if v == NOT_A_DIGIT {
        return;
      }
      var emitted;
      buf, bits, emitted := Accumulate(buf, bits, v, seen);
      out := out + emitted;
      seen := seen + [v];
    }
    assert seen + [] == seen;
  }

  // ----- round trips -----

  lemma {:induction false} PackSextets(bytes: seq<bv8>)
    ensures Pack(Sextets(bytes)) == bytes
  {
    var v := Sextets(bytes);
    if |bytes| == 1 {
      BytesOfDigits(bytes[0], 0, 0);
    } else if |bytes| == 2 {
      BytesOfDigits(bytes[0], bytes[1], 0);
    } else if |bytes| >= 3 {
      BytesOfDigits(bytes[0], bytes[1], bytes[2]);
      PackSextets(bytes[3..]);
      assert v[4..] == Sextets(bytes[3..]);
      assert bytes == [bytes[0], bytes[1], bytes[2]] + bytes[3..];
    }
  }

  /** Text made of digits is consumed digit by digit, up to what stops the decoder. */
  lemma {:induction false} ConsumedDigits(digits: seq<sextet>, rest: seq<bv8>)
    ensures Consumed(DigitText(digits) + rest) == digits + Consumed(rest)
  {
    hide Consumed, DigitText;
    if digits == [] {
      NoDigits(rest);
    } else {
      var d, more := digits[0], digits[1..];
      ConsumedDigits(more, rest);
      assert digits == [d] + more;
      DigitTextConcat([d], more);
      ConsumeOne(d, DigitText(more) + rest);
      Assoc(DigitText([d]), DigitText(more), rest);
      Assoc([d], more, Consumed(rest));
    }
  }

  lemma NoDigits(rest: seq<bv8>)
    ensures DigitText([]) + rest == rest && [] + Consumed(rest) == Consumed(rest)
  {
    hide Consumed;
  }

  lemma ConsumeOne(d: sextet, more: seq<bv8>)
    ensures Consumed(DigitText([d]) + more) == [d] + Consumed(more)
  {
    hide Digit, Value;
    DigitsAndValues(d, 0);
    var text := DigitText([d]) + more;
    assert text[0] == Digit(d) && text[1..] == more;
  }

  /** `text` without its white space. */
  function WithoutSpace(text: seq<bv8>): seq<bv8> {
    if text == [] then []
    else (if IsSpace(text[0]) then [] else [text[0]]) + WithoutSpace(text[1..])
  }

  lemma {:induction false} SpaceIsIgnored(text: seq<bv8>)
    ensures Consumed(WithoutSpace(text)) == Consumed(text)
  {
    if text != [] {
      SpaceIsIgnored(text[1..]);
      if !IsSpace(text[0]) {
        assert WithoutSpace(text)[1..] == WithoutSpace(text[1..]);
      } else {
        assert WithoutSpace(text) == WithoutSpace(text[1..]);
      }
    }
  }

  /** Decoding inverts encoding for every byte string, wherever white space was inserted into the text. */
  lemma DecodeInvertsEncode(bytes: seq<bv8>, text: seq<bv8>)
    requires WithoutSpace(text) == Encode(bytes)
    ensures Decode(text) == bytes
  {
    SpaceIsIgnored(text);
    ConsumedDigits(Sextets(bytes), Padding(|bytes|));
    assert Consumed(Padding(|bytes|)) == [];
    assert Sextets(bytes) + [] == Sextets(bytes);
    PackSextets(bytes);
  }

  lemma {:induction false} NoSpaceToDrop(text: seq<bv8>)
    requires forall k :: 0 <= k < |text| ==> !IsSpace(text[k])
    ensures WithoutSpace(text) == text
  {
    if text != [] {
      NoSpaceToDrop(text[1..]);
    }
  }

  /** Encoded text has no white space, so in particular decoding it as it is gives the bytes back. */
  lemma RoundTrip(bytes: seq<bv8>)
    ensures Decode(Encode(bytes)) == bytes
  {
    forall k | 0 <= k < |Encode(bytes)|
      ensures !IsSpace(Encode(bytes)[k])
    {
      if k < |Sextets(bytes)| {
        DigitsAndValues(Sextets(bytes)[k], 0);
      }
    }
    NoSpaceToDrop(Encode(bytes));
    DecodeInvertsEncode(bytes, Encode(bytes));
  }

  // ----- canonical text (sections 3.5 and 4 of RFC 4648) -----

  /** The last group: four digits, or three or two with padding and with zero bits where no byte is filled. */
  predicate FinalGroup(g: seq<bv8>)
    requires |g| == 4
  {
    && IsDigit(g[0]) && IsDigit(g[1])
    && if g[3] != PAD then IsDigit(g[2]) && IsDigit(g[3])
       else if g[2] != PAD then IsDigit(g[2]) && Value(g[2]) & 0x03 == 0
       else Value(g[1]) & 0x0F == 0
  }

  predicate Canonical(text: seq<bv8>) {
    text == []
    || (|text| == 4 && FinalGroup(text))
    || (|text| > 4 && IsDigit(text[0]) && IsDigit(text[1]) && IsDigit(text[2]) && IsDigit(text[3])
        && Canonical(text[4..]))
  }

  lemma GroupIsDigits(b0: bv8, b1: bv8, b2: bv8)
    ensures forall k :: 0 <= k < 4 ==> IsDigit(Group(b0, b1, b2)[k])
  {
    DigitsAndValues(First(b0), 0);
    DigitsAndValues(Second(b0, b1), 0);
    DigitsAndValues(Third(b1, b2), 0);
    DigitsAndValues(Fourth(b2), 0);
  }

  lemma UnusedBitsAreZero(b: bv8)
    ensures Second(b, 0) & 0x0F == 0 && Third(b, 0) & 0x03 == 0
  {
  }

  lemma ShortGroupIsFinal(bytes: seq<bv8>)
    requires 0 < |bytes| < 3
    ensures |Encode(bytes)| == 4 && FinalGroup(Encode(bytes))
  {
    EncodeTail(bytes);
    GroupIsDigits(bytes[0], if |bytes| == 1 then 0 else bytes[1], 0);
    UnusedBitsAreZero(bytes[|bytes| - 1]);
    DigitsAndValues(Second(bytes[0], 0), 0);
    DigitsAndValues(Third(bytes[|bytes| - 1], 0), 0);
  }

  lemma {:induction false} EncodeIsCanonical(bytes: seq<bv8>)
    ensures Canonical(Encode(bytes))
  {
    if |bytes| == 0 {
      EncodeTail(bytes);
    } else if |bytes| < 3 {
      ShortGroupIsFinal(bytes);
    } else {
      var group, rest := Group(bytes[0], bytes[1], bytes[2]), Encode(bytes[3..]);
      EncodeIsCanonical(bytes[3..]);
      EncodeGroup(bytes);
      GroupIsDigits(bytes[0], bytes[1], bytes[2]);
      CanonicalCons(group, rest);
    }
  }

  lemma CanonicalCons(group: seq<bv8>, rest: seq<bv8>)
    requires |group| == 4 && (forall k :: 0 <= k < 4 ==> IsDigit(group[k])) && Canonical(rest)
    ensures Canonical(group + rest)
  {
    DigitsAndValues(0, group[3]);
    if rest == [] {
      assert group + rest == group;
    } else {
      assert (group + rest)[4..] == rest;
    }
  }

  /** The values of a text of digits. */
  lemma ValuesOfDigits(text: seq<bv8>) returns (v: seq<sextet>)
    requires forall k :: 0 <= k < |text| ==> IsDigit(text[k])
    ensures |v| == |text| && forall k :: 0 <= k < |v| ==> v[k] == Value(text[k])
    ensures DigitText(v) == text
  {
    forall k | 0 <= k < |text|
      ensures Value(text[k]) < 64 && Digit(Value(text[k])) == text[k]
    {
      DigitsAndValues(0, text[k]);
    }
    v := seq(|text|, k requires 0 <= k < |text| => Value(text[k]));
  }

  lemma DecodedDigits(v: seq<sextet>, rest: seq<bv8>)
    requires rest != [] ==> rest[0] == PAD
    ensures Decode(DigitText(v) + rest) == Pack(v)
  {
    ConsumedDigits(v, rest);
    assert v + [] == v;
  }

  /** Four digits pack into three bytes that are encoded as these digits. */
  lemma EncodeOfPackedGroup(v: seq<sextet>, rest: seq<bv8>)
    requires |v| == 4
    ensures var packed := [Completed(1, v[0], v[1]), Completed(2, v[1], v[2]), Completed(3, v[2], v[3])];
            Encode(packed + rest) == DigitText(v) + Encode(rest)
  {
    var packed := [Completed(1, v[0], v[1]), Completed(2, v[1], v[2]), Completed(3, v[2], v[3])];
    DigitsOfBytes(v[0], v[1], v[2], v[3]);
    EncodeGroup(packed + rest);
    assert (packed + rest)[3..] == rest;
    assert DigitText(v) == Group(packed[0], packed[1], packed[2]);
  }

  /** A final group is read as its digits, and they determine it. */
  lemma EncodeOfFinalGroup(g: seq<bv8>)
    requires |g| == 4 && FinalGroup(g)
    ensures Encode(Decode(g)) == g
  {
    hide Digit, First, Second, Third, Fourth, Completed;
    var n := if g[3] != PAD then 4 else if g[2] != PAD then 3 else 2;
    var v := ValuesOfDigits(g[..n]);
    DecodedDigits(v, g[n..]);
    assert g == DigitText(v) + g[n..];
    if n == 4 {
      EncodeOfPackedGroup(v, []);
      EncodeTail([]);
    } else {
      DigitsOfBytes(v[0], v[1], if n == 3 then v[2] else 0, 0);
      EncodeTail(Pack(v));
      EncodeOfShortGroup(v);
    }
  }

  lemma EncodeOfShortGroup(v: seq<sextet>)
    requires |v| == 2 || |v| == 3
    requires if |v| == 2 then v[1] & 0x0F == 0 else v[2] & 0x03 == 0
    ensures Encode(Pack(v)) == DigitText(v) + if |v| == 2 then [PAD, PAD] else [PAD]
  {
    hide Digit, First, Second, Third, Fourth, Completed, Encode;
    DigitsOfBytes(v[0], v[1], if |v| == 3 then v[2] else 0, 0);
    EncodeTail(Pack(v));
  }

  lemma {:induction false} EncodeOfCanonical(text: seq<bv8>)
    requires Canonical(text)
    ensures Encode(Decode(text)) == text
  {
    if text == [] {
      EncodeTail([]);
    } else if |text| == 4 {
      EncodeOfFinalGroup(text);
    } else {
      var v := ValuesOfDigits(text[..4]);
      var rest := text[4..];
      EncodeOfCanonical(rest);
      ConsumedDigits(v, rest);
      assert text == DigitText(v) + rest;
      assert (v + Consumed(rest))[4..] == Consumed(rest);
      EncodeOfPackedGroup(v, Decode(rest));
    }
  }

  /** Encoding inverts decoding exactly on canonical text. */
  lemma EncodeInvertsDecodeIff(text: seq<bv8>)
    ensures Encode(Decode(text)) == text <==> Canonical(text)
  {
    EncodeIsCanonical(Decode(text));
    if Canonical(text) {
      EncodeOfCanonical(text);
    }
  }
}
