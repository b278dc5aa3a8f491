/** Encoding and decoding bit by bit (section 4 of RFC 4648), and where decoding stops. */
module Base64Bits {
  import opened Sequences
  import opened Base64

  function Bit(b: bv8, mask: bv8): bool {
    b & mask != 0
  }

  /** The bits of a byte, most significant first. */
  function Bits(b: bv8): (bits: seq<bool>)
    ensures |bits| == 8
  {
    [Bit(b, 0x80), Bit(b, 0x40), Bit(b, 0x20), Bit(b, 0x10), Bit(b, 0x08), Bit(b, 0x04), Bit(b, 0x02), Bit(b, 0x01)]
  }

  /** The six bits that a digit stands for. */
  function SixBits(d: sextet): (bits: seq<bool>)
    ensures |bits| == 6
  {
    [Bit(d, 0x20), Bit(d, 0x10), Bit(d, 0x08), Bit(d, 0x04), Bit(d, 0x02), Bit(d, 0x01)]
  }

  function BytesAsBits(bytes: seq<bv8>): (bits: seq<bool>)
    ensures |bits| == 8 * |bytes|
  {
    if bytes == [] then [] else Bits(bytes[0]) + BytesAsBits(bytes[1..])
  }

  function DigitsAsBits(digits: seq<sextet>): (bits: seq<bool>)
    ensures |bits| == 6 * |digits|
  {
    if digits == [] then [] else SixBits(digits[0]) + DigitsAsBits(digits[1..])
  }

  function Zeros(n: nat): seq<bool> {
    seq(n, k => false)
  }

  lemma {:induction false} BytesConcat(a: seq<bv8>, b: seq<bv8>)
    ensures BytesAsBits(a + b) == BytesAsBits(a) + BytesAsBits(b)
    decreases |a|
  {
    hide Bits;
    if a == [] {
      assert a + b == b;
    } else {
      BytesConcat(a[1..], b);
      assert (a + b)[0] == a[0] && (a + b)[1..] == a[1..] + b;
      Assoc(Bits(a[0]), BytesAsBits(a[1..]), BytesAsBits(b));
    }
  }

  lemma {:induction false} DigitsConcat(a: seq<sextet>, b: seq<sextet>)
    ensures DigitsAsBits(a + b) == DigitsAsBits(a) + DigitsAsBits(b)
    decreases |a|
  {
    hide SixBits;
    if a == [] {
      assert a + b == b;
    } else {
      DigitsConcat(a[1..], b);
      assert (a + b)[0] == a[0] && (a + b)[1..] == a[1..] + b;
      Assoc(SixBits(a[0]), DigitsAsBits(a[1..]), DigitsAsBits(b));
    }
  }

  // ----- the bits of one group -----

  lemma BitsOfFirst(b0: bv8)
    ensures Bit(First(b0), 0x20) == Bit(b0, 0x80)
    ensures Bit(First(b0), 0x10) == Bit(b0, 0x40)
    ensures Bit(First(b0), 0x08) == Bit(b0, 0x20)
    ensures Bit(First(b0), 0x04) == Bit(b0, 0x10)
    ensures Bit(First(b0), 0x02) == Bit(b0, 0x08)
    ensures Bit(First(b0), 0x01) == Bit(b0, 0x04)
  {
  }

  lemma BitsOfSecond(b0: bv8, b1: bv8)
    ensures Bit(Second(b0, b1), 0x20) == Bit(b0, 0x02)
    ensures Bit(Second(b0, b1), 0x10) == Bit(b0, 0x01)
    ensures Bit(Second(b0, b1), 0x08) == Bit(b1, 0x80)
    ensures Bit(Second(b0, b1), 0x04) == Bit(b1, 0x40)
    ensures Bit(Second(b0, b1), 0x02) == Bit(b1, 0x20)
    ensures Bit(Second(b0, b1), 0x01) == Bit(b1, 0x10)
  {
  }

  lemma BitsOfThird(b1: bv8, b2: bv8)
    ensures Bit(Third(b1, b2), 0x20) == Bit(b1, 0x08)
    ensures Bit(Third(b1, b2), 0x10) == Bit(b1, 0x04)
    ensures Bit(Third(b1, b2), 0x08) == Bit(b1, 0x02)
    ensures Bit(Third(b1, b2), 0x04) == Bit(b1, 0x01)
    ensures Bit(Third(b1, b2), 0x02) == Bit(b2, 0x80)
    ensures Bit(Third(b1, b2), 0x01) == Bit(b2, 0x40)
  {
  }

  lemma BitsOfFourth(b2: bv8)
    ensures Bit(Fourth(b2), 0x20) == Bit(b2, 0x20)
    ensures Bit(Fourth(b2), 0x10) == Bit(b2, 0x10)
    ensures Bit(Fourth(b2), 0x08) == Bit(b2, 0x08)
    ensures Bit(Fourth(b2), 0x04) == Bit(b2, 0x04)
    ensures Bit(Fourth(b2), 0x02) == Bit(b2, 0x02)
    ensures Bit(Fourth(b2), 0x01) == Bit(b2, 0x01)
  {
  }

  lemma FirstTwo(b0: bv8, b1: bv8)
    ensures SixBits(First(b0)) == Bits(b0)[..6]
    ensures SixBits(Second(b0, b1)) == Bits(b0)[6..] + Bits(b1)[..4]
  {
    SixOfFirst(b0);
    SixOfSecond(b0, b1);
  }

  /** Parts of six and of eight things. */
  lemma PartsOfSix<T>(a: T, b: T, c: T, d: T, e: T, f: T)
    ensures [a, b, c, d, e, f][..2] == [a, b] && [a, b, c, d, e, f][2..] == [c, d, e, f]
    ensures [a, b, c, d, e, f][..4] == [a, b, c, d] && [a, b, c, d, e, f][4..] == [e, f]
  {
  }

  lemma PartsOfEight<T>(a: T, b: T, c: T, d: T, e: T, f: T, g: T, h: T)
    ensures [a, b, c, d, e, f, g, h][..6] == [a, b, c, d, e, f] && [a, b, c, d, e, f, g, h][6..] == [g, h]
    ensures [a, b, c, d, e, f, g, h][..4] == [a, b, c, d] && [a, b, c, d, e, f, g, h][4..] == [e, f, g, h]
    ensures [a, b, c, d, e, f, g, h][..2] == [a, b] && [a, b, c, d, e, f, g, h][2..] == [c, d, e, f, g, h]
  {
  }

  lemma SixInParts<T>(a: T, b: T, c: T, d: T, e: T, f: T)
    ensures [a, b] + [c, d, e, f] == [a, b, c, d, e, f] == [a, b, c, d] + [e, f]
  {
  }

  lemma EightInParts<T>(a: T, b: T, c: T, d: T, e: T, f: T, g: T, h: T)
    ensures [a, b, c, d, e, f] + [g, h] == [a, b, c, d, e, f, g, h]
    ensures [a, b, c, d] + [e, f, g, h] == [a, b, c, d, e, f, g, h]
    ensures [a, b] + [c, d, e, f, g, h] == [a, b, c, d, e, f, g, h]
  {
  }

  lemma PartsOfDigit(d: sextet)
    ensures SixBits(d)[..2] == [Bit(d, 0x20), Bit(d, 0x10)]
    ensures SixBits(d)[2..] == [Bit(d, 0x08), Bit(d, 0x04), Bit(d, 0x02), Bit(d, 0x01)]
    ensures SixBits(d)[..4] == [Bit(d, 0x20), Bit(d, 0x10), Bit(d, 0x08), Bit(d, 0x04)]
    ensures SixBits(d)[4..] == [Bit(d, 0x02), Bit(d, 0x01)]
  {
    hide Bit;
    PartsOfSix(Bit(d, 0x20), Bit(d, 0x10), Bit(d, 0x08), Bit(d, 0x04), Bit(d, 0x02), Bit(d, 0x01));
  }

  lemma PartsOfByte(b: bv8)
    ensures Bits(b)[..6] == [Bit(b, 0x80), Bit(b, 0x40), Bit(b, 0x20), Bit(b, 0x10), Bit(b, 0x08), Bit(b, 0x04)]
    ensures Bits(b)[6..] == [Bit(b, 0x02), Bit(b, 0x01)]
    ensures Bits(b)[..4] == [Bit(b, 0x80), Bit(b, 0x40), Bit(b, 0x20), Bit(b, 0x10)]
    ensures Bits(b)[4..] == [Bit(b, 0x08), Bit(b, 0x04), Bit(b, 0x02), Bit(b, 0x01)]
    ensures Bits(b)[..2] == [Bit(b, 0x80), Bit(b, 0x40)]
    ensures Bits(b)[2..] == [Bit(b, 0x20), Bit(b, 0x10), Bit(b, 0x08), Bit(b, 0x04), Bit(b, 0x02), Bit(b, 0x01)]
  {
    hide Bit;
    PartsOfEight(Bit(b, 0x80), Bit(b, 0x40), Bit(b, 0x20), Bit(b, 0x10), Bit(b, 0x08), Bit(b, 0x04), Bit(b, 0x02),
                 Bit(b, 0x01));
  }

  lemma SixOfFirst(b0: bv8)
    ensures SixBits(First(b0)) == Bits(b0)[..6]
  {
    BitsOfFirst(b0);
    PartsOfByte(b0);
    hide First, Bit;
  }

  lemma SixOfSecond(b0: bv8, b1: bv8)
    ensures SixBits(Second(b0, b1)) == Bits(b0)[6..] + Bits(b1)[..4]
  {
    BitsOfSecond(b0, b1);
    PartsOfByte(b0);
    PartsOfByte(b1);
    SixInParts(Bit(b0, 0x02), Bit(b0, 0x01), Bit(b1, 0x80), Bit(b1, 0x40), Bit(b1, 0x20), Bit(b1, 0x10));
    hide Second, Bit, Bits;
  }

  lemma LastTwo(b1: bv8, b2: bv8)
    ensures SixBits(Third(b1, b2)) == Bits(b1)[4..] + Bits(b2)[..2]
    ensures SixBits(Fourth(b2)) == Bits(b2)[2..]
  {
    BitsOfThird(b1, b2);
    BitsOfFourth(b2);
    PartsOfByte(b1);
    PartsOfByte(b2);
    SixInParts(Bit(b1, 0x08), Bit(b1, 0x04), Bit(b1, 0x02), Bit(b1, 0x01), Bit(b2, 0x80), Bit(b2, 0x40));
    hide Third, Fourth, Bit, Bits;
  }

  lemma ZeroBits()
    ensures Bits(0)[..4] == Zeros(4) && Bits(0)[..2] == Zeros(2)
  {
  }

  lemma OneDigit(d: sextet)
    ensures DigitsAsBits([d]) == SixBits(d)
  {
    hide SixBits;
    assert [d][1..] == [];
  }

  lemma OneByte(b: bv8)
    ensures BytesAsBits([b]) == Bits(b)
  {
    hide Bits;
    assert [b][1..] == [];
  }

  /** Bits cut at the places where digits end, and put together again. */
  lemma Regroup(x: seq<bool>, y: seq<bool>, z: seq<bool>)
    requires |x| == |y| == |z| == 8
    ensures x[..6] + (x[6..] + y[..4]) == x + y[..4]
    ensures x + y[..4] + (y[4..] + z[..2]) == x + y + z[..2]
    ensures x + y + z[..2] + z[2..] == x + y + z
  {
  }

  lemma OneByteOfDigits(b0: bv8, b1: bv8)
    ensures DigitsAsBits([First(b0), Second(b0, b1)]) == Bits(b0) + Bits(b1)[..4]
  {
    FirstTwo(b0, b1);
    OneDigit(First(b0));
    OneDigit(Second(b0, b1));
    hide First, Second, SixBits, Bits, DigitsAsBits;
    DigitsConcat([First(b0)], [Second(b0, b1)]);
    Regroup(Bits(b0), Bits(b1), Bits(0));
    assert [First(b0)] + [Second(b0, b1)] == [First(b0), Second(b0, b1)];
  }

  lemma TwoBytesOfDigits(b0: bv8, b1: bv8, b2: bv8)
    ensures DigitsAsBits([First(b0), Second(b0, b1), Third(b1, b2)]) == Bits(b0) + Bits(b1) + Bits(b2)[..2]
  {
    OneByteOfDigits(b0, b1);
    LastTwo(b1, b2);
    OneDigit(Third(b1, b2));
    hide First, Second, Third, SixBits, Bits, DigitsAsBits;
    DigitsConcat([First(b0), Second(b0, b1)], [Third(b1, b2)]);
    Regroup(Bits(b0), Bits(b1), Bits(b2));
    assert [First(b0), Second(b0, b1)] + [Third(b1, b2)] == [First(b0), Second(b0, b1), Third(b1, b2)];
  }

  lemma ThreeBytesOfDigits(b0: bv8, b1: bv8, b2: bv8)
    ensures DigitsAsBits([First(b0), Second(b0, b1), Third(b1, b2), Fourth(b2)]) == Bits(b0) + Bits(b1) + Bits(b2)
  {
    TwoBytesOfDigits(b0, b1, b2);
    LastTwo(b1, b2);
    OneDigit(Fourth(b2));
    hide First, Second, Third, Fourth, SixBits, Bits, DigitsAsBits;
    var three := [First(b0), Second(b0, b1), Third(b1, b2)];
    DigitsConcat(three, [Fourth(b2)]);
    Regroup(Bits(b0), Bits(b1), Bits(b2));
    assert three + [Fourth(b2)] == [First(b0), Second(b0, b1), Third(b1, b2), Fourth(b2)];
  }

  lemma BytesOfBits(b0: bv8, b1: bv8, b2: bv8)
    ensures BytesAsBits([b0, b1]) == Bits(b0) + Bits(b1)
    ensures BytesAsBits([b0, b1, b2]) == Bits(b0) + Bits(b1) + Bits(b2)
  {
    OneByte(b0);
    OneByte(b1);
    OneByte(b2);
    hide Bits, BytesAsBits;
    BytesConcat([b0], [b1]);
    BytesConcat([b0, b1], [b2]);
    assert [b0] + [b1] == [b0, b1] && [b0, b1] + [b2] == [b0, b1, b2];
  }

  // ----- encoding -----

  /** The zero bits that fill the last digit. */
  function Filled(n: nat): nat {
    if n % 3 == 1 then 4 else if n % 3 == 2 then 2 else 0
  }

  /** The digits hold the bits of the bytes, in order, and zeros to fill the last digit. */
  lemma {:induction false} DigitsSpellTheBytes(bytes: seq<bv8>)
    ensures DigitsAsBits(Sextets(bytes)) == BytesAsBits(bytes) + Zeros(Filled(|bytes|))
    decreases |bytes|
  {
    hide Bits, SixBits, First, Second, Third, Fourth, DigitsAsBits, BytesAsBits;
    ZeroBits();
    if bytes == [] {
      NoBits();
    } else if |bytes| == 1 {
      OneByteOfDigits(bytes[0], 0);
      OneByte(bytes[0]);
      assert bytes == [bytes[0]];
    } else if |bytes| == 2 {
      TwoBytesOfDigits(bytes[0], bytes[1], 0);
      BytesOfBits(bytes[0], bytes[1], 0);
      assert bytes == [bytes[0], bytes[1]];
    } else {
      var b0, b1, b2, rest := bytes[0], bytes[1], bytes[2], bytes[3..];
      ThreeBytesOfDigits(b0, b1, b2);
      BytesOfBits(b0, b1, b2);
      DigitsSpellTheBytes(rest);
      DigitsConcat([First(b0), Second(b0, b1), Third(b1, b2), Fourth(b2)], Sextets(rest));
      BytesConcat([b0, b1, b2], rest);
      assert bytes == [b0, b1, b2] + rest;
      Assoc(Bits(b0) + Bits(b1) + Bits(b2), BytesAsBits(rest), Zeros(Filled(|rest|)));
    }
  }

  lemma NoBits()
    ensures BytesAsBits([]) == [] && DigitsAsBits([]) == [] && Sextets([]) == [] && Zeros(0) == []
  {
  }

  /** The encoded text: digits that hold the bits of the bytes in order, then padding to a multiple of four. */
  lemma EncodingSpellsTheBits(bytes: seq<bv8>) returns (digits: seq<sextet>)
    ensures DigitsAsBits(digits) == BytesAsBits(bytes) + Zeros(Filled(|bytes|))
    ensures |Encode(bytes)| % 4 == 0 && |digits| <= |Encode(bytes)| < |digits| + 4
    ensures forall k :: 0 <= k < |Encode(bytes)| ==>
              Encode(bytes)[k] == if k < |digits| then Digit(digits[k]) else PAD
  {
    hide DigitsAsBits, BytesAsBits, Sextets, Digit, Padding;
    digits := Sextets(bytes);
    DigitsSpellTheBytes(bytes);
    EncodedLength(bytes);
    PaddingIsPadding(|bytes|);
    var pad := Padding(|bytes|);
    assert Encode(bytes) == DigitText(digits) + pad && |DigitText(digits)| == |digits|;
    hide Encode;
  }

  lemma PaddingIsPadding(n: nat)
    ensures |Padding(n)| <= 2 && forall k :: 0 <= k < |Padding(n)| ==> Padding(n)[k] == PAD
  {
  }

  // ----- decoding -----

  lemma CompletedBitsSecond(p: sextet, d: sextet)
    ensures Bit(Completed(1, p, d), 0x80) == Bit(p, 0x20)
    ensures Bit(Completed(1, p, d), 0x40) == Bit(p, 0x10)
    ensures Bit(Completed(1, p, d), 0x20) == Bit(p, 0x08)
    ensures Bit(Completed(1, p, d), 0x10) == Bit(p, 0x04)
    ensures Bit(Completed(1, p, d), 0x08) == Bit(p, 0x02)
    ensures Bit(Completed(1, p, d), 0x04) == Bit(p, 0x01)
    ensures Bit(Completed(1, p, d), 0x02) == Bit(d, 0x20)
    ensures Bit(Completed(1, p, d), 0x01) == Bit(d, 0x10)
  {
  }

  lemma CompletedBitsThird(p: sextet, d: sextet)
    ensures Bit(Completed(2, p, d), 0x80) == Bit(p, 0x08)
    ensures Bit(Completed(2, p, d), 0x40) == Bit(p, 0x04)
    ensures Bit(Completed(2, p, d), 0x20) == Bit(p, 0x02)
    ensures Bit(Completed(2, p, d), 0x10) == Bit(p, 0x01)
    ensures Bit(Completed(2, p, d), 0x08) == Bit(d, 0x20)
    ensures Bit(Completed(2, p, d), 0x04) == Bit(d, 0x10)
    ensures Bit(Completed(2, p, d), 0x02) == Bit(d, 0x08)
    ensures Bit(Completed(2, p, d), 0x01) == Bit(d, 0x04)
  {
  }

  lemma CompletedBitsFourth(p: sextet, d: sextet)
    ensures Bit(Completed(3, p, d), 0x80) == Bit(p, 0x02)
    ensures Bit(Completed(3, p, d), 0x40) == Bit(p, 0x01)
    ensures Bit(Completed(3, p, d), 0x20) == Bit(d, 0x20)
    ensures Bit(Completed(3, p, d), 0x10) == Bit(d, 0x10)
    ensures Bit(Completed(3, p, d), 0x08) == Bit(d, 0x08)
    ensures Bit(Completed(3, p, d), 0x04) == Bit(d, 0x04)
    ensures Bit(Completed(3, p, d), 0x02) == Bit(d, 0x02)
    ensures Bit(Completed(3, p, d), 0x01) == Bit(d, 0x01)
  {
  }

  lemma BitsOfCompletedSecond(p: sextet, d: sextet)
    ensures Bits(Completed(1, p, d)) == SixBits(p) + SixBits(d)[..2]
  {
    CompletedBitsSecond(p, d);
    PartsOfDigit(p);
    PartsOfDigit(d);
    EightInParts(Bit(p, 0x20), Bit(p, 0x10), Bit(p, 0x08), Bit(p, 0x04), Bit(p, 0x02), Bit(p, 0x01),
                 Bit(d, 0x20), Bit(d, 0x10));
    hide Completed, Bit;
  }

  lemma BitsOfCompletedThird(p: sextet, d: sextet)
    ensures Bits(Completed(2, p, d)) == SixBits(p)[2..] + SixBits(d)[..4]
  {
    CompletedBitsThird(p, d);
    PartsOfDigit(p);
    PartsOfDigit(d);
    EightInParts(Bit(p, 0x08), Bit(p, 0x04), Bit(p, 0x02), Bit(p, 0x01), Bit(d, 0x20), Bit(d, 0x10),
                 Bit(d, 0x08), Bit(d, 0x04));
    hide Completed, Bit;
  }

  lemma BitsOfCompletedFourth(p: sextet, d: sextet)
    ensures Bits(Completed(3, p, d)) == SixBits(p)[4..] + SixBits(d)
  {
    CompletedBitsFourth(p, d);
    PartsOfDigit(p);
    PartsOfDigit(d);
    EightInParts(Bit(p, 0x02), Bit(p, 0x01), Bit(d, 0x20), Bit(d, 0x10), Bit(d, 0x08), Bit(d, 0x04),
                 Bit(d, 0x02), Bit(d, 0x01));
    hide Completed, Bit;
  }

  lemma RegroupBytes(x: seq<bool>, y: seq<bool>, z: seq<bool>, w: seq<bool>)
    requires |x| == |y| == |z| == |w| == 6
    ensures x + y == (x + y[..2]) + y[2..]
    ensures x + y + z == (x + y[..2]) + (y[2..] + z[..4]) + z[4..]
    ensures x + y + z + w == (x + y[..2]) + (y[2..] + z[..4]) + (z[4..] + w)
  {
  }

  lemma TwoDigits(a: sextet, b: sextet)
    ensures DigitsAsBits([a, b]) == Bits(Completed(1, a, b)) + SixBits(b)[2..]
  {
    BitsOfCompletedSecond(a, b);
    OneDigit(a);
    OneDigit(b);
    hide SixBits, Bits, DigitsAsBits, Completed;
    DigitsConcat([a], [b]);
    RegroupBytes(SixBits(a), SixBits(b), SixBits(b), SixBits(b));
    assert [a] + [b] == [a, b];
  }

  lemma ThreeDigits(a: sextet, b: sextet, c: sextet)
    ensures DigitsAsBits([a, b, c]) == Bits(Completed(1, a, b)) + Bits(Completed(2, b, c)) + SixBits(c)[4..]
  {
    BitsOfCompletedSecond(a, b);
    BitsOfCompletedThird(b, c);
    OneDigit(a);
    OneDigit(b);
    OneDigit(c);
    hide SixBits, Bits, DigitsAsBits, Completed;
    DigitsConcat([a], [b]);
    DigitsConcat([a, b], [c]);
    RegroupBytes(SixBits(a), SixBits(b), SixBits(c), SixBits(c));
    assert [a] + [b] == [a, b] && [a, b] + [c] == [a, b, c];
  }

  lemma FourDigits(a: sextet, b: sextet, c: sextet, d: sextet)
    ensures DigitsAsBits([a, b, c, d])
            == Bits(Completed(1, a, b)) + Bits(Completed(2, b, c)) + Bits(Completed(3, c, d))
  {
    BitsOfCompletedSecond(a, b);
    BitsOfCompletedThird(b, c);
    BitsOfCompletedFourth(c, d);
    ThreeDigits(a, b, c);
    OneDigit(d);
    hide SixBits, Bits, DigitsAsBits, Completed;
    DigitsConcat([a, b, c], [d]);
    Assoc(Bits(Completed(1, a, b)) + Bits(Completed(2, b, c)), SixBits(c)[4..], SixBits(d));
    assert [a, b, c] + [d] == [a, b, c, d];
  }

  /** The bytes are the bits of the digits, eight at a time; fewer than eight bits at the end are dropped. */
  lemma {:induction false} BytesSpellTheDigits(v: seq<sextet>) returns (dropped: seq<bool>)
    ensures DigitsAsBits(v) == BytesAsBits(Pack(v)) + dropped && |dropped| < 8
    decreases |v|
  {
    hide Bits, SixBits, Completed, DigitsAsBits, BytesAsBits;
    if |v| == 0 {
      NoBits();
      dropped := [];
    } else if |v| == 1 {
      NoBits();
      dropped := DigitsAsBits(v);
      assert [] + dropped == dropped;
    } else if |v| == 2 {
      TwoDigits(v[0], v[1]);
      OneByte(Completed(1, v[0], v[1]));
      assert v == [v[0], v[1]];
      dropped := SixBits(v[1])[2..];
    } else if |v| == 3 {
      ThreeDigits(v[0], v[1], v[2]);
      BytesOfBits(Completed(1, v[0], v[1]), Completed(2, v[1], v[2]), 0);
      assert v == [v[0], v[1], v[2]];
      dropped := SixBits(v[2])[4..];
    } else {
      var b0, b1, b2 := Completed(1, v[0], v[1]), Completed(2, v[1], v[2]), Completed(3, v[2], v[3]);
      var four, rest := [v[0], v[1], v[2], v[3]], v[4..];
      dropped := BytesSpellTheDigits(rest);
      FourDigits(v[0], v[1], v[2], v[3]);
      BytesOfBits(b0, b1, b2);
      DigitsConcat(four, rest);
      BytesConcat([b0, b1, b2], Pack(rest));
      assert v == four + rest;
      Assoc(Bits(b0) + Bits(b1) + Bits(b2), BytesAsBits(Pack(rest)), dropped);
    }
  }

  /**
    Decoding any digits, with white space among them, gives their bits, eight at a time, for every number of digits
    and whatever the bits that are dropped; it stops at padding and at any byte that is no digit.
   */
  lemma DecodingReadsTheBits(digits: seq<sextet>, text: seq<bv8>, stop: bv8, rest: seq<bv8>) returns (dropped: seq<bool>)
    requires WithoutSpace(text) == DigitText(digits)
    requires stop == PAD || (!IsDigit(stop) && !IsSpace(stop))
    ensures DigitsAsBits(digits) == BytesAsBits(Decode(text)) + dropped && |dropped| < 8
    ensures Decode(text + [stop] + rest) == Decode(text)
  {
    hide DigitsAsBits, BytesAsBits, Pack, Digit, Value;
    SpaceIsIgnored(text);
    ConsumedDigits(digits, []);
    assert DigitText(digits) + [] == DigitText(digits) && digits + [] == digits;
    dropped := BytesSpellTheDigits(digits);
    ConsumedUpTo(text, stop, rest);
  }

  lemma {:induction false} ConsumedUpTo(text: seq<bv8>, stop: bv8, rest: seq<bv8>)
    requires stop == PAD || (!IsDigit(stop) && !IsSpace(stop))
    ensures Consumed(text + [stop] + rest) == Consumed(text)
    decreases |text|
  {
    hide Value;
    var all := text + [stop] + rest;
    if text == [] {
      assert all[0] == stop;
    } else {
      ConsumedUpTo(text[1..], stop, rest);
      assert all[0] == text[0] && all[1..] == text[1..] + [stop] + rest;
    }
  }
}
