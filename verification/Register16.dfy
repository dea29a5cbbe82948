/** Sixteen-bit registers as polynomials over GF(2) of degree below 16. */
module Register16 {
  import opened Gf2

  /** The register with only bit i set. */
  function Mask(i: nat): bv16 {
    if i == 0 then 1 else Mask(i - 1) << 1
  }

  predicate BitAt(c: bv16, i: nat) {
    c & Mask(i) != 0
  }

  /** The sixteen bits of a register, least significant first. */
  function Bits(c: bv16): (s: seq<bool>)
    ensures |s| == 16 && forall i :: 0 <= i < 16 ==> s[i] == BitAt(c, i)
  {
    seq(16, i requires 0 <= i => BitAt(c, i))
  }

  function Bit(b: bool): nat {
    if b then 1 else 0
  }

  /** The polynomial with the given coefficients, that of x^0 first. */
  function FromBits(s: seq<bool>): nat {
    if s == [] then 0 else 2 * FromBits(s[1..]) + Bit(s[0])
  }

  /** The polynomial of degree below 16 a register holds. */
  function Value(c: bv16): nat {
    FromBits(Bits(c))
  }

  function XorSeq(s: seq<bool>, t: seq<bool>): (r: seq<bool>)
    requires |s| == |t|
    ensures |r| == |s| && forall i :: 0 <= i < |s| ==> r[i] == (s[i] != t[i])
  {
    seq(|s|, i requires 0 <= i < |s| => s[i] != t[i])
  }

  lemma Masks()
    ensures Mask(0) == 0x0001 && Mask(1) == 0x0002 && Mask(2) == 0x0004 && Mask(3) == 0x0008
    ensures Mask(4) == 0x0010 && Mask(5) == 0x0020 && Mask(6) == 0x0040 && Mask(7) == 0x0080
    ensures Mask(8) == 0x0100 && Mask(9) == 0x0200 && Mask(10) == 0x0400 && Mask(11) == 0x0800
    ensures Mask(12) == 0x1000 && Mask(13) == 0x2000 && Mask(14) == 0x4000 && Mask(15) == 0x8000
  {
  }

  lemma MaskOneHot(i: nat)
    requires i < 16
    ensures Mask(i) & (Mask(i) - 1) == 0
    ensures i < 15 ==> Mask(i) & 0x8000 == 0
  {
    Masks();
  }

  lemma MaskXor(c: bv16, d: bv16, m: bv16)
    requires m & (m - 1) == 0
    ensures ((c ^ d) & m != 0) == ((c & m != 0) != (d & m != 0))
  {
  }

  lemma MaskShift(c: bv16, m: bv16)
    requires m & 0x8000 == 0
    ensures ((c << 1) & (m << 1) != 0) == (c & m != 0)
  {
  }

  lemma MaskZero(c: bv16)
    requires c & 0x0001 == 0 && c & 0x0002 == 0 && c & 0x0004 == 0 && c & 0x0008 == 0
    requires c & 0x0010 == 0 && c & 0x0020 == 0 && c & 0x0040 == 0 && c & 0x0080 == 0
    requires c & 0x0100 == 0 && c & 0x0200 == 0 && c & 0x0400 == 0 && c & 0x0800 == 0
    requires c & 0x1000 == 0 && c & 0x2000 == 0 && c & 0x4000 == 0 && c & 0x8000 == 0
    ensures c == 0
  {
  }

  lemma BitsXor(c: bv16, d: bv16)
    ensures Bits(c ^ d) == XorSeq(Bits(c), Bits(d))
  {
    forall i | 0 <= i < 16
      ensures BitAt(c ^ d, i) == (BitAt(c, i) != BitAt(d, i))
    {
      MaskOneHot(i);
      MaskXor(c, d, Mask(i));
    }
  }

  lemma BitsShift(c: bv16)
    ensures Bits(c << 1) == [false] + Bits(c)[..15]
  {
    assert !BitAt(c << 1, 0) by { assert (c << 1) & 1 == 0; }
    forall i | 0 <= i < 15
      ensures BitAt(c << 1, i + 1) == BitAt(c, i)
    {
      MaskOneHot(i);
      MaskShift(c, Mask(i));
    }
    forall i | 0 <= i < 16
      ensures Bits(c << 1)[i] == ([false] + Bits(c)[..15])[i]
    {
      if i > 0 { assert BitAt(c << 1, (i - 1) + 1) == BitAt(c, i - 1); }
    }
  }

  lemma BitsZero(c: bv16)
    requires forall i :: 0 <= i < 16 ==> !BitAt(c, i)
    ensures c == 0
  {
    assert !BitAt(c, 0) && !BitAt(c, 1) && !BitAt(c, 2) && !BitAt(c, 3) && !BitAt(c, 4) && !BitAt(c, 5)
        && !BitAt(c, 6) && !BitAt(c, 7) && !BitAt(c, 8) && !BitAt(c, 9) && !BitAt(c, 10) && !BitAt(c, 11)
        && !BitAt(c, 12) && !BitAt(c, 13) && !BitAt(c, 14) && !BitAt(c, 15);
    Masks();
    MaskZero(c);
  }

  lemma {:induction false} FromBitsXor(s: seq<bool>, t: seq<bool>)
    requires |s| == |t|
    ensures FromBits(XorSeq(s, t)) == Add(FromBits(s), FromBits(t))
  {
    if s == [] {
      AddZero(0);
    } else {
      FromBitsXor(s[1..], t[1..]);
      assert XorSeq(s, t)[1..] == XorSeq(s[1..], t[1..]);
      AddBits(FromBits(s[1..]), Bit(s[0]), FromBits(t[1..]), Bit(t[0]));
    }
  }

  lemma {:induction false} FromBitsConcat(s: seq<bool>, t: seq<bool>)
    ensures FromBits(s + t) == FromBits(s) + Shl(FromBits(t), |s|)
  {
    if s == [] {
      assert s + t == t;
    } else {
      assert (s + t)[1..] == s[1..] + t;
      FromBitsConcat(s[1..], t);
    }
  }

  lemma {:induction false} FromBitsBound(s: seq<bool>)
    ensures FromBits(s) < Pow2(|s|)
  {
    if s != [] { FromBitsBound(s[1..]); }
  }

  lemma {:induction false} FromBitsZero(s: seq<bool>)
    ensures FromBits(s) == 0 <==> forall i :: 0 <= i < |s| ==> !s[i]
  {
    if s != [] {
      FromBitsZero(s[1..]);
      assert s == [s[0]] + s[1..];
    }
  }

  lemma {:induction false} FromBitsCoef(s: seq<bool>, i: nat)
    requires i < |s|
    ensures Coef(FromBits(s), i) == s[i]
  {
    var rest := FromBits(s[1..]);
    assert FromBits(s) / 2 == rest && FromBits(s) % 2 == Bit(s[0]);
    if i > 0 { FromBitsCoef(s[1..], i - 1); }
  }

  /** Exclusive or on registers is addition of the polynomials they hold. */
  lemma ValueXor(c: bv16, d: bv16)
    ensures Value(c ^ d) == Add(Value(c), Value(d))
  {
    BitsXor(c, d);
    FromBitsXor(Bits(c), Bits(d));
  }

  lemma ValueZero(c: bv16)
    requires Value(c) == 0
    ensures c == 0
  {
    FromBitsZero(Bits(c));
    BitsZero(c);
  }

  lemma XorZero(c: bv16, d: bv16)
    requires c ^ d == 0
    ensures c == d
  {
  }

  /** Different registers hold different polynomials. */
  lemma ValueInjective(c: bv16, d: bv16)
    requires Value(c) == Value(d)
    ensures c == d
  {
    ValueXor(c, d);
    AddSelf(Value(c));
    ValueZero(c ^ d);
    XorZero(c, d);
  }

  lemma FromBitsCons(b: bool, s: seq<bool>)
    ensures FromBits([b] + s) == 2 * FromBits(s) + Bit(b)
  {
    assert ([b] + s)[1..] == s;
  }

  lemma TopBit(s: seq<bool>)
    requires |s| == 16
    ensures FromBits(s) == FromBits(s[..15]) + Shl(Bit(s[15]), 15)
  {
    assert s == s[..15] + [s[15]];
    FromBitsConcat(s[..15], [s[15]]);
    FromBitsCons(s[15], []);
    assert [s[15]] + [] == [s[15]];
  }

  /** Shifting left multiplies by x and drops the coefficient of x^16. */
  lemma ValueShift(c: bv16)
    ensures 2 * Value(c) == Value(c << 1) + Shl(Bit(BitAt(c, 15)), 16)
  {
    var s, low := Bits(c), Bits(c)[..15];
    assert Value(c << 1) == 2 * FromBits(low) by { BitsShift(c); FromBitsCons(false, low); }
    assert Value(c) == FromBits(low) + Shl(Bit(s[15]), 15) by { TopBit(s); }
    ShlNext(Bit(s[15]), 15);
  }

  lemma ByteHigh(byte: bv8)
    ensures (byte as bv16) & 0xFF00 == 0
  {
  }

  lemma ValueDouble(c: bv16)
    requires c & 0x8000 == 0
    ensures Value(c << 1) == 2 * Value(c)
  {
    ValueShift(c);
    Masks();
    ShlZero(16);
  }

  lemma PairShifts(c: bv16)
    requires c & 0xC000 == 0
    ensures c & 0x8000 == 0 && (c << 1) & 0x8000 == 0 && (c << 1) << 1 == c << 2
  {
  }

  lemma ValuePair(c: bv16)
    requires c & 0xC000 == 0
    ensures Value(c << 2) == 4 * Value(c)
  {
    PairShifts(c);
    ValueDouble(c);
    ValueDouble(c << 1);
  }

  lemma NibbleShifts(c: bv16)
    requires c & 0xF000 == 0
    ensures c & 0xC000 == 0 && (c << 2) & 0xC000 == 0 && (c << 2) << 2 == c << 4
  {
  }

  lemma ValueNibble(c: bv16)
    requires c & 0xF000 == 0
    ensures Value(c << 4) == Shl(Value(c), 4)
  {
    NibbleShifts(c);
    ValuePair(c);
    ValuePair(c << 2);
    ShlFour(Value(c));
  }

  lemma ByteNibbles(b: bv16)
    requires b & 0xFF00 == 0
    ensures b & 0xF000 == 0 && (b << 4) & 0xF000 == 0 && (b << 4) << 4 == b << 8
  {
  }

  /** A byte loaded into the high half of the register: times x^8. */
  lemma ValueByte(byte: bv8)
    ensures Value((byte as bv16) << 8) == Shl(Value(byte as bv16), 8)
  {
    var b := byte as bv16;
    ByteHigh(byte);
    ByteNibbles(b);
    ValueNibble(b);
    ValueNibble(b << 4);
    ShlShl(Value(b), 4, 4);
  }

  lemma ValueBound(c: bv16)
    ensures Value(c) < Pow2(16)
  {
    FromBitsBound(Bits(c));
  }

  /** Coefficient i of the polynomial is bit i of the register. */
  lemma ValueCoef(c: bv16, i: nat)
    requires i < 16
    ensures Coef(Value(c), i) == BitAt(c, i)
  {
    FromBitsCoef(Bits(c), i);
  }

  /** A byte holds a polynomial of degree below 8. */
  lemma ByteBound(byte: bv8)
    ensures Value(byte as bv16) < Pow2(8)
  {
    var b := byte as bv16;
    ByteHigh(byte);
    forall i: nat | 8 <= i < 16 ensures !BitAt(b, i) {
      Masks();
      MaskHigh(b, Mask(i));
    }
    forall i: nat | 8 <= i ensures !Coef(Value(b), i) {
      if i < 16 { ValueCoef(b, i); }
      else { ValueBound(b); CoefBound(Value(b), 16, i); }
    }
    HighCoefs(Value(b), 8);
  }

  lemma MaskHigh(b: bv16, m: bv16)
    requires b & 0xFF00 == 0 && m & 0x00FF == 0
    ensures b & m == 0
  {
  }

  lemma FromNibble(b0: bool, b1: bool, b2: bool, b3: bool)
    ensures FromBits([b0, b1, b2, b3]) == Bit(b0) + 2 * Bit(b1) + 4 * Bit(b2) + 8 * Bit(b3)
  {
    FromBitsCons(b0, [b1, b2, b3]);
    FromBitsCons(b1, [b2, b3]);
    FromBitsCons(b2, [b3]);
    FromBitsCons(b3, []);
    assert [b0] + [b1, b2, b3] == [b0, b1, b2, b3] && [b1] + [b2, b3] == [b1, b2, b3];
    assert [b2] + [b3] == [b2, b3] && [b3] + [] == [b3];
  }

  /** A register whose value is read off nibble by nibble. */
  lemma ValueNibbles(c: bv16)
    ensures var s := Bits(c);
            Value(c) == FromBits(s[..4]) + 16 * FromBits(s[4..8]) + 256 * FromBits(s[8..12]) + 4096 * FromBits(s[12..])
  {
    var s := Bits(c);
    assert s == s[..4] + s[4..];
    FromBitsConcat(s[..4], s[4..]);
    ShlFour(FromBits(s[4..]));
    assert s[4..] == s[4..8] + s[8..];
    FromBitsConcat(s[4..8], s[8..]);
    ShlFour(FromBits(s[8..]));
    assert s[8..] == s[8..12] + s[12..];
    FromBitsConcat(s[8..12], s[12..]);
    ShlFour(FromBits(s[12..]));
  }
}
