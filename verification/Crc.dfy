/** The death report's check sum, calculate_crc of DeathReportWriter.c.  The method
    works on 16-bit words as the C code does; its specification, Run, follows the
    polynomial each word holds. */
module Crc {
  import opened Gf2
  import opened Register16

  const INITIAL_VALUE: bv16 := 0xFFFF
  const POLYNOMIAL: bv16 := 0x1021
  const MOST_SIGNIFICANT_BIT: bv16 := 0x8000

  /** The polynomial a byte holds. */
  function ByteValue(byte: bv8): nat {
    Value(byte as bv16)
  }

  /** One turn of the inner loop: times x, and x^16 is replaced by 0x1021. */
  function Shift(v: nat): nat {
    if v < 0x8000 then 2 * v else Add(2 * v - 0x1_0000, 0x1021)
  }

  function Shifts(v: nat, k: nat): nat {
    if k == 0 then v else Shift(Shifts(v, k - 1))
  }

  function Step(v: nat, byte: bv8): nat {
    Shifts(Add(v, 0x100 * ByteValue(byte)), 8)
  }

  /** The register after running over data from a given register value. */
  function Run(v: nat, data: seq<bv8>): nat {
    if data == [] then v
    else Step(Run(v, data[..|data| - 1]), data[|data| - 1])
  }

  lemma RunSnoc(v: nat, data: seq<bv8>, i: nat)
    requires i < |data|
    ensures Run(v, data[..i + 1]) == Step(Run(v, data[..i]), data[i])
  {
    assert data[..i + 1][..i] == data[..i];
  }

  method CalculateCrc(data: seq<bv8>) returns (crc: bv16)
    ensures Value(crc) == Run(0xFFFF, data)
  {
    InitialValue();
    crc := INITIAL_VALUE;
    for i := 0 to |data|
      invariant Value(crc) == Run(0xFFFF, data[..i])
    {
      RunSnoc(0xFFFF, data, i);
      LoadValue(crc, data[i]);
      crc := crc ^ ((data[i] as bv16) << 8);
      ghost var loaded := Value(crc);
      for j := 0 to 8
        invariant Value(crc) == Shifts(loaded, j)
      {
        if crc & MOST_SIGNIFICANT_BIT != 0 {
          ShiftHigh(crc);
          crc := (crc << 1) ^ POLYNOMIAL;
        } else {
          ShiftLow(crc);
          crc := crc << 1;
        }
      }
    }
    assert data[..|data|] == data;
  }

  // ---- one word operation at a time -----------------------------------------

  /** A register whose bits are known four at a time, lowest first. */
  lemma ValueOfNibbles(c: bv16, n0: seq<bool>, n1: seq<bool>, n2: seq<bool>, n3: seq<bool>)
    requires |n0| == |n1| == |n2| == |n3| == 4 && Bits(c) == n0 + n1 + n2 + n3
    ensures Value(c) == FromBits(n0) + 16 * FromBits(n1) + 256 * FromBits(n2) + 4096 * FromBits(n3)
  {
    var s := Bits(c);
    assert s[..4] == n0 && s[4..8] == n1 && s[8..12] == n2 && s[12..] == n3;
    ValueNibbles(c);
  }

  lemma InitialBits()
    ensures var f := [true, true, true, true]; Bits(INITIAL_VALUE) == f + f + f + f
  {
    Masks();
  }

  lemma InitialValue()
    ensures Value(INITIAL_VALUE) == 0xFFFF
  {
    var f := [true, true, true, true];
    InitialBits();
    ValueOfNibbles(INITIAL_VALUE, f, f, f, f);
    FromNibble(true, true, true, true);
  }

  lemma PolynomialBits()
    ensures var one, two, none := [true, false, false, false], [false, true, false, false], [false, false, false, false];
            Bits(POLYNOMIAL) == one + two + none + one
  {
    Masks();
  }

  lemma PolynomialValue()
    ensures Value(POLYNOMIAL) == 0x1021
  {
    var one, two, none := [true, false, false, false], [false, true, false, false], [false, false, false, false];
    PolynomialBits();
    ValueOfNibbles(POLYNOMIAL, one, two, none, one);
    FromNibble(true, false, false, false);
    FromNibble(false, true, false, false);
    FromNibble(false, false, false, false);
  }

  lemma ShiftDouble(crc: bv16)
    ensures 2 * Value(crc) == Value(crc << 1) + if crc & MOST_SIGNIFICANT_BIT != 0 then 0x1_0000 else 0
    ensures Value(crc << 1) < 0x1_0000
  {
    assert BitAt(crc, 15) == (crc & MOST_SIGNIFICANT_BIT != 0) by { Masks(); }
    ValueShift(crc);
    ValueBound(crc << 1);
    Pow2Values();
    ShlZero(16);
  }

  lemma ShiftLow(crc: bv16)
    requires crc & MOST_SIGNIFICANT_BIT == 0
    ensures Value(crc << 1) == Shift(Value(crc))
  {
    ShiftDouble(crc);
  }

  lemma DoubledAndReduced(v: nat, doubled: nat)
    requires 2 * v == doubled + 0x1_0000
    ensures Shift(v) == Add(doubled, 0x1021)
  {
  }

  lemma ShiftHighBy(crc: bv16, shifted: bv16, polynomial: bv16)
    requires 2 * Value(crc) == Value(shifted) + 0x1_0000 && Value(polynomial) == 0x1021
    ensures Value(shifted ^ polynomial) == Shift(Value(crc))
  {
    DoubledAndReduced(Value(crc), Value(shifted));
    ValueXor(shifted, polynomial);
  }

  lemma ShiftHigh(crc: bv16)
    requires crc & MOST_SIGNIFICANT_BIT != 0
    ensures Value((crc << 1) ^ POLYNOMIAL) == Shift(Value(crc))
  {
    PolynomialValue();
    ShiftDouble(crc);
    ShiftHighBy(crc, crc << 1, POLYNOMIAL);
  }

  lemma LoadValue(crc: bv16, byte: bv8)
    ensures Value(crc ^ ((byte as bv16) << 8)) == Add(Value(crc), 0x100 * ByteValue(byte))
  {
    ValueXor(crc, (byte as bv16) << 8);
    ValueByte(byte);
    ShlEight(ByteValue(byte));
  }
}
