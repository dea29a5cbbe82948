/** The powers of x repeat with period 32767 modulo the generator; so the check sum detects
    any two flipped bits less than 32767 bits apart. */
module CrcPeriod {
  import opened Gf2
  import opened Register16
  import opened Crc
  import opened CrcProperties
  import opened WordProduct

  // ---- products of remainders ---------------------------------------------------------

  lemma {:induction false} MulPower(r: nat, n: nat)
    ensures Mul(r, Pow2(n)) == Shl(r, n)
  {
    if r == 0 {
      ShlZero(n);
    } else {
      var h, x := r / 2, r % 2;
      MulPower(h, n);
      assert Mul(r, Pow2(n)) == Add(Digit(x, Pow2(n)), 2 * Shl(h, n));
      assert Shl(x, n) == Digit(x, Pow2(n)) by { ShlZero(n); }
      assert 2 * Shl(h, n) == Shl(2 * h, n) by { ShlNext(h, n); ShlShl(h, 1, n); ShlShl(h, n, 1); ShlNext(Shl(h, n), 0); }
      assert Add(x, 2 * h) == r by { AddBits(0, x, h, 0); AddZero(h); assert Add(0, h) == h; }
      ShlAdd(x, 2 * h, n);
    }
  }

  /** Multiplying keeps congruence. */
  lemma {:induction false} MulCongruent(r: nat, a: nat, b: nat)
    requires Congruent(GENERATOR, a, b)
    ensures Congruent(GENERATOR, Mul(r, a), Mul(r, b))
  {
    if r == 0 {
      CongruentRefl(GENERATOR, 0);
    } else {
      var x, u, v := r % 2, Mul(r / 2, a), Mul(r / 2, b);
      MulCongruent(r / 2, a, b);
      CongruentShl(GENERATOR, u, v, 1);
      assert Shl(u, 1) == 2 * u && Shl(v, 1) == 2 * v by { ShlNext(u, 0); ShlNext(v, 0); }
      assert Congruent(GENERATOR, Digit(x, a), Digit(x, b)) by { CongruentRefl(GENERATOR, 0); }
      SumsCongruent(Digit(x, a), Digit(x, b), 2 * u, 2 * v);
    }
  }

  /** The polynomial of the top k bits of a word. */
  ghost function Top(u: bv16, k: nat): nat
    requires k <= 16
  {
    FromBits(Bits(u)[16 - k..])
  }

  lemma TopNext(u: bv16, k: nat)
    requires k < 16
    ensures Top(u, k + 1) == 2 * Top(u, k) + Bit(BitAt(u, 15 - k))
  {
    var s := Bits(u)[15 - k..];
    assert s[1..] == Bits(u)[16 - k..] && s[0] == BitAt(u, 15 - k);
  }

  lemma ValueNought(c: bv16)
    requires c == 0
    ensures Value(c) == 0
  {
    XorSelf(c);
    ValueXor(c, c);
    AddSelf(Value(c));
  }

  lemma XorSelf(c: bv16)
    ensures c ^ c == 0
  {
  }

  lemma HighAndSet(acc: bv16, r: bv16)
    requires acc & MOST_SIGNIFICANT_BIT != 0
    ensures Value(((acc << 1) ^ POLYNOMIAL) ^ r) == Add(Shift(Value(acc)), Value(r))
  {
    ShiftHigh(acc);
    ValueXor((acc << 1) ^ POLYNOMIAL, r);
  }

  lemma LowAndSet(acc: bv16, r: bv16)
    requires acc & MOST_SIGNIFICANT_BIT == 0
    ensures Value((acc << 1) ^ r) == Add(Shift(Value(acc)), Value(r))
  {
    ShiftLow(acc);
    ValueXor(acc << 1, r);
  }

  lemma NextSet(acc: bv16, r: bv16, u: bv16, mask: bv16)
    requires u & mask != 0
    ensures Value(Next(acc, r, u, mask)) == Add(Shift(Value(acc)), Value(r))
  {
    if acc & MOST_SIGNIFICANT_BIT != 0 { HighAndSet(acc, r); } else { LowAndSet(acc, r); }
  }

  lemma NextClear(acc: bv16, r: bv16, u: bv16, mask: bv16)
    requires u & mask == 0
    ensures Value(Next(acc, r, u, mask)) == Shift(Value(acc))
  {
    if acc & MOST_SIGNIFICANT_BIT != 0 { ShiftHigh(acc); } else { ShiftLow(acc); }
  }

  lemma NextValue(acc: bv16, r: bv16, u: bv16, mask: bv16)
    ensures Value(Next(acc, r, u, mask)) == Add(Shift(Value(acc)), Digit(Bit(u & mask != 0), Value(r)))
  {
    AddZero(Shift(Value(acc)));
    if u & mask != 0 { NextSet(acc, r, u, mask); } else { NextClear(acc, r, u, mask); }
  }

  lemma DoubledCongruent(m: nat, acc: bv16)
    requires Congruent(GENERATOR, m, Value(acc))
    ensures Congruent(GENERATOR, 2 * m, Shift(Value(acc)))
  {
    var v := Value(acc);
    ValueBound(acc);
    CongruentShl(GENERATOR, m, v, 1);
    ShlNext(m, 0);
    ShlNext(v, 0);
    ShiftCongruent(v);
    CongruentTrans(GENERATOR, 2 * m, 2 * v, Shift(v));
  }

  /** The product by the top k bits of u alone. */
  ghost function Partial(r: bv16, u: bv16, k: nat): bv16
    requires k <= 16
  {
    if k == 0 then 0 else Next(Partial(r, u, k - 1), r, u, Mask(16 - k))
  }

  lemma PartialStep(t: nat, v: nat, b: bool, acc: nat)
    requires Congruent(GENERATOR, 2 * Mul(t, v), acc)
    ensures Congruent(GENERATOR, Mul(2 * t + Bit(b), v), Add(acc, Digit(Bit(b), v)))
  {
    var x := Digit(Bit(b), v);
    MulUnfold(t, Bit(b), v);
    CongruentAdd(GENERATOR, 2 * Mul(t, v), acc, x);
    AddComm(x, 2 * Mul(t, v));
  }

  lemma {:induction false} PartialCongruent(r: bv16, u: bv16, k: nat)
    requires k <= 16
    ensures Congruent(GENERATOR, Mul(Top(u, k), Value(r)), Value(Partial(r, u, k)))
  {
    if k == 0 {
      assert Bits(u)[16..] == [];
      ValueNought(Partial(r, u, 0));
      CongruentRefl(GENERATOR, 0);
    } else {
      var acc, t, v := Partial(r, u, k - 1), Top(u, k - 1), Value(r);
      PartialCongruent(r, u, k - 1);
      DoubledCongruent(Mul(t, v), acc);
      PartialStep(t, v, BitAt(u, 16 - k), Shift(Value(acc)));
      assert Top(u, k) == 2 * t + Bit(BitAt(u, 16 - k)) by { TopNext(u, k - 1); }
      assert Value(Partial(r, u, k)) == Add(Shift(Value(acc)), Digit(Bit(BitAt(u, 16 - k)), v)) by {
        NextValue(acc, r, u, Mask(16 - k));
      }
    }
  }

  lemma PartialNext(r: bv16, u: bv16, k: nat, acc: bv16, mask: bv16)
    requires k < 16 && Partial(r, u, k) == acc && Mask(15 - k) == mask
    ensures Partial(r, u, k + 1) == Next(acc, r, u, mask)
  {
  }

  /** The word product is what Partial makes of all sixteen bits. */
  lemma ProductIsPartial(r: bv16, u: bv16, k: nat)
    requires k == 16
    ensures Partial(r, u, k) == Product(r, u)
  {
    Masks();
    var z := k - 16;
    var a0 := Next(0, r, u, 0x8000);
    PartialNext(r, u, z + 0, 0, 0x8000);
    var a1 := Next(a0, r, u, 0x4000);
    PartialNext(r, u, z + 1, a0, 0x4000);
    var a2 := Next(a1, r, u, 0x2000);
    PartialNext(r, u, z + 2, a1, 0x2000);
    var a3 := Next(a2, r, u, 0x1000);
    PartialNext(r, u, z + 3, a2, 0x1000);
    var a4 := Next(a3, r, u, 0x0800);
    PartialNext(r, u, z + 4, a3, 0x0800);
    var a5 := Next(a4, r, u, 0x0400);
    PartialNext(r, u, z + 5, a4, 0x0400);
    var a6 := Next(a5, r, u, 0x0200);
    PartialNext(r, u, z + 6, a5, 0x0200);
    var a7 := Next(a6, r, u, 0x0100);
    PartialNext(r, u, z + 7, a6, 0x0100);
    var a8 := Next(a7, r, u, 0x0080);
    PartialNext(r, u, z + 8, a7, 0x0080);
    var a9 := Next(a8, r, u, 0x0040);
    PartialNext(r, u, z + 9, a8, 0x0040);
    var a10 := Next(a9, r, u, 0x0020);
    PartialNext(r, u, z + 10, a9, 0x0020);
    var a11 := Next(a10, r, u, 0x0010);
    PartialNext(r, u, z + 11, a10, 0x0010);
    var a12 := Next(a11, r, u, 0x0008);
    PartialNext(r, u, z + 12, a11, 0x0008);
    var a13 := Next(a12, r, u, 0x0004);
    PartialNext(r, u, z + 13, a12, 0x0004);
    var a14 := Next(a13, r, u, 0x0002);
    PartialNext(r, u, z + 14, a13, 0x0002);
    var a15 := Next(a14, r, u, 0x0001);
    PartialNext(r, u, z + 15, a14, 0x0001);
  }

  // ---- powers of x --------------------------------------------------------------------

  /** The word c holds x^n modulo the generator. */
  ghost predicate IsPower(n: nat, c: bv16) {
    Congruent(GENERATOR, Pow2(n), Value(c))
  }

  lemma PowerProduct(m: nat, r: bv16, n: nat, u: bv16, s: bv16)
    requires IsPower(m, r) && IsPower(n, u) && s == Partial(r, u, 16)
    ensures IsPower(m + n, s)
  {
    var k := 16;
    var a, b := Value(r), Value(u);
    assert Pow2(m + n) == Shl(Pow2(n), m) by { ShlShl(1, n, m); }
    CongruentShl(GENERATOR, Pow2(n), b, m);
    MulPower(b, m);
    MulCongruent(b, Pow2(m), a);
    assert Congruent(GENERATOR, Mul(b, a), Value(s)) by {
      PartialCongruent(r, u, k);
      assert Bits(u)[16 - k..] == Bits(u);
    }
    CongruentTrans(GENERATOR, Pow2(m + n), Mul(b, Pow2(m)), Mul(b, a));
    CongruentTrans(GENERATOR, Pow2(m + n), Mul(b, a), Value(s));
  }

  /** The same with the product worked out. */
  lemma Times(m: nat, r: bv16, n: nat, u: bv16, s: bv16)
    requires IsPower(m, r) && IsPower(n, u) && Product(r, u) == s
    ensures IsPower(m + n, s)
  {
    ProductIsPartial(r, u, 16);
    PowerProduct(m, r, n, u, s);
  }

  lemma OneValue(c: bv16)
    requires c == 0x0001
    ensures Value(c) == 1
  {
    Masks();
    var one, none := [true, false, false, false], [false, false, false, false];
    assert Bits(c) == one + none + none + none;
    ValueOfNibbles(c, one, none, none, none);
    FromNibble(true, false, false, false);
    FromNibble(false, false, false, false);
  }

  lemma TwoValue(c: bv16)
    requires c == 0x0002
    ensures Value(c) == 2
  {
    Masks();
    var two, none := [false, true, false, false], [false, false, false, false];
    assert Bits(c) == two + none + none + none;
    ValueOfNibbles(c, two, none, none, none);
    FromNibble(false, true, false, false);
    FromNibble(false, false, false, false);
  }

  lemma PowerOne(c: bv16)
    requires c == 0x0002
    ensures IsPower(1, c) && Value(c) == 2
  {
    TwoValue(c);
    CongruentRefl(GENERATOR, 2);
    ShlNext(1, 0);
  }

  lemma NineValue(c: bv16)
    requires c == 0x0200
    ensures Value(c) == 512
  {
    Masks();
    var two, none := [false, true, false, false], [false, false, false, false];
    assert Bits(c) == none + none + two + none;
    ValueOfNibbles(c, none, none, two, none);
    FromNibble(false, true, false, false);
    FromNibble(false, false, false, false);
  }

  lemma PowerNine(c: bv16)
    requires c == 0x0200
    ensures IsPower(9, c)
  {
    NineValue(c);
    CongruentRefl(GENERATOR, 512);
    Pow2Values();
    ShlNext(1, 8);
  }

  lemma PowerSixteen(c: bv16)
    requires c == 0x1021
    ensures IsPower(16, c)
  {
    PolynomialValue();
    Pow2Values();
    ReplaceTop(0, 0x1_0000);
    AddZero(0x1021);
  }

  // ---- the powers that decide the period ------------------------------------------------

  lemma LowSquares() returns (e4: nat, e5: nat, e6: nat, e7: nat)
    ensures e4 == 16 && e5 == 32 && e6 == 64 && e7 == 128
    ensures IsPower(e4, 0x1021) && IsPower(e5, 0x3730) && IsPower(e6, 0xB861) && IsPower(e7, 0xAEFC)
  {
    Squares();
    e4 := 16;
    PowerSixteen(0x1021);
    e5 := e4 + e4;
    Times(e4, 0x1021, e4, 0x1021, 0x3730);
    e6 := e5 + e5;
    Times(e5, 0x3730, e5, 0x3730, 0xB861);
    e7 := e6 + e6;
    Times(e6, 0xB861, e6, 0xB861, 0xAEFC);
  }

  lemma MiddleSquares(e7: nat) returns (e9: nat, e10: nat, e12: nat)
    requires e7 == 128 && IsPower(e7, 0xAEFC)
    ensures e9 == 512 && e10 == 1024 && e12 == 4096
    ensures IsPower(e9, 0x13FC) && IsPower(e10, 0x36C4) && IsPower(e12, 0xAA9E)
  {
    Squares();
    var e8 := e7 + e7;
    Times(e7, 0xAEFC, e7, 0xAEFC, 0x8E29);
    e9 := e8 + e8;
    Times(e8, 0x8E29, e8, 0x8E29, 0x13FC);
    e10 := e9 + e9;
    Times(e9, 0x13FC, e9, 0x13FC, 0x36C4);
    var e11 := e10 + e10;
    Times(e10, 0x36C4, e10, 0x36C4, 0xFD50);
    e12 := e11 + e11;
    Times(e11, 0xFD50, e11, 0xFD50, 0xAA9E);
  }

  lemma HighSquares(e12: nat) returns (e15: nat)
    requires e12 == 4096 && IsPower(e12, 0xAA9E)
    ensures e15 == 32768 && IsPower(e15, 0x0002)
  {
    Squares();
    var e13 := e12 + e12;
    Times(e12, 0xAA9E, e12, 0xAA9E, 0x881C);
    var e14 := e13 + e13;
    Times(e13, 0x881C, e13, 0x881C, 0x4458);
    e15 := e14 + e14;
    Times(e14, 0x4458, e14, 0x4458, 0x0002);
  }

  /** x^4681, x^1057 and x^217. */
  lemma Decisive(e5: nat, e6: nat, e7: nat, e9: nat, e10: nat, e12: nat) returns (a: nat, b: nat, c: nat)
    requires e5 == 32 && e6 == 64 && e7 == 128 && e9 == 512 && e10 == 1024 && e12 == 4096
    requires IsPower(e5, 0x3730) && IsPower(e6, 0xB861) && IsPower(e7, 0xAEFC)
    requires IsPower(e9, 0x13FC) && IsPower(e10, 0x36C4) && IsPower(e12, 0xAA9E)
    ensures a == 4681 && IsPower(a, 0x2C42)
    ensures b == 1057 && IsPower(b, 0xF2AF)
    ensures c == 217 && IsPower(c, 0x48E3)
  {
    Products();
    PowerOne(0x0002);
    PowerNine(0x0200);
    PowerSixteen(0x1021);
    var one, nine, sixteen := 1, 9, 16;
    Times(e6, 0xB861, nine, 0x0200, 0x8FA6);
    Times(e12, 0xAA9E, e9, 0x13FC, 0x54A0);
    a := (e12 + e9) + (e6 + nine);
    Times(e12 + e9, 0x54A0, e6 + nine, 0x8FA6, 0x2C42);
    Times(e10, 0x36C4, e5, 0x3730, 0xF147);
    b := (e10 + e5) + one;
    Times(e10 + e5, 0xF147, one, 0x0002, 0xF2AF);
    Times(e7, 0xAEFC, e6, 0xB861, 0x650B);
    Times(sixteen, 0x1021, nine, 0x0200, 0x6662);
    c := (e7 + e6) + (sixteen + nine);
    Times(e7 + e6, 0x650B, sixteen + nine, 0x6662, 0x48E3);
  }

  // ---- cycles -------------------------------------------------------------------------------

  /** x^n is 1 modulo the generator. */
  ghost predicate Cycle(n: nat) {
    Congruent(GENERATOR, Pow2(n), 1)
  }

  lemma CycleShift(a: nat, b: nat)
    requires Cycle(a)
    ensures Congruent(GENERATOR, Pow2(a + b), Pow2(b))
  {
    ShlShl(1, a, b);
    CongruentShl(GENERATOR, Pow2(a), 1, b);
  }

  lemma CycleSum(a: nat, b: nat)
    requires Cycle(a) && Cycle(b)
    ensures Cycle(a + b)
  {
    CycleShift(a, b);
    CongruentTrans(GENERATOR, Pow2(a + b), Pow2(b), 1);
  }

  lemma CycleDifference(a: nat, b: nat)
    requires Cycle(a) && Cycle(a + b)
    ensures Cycle(b)
  {
    CycleShift(a, b);
    CongruentSym(GENERATOR, Pow2(a + b), Pow2(b));
    CongruentTrans(GENERATOR, Pow2(b), Pow2(a + b), 1);
  }

  lemma CycleSumIff(a: nat, b: nat)
    requires Cycle(a)
    ensures Cycle(a + b) <==> Cycle(b)
  {
    if Cycle(b) { CycleSum(a, b); }
    if Cycle(a + b) { CycleDifference(a, b); }
  }

  lemma CycleZero()
    ensures Cycle(0)
  {
    CongruentRefl(GENERATOR, 1);
  }

  function Multiple(k: nat, d: nat): nat {
    if k == 0 then 0 else Multiple(k - 1, d) + d
  }

  lemma {:induction false} MultipleIsProduct(k: nat, d: nat)
    ensures Multiple(k, d) == k * d
  {
    if k > 0 {
      MultipleIsProduct(k - 1, d);
      assert (k - 1) * d + d == k * d;
    }
  }

  lemma {:induction false} CycleMultiple(k: nat, d: nat)
    requires Cycle(d)
    ensures Cycle(Multiple(k, d))
  {
    if k == 0 { CycleZero(); }
    else {
      CycleMultiple(k - 1, d);
      CycleSum(Multiple(k - 1, d), d);
    }
  }

  /** Two cycles have a common divisor that is a cycle. */
  lemma {:induction false} CommonCycle(a: nat, b: nat) returns (d: nat, i: nat, j: nat)
    requires a > 0 && b > 0 && Cycle(a) && Cycle(b)
    ensures d > 0 && a == i * d && b == j * d && Cycle(d)
    decreases a + b
  {
    if a == b {
      d, i, j := a, 1, 1;
    } else if a < b {
      CycleDifference(a, b - a);
      d, i, j := CommonCycle(a, b - a);
      assert b == i * d + j * d == (i + j) * d;
      j := i + j;
    } else {
      CycleDifference(b, a - b);
      d, i, j := CommonCycle(a - b, b);
      assert a == i * d + j * d == (i + j) * d;
      i := i + j;
    }
  }

  lemma NotCycle(n: nat, c: bv16)
    requires IsPower(n, c) && c != 0x0001
    ensures !Cycle(n)
  {
    var one: bv16 := 0x0001;
    OneValue(one);
    ValueBound(c);
    Pow2Values();
    if Cycle(n) {
      RemaindersAgree(Pow2(n), Value(c), 1);
      ValueInjective(c, one);
    }
  }

  lemma FullCycle(e15: nat, n: nat)
    requires e15 == n + 1 && IsPower(e15, 0x0002)
    ensures Cycle(n)
  {
    PowerOne(0x0002);
    ShlNext(1, n);
    ShlNext(1, 0);
    ShlAdd(Pow2(n), 1, 1);
    ShlNext(Pow2(n), 0);
    DividesShl(GENERATOR, Add(Pow2(n), 1), 1);
  }

  lemma FullPeriod() returns (full: nat)
    ensures full == 32767 && Cycle(full)
  {
    var e4, e5, e6, e7 := LowSquares();
    var e9, e10, e12 := MiddleSquares(e7);
    var e15 := HighSquares(e12);
    full := 32767;
    FullCycle(e15, full);
  }

  lemma NoThird() returns (a: nat, b: nat, c: nat)
    ensures a == 4681 && b == 1057 && c == 217 && !Cycle(a) && !Cycle(b) && !Cycle(c)
  {
    var e4, e5, e6, e7 := LowSquares();
    var e9, e10, e12 := MiddleSquares(e7);
    a, b, c := Decisive(e5, e6, e7, e9, e10, e12);
    NotCycle(a, 0x2C42);
    NotCycle(b, 0xF2AF);
    NotCycle(c, 0x48E3);
  }

  // ---- the divisors of 32767 = 7 * 31 * 151 ---------------------------------------------------

  /** A common divisor of a and b that is a combination of them. */
  lemma {:induction false} Bezout(a: nat, b: nat) returns (g: nat, i: nat, j: nat, u: int, v: int)
    requires a > 0 && b > 0
    ensures g > 0 && a == i * g && b == j * g && u * a + v * b == g
    decreases a + b
  {
    if a == b {
      g, i, j, u, v := a, 1, 1, 1, 0;
    } else if a < b {
      g, i, j, u, v := Bezout(a, b - a);
      assert b == i * g + j * g == (i + j) * g;
      assert (u - v) * a + v * b == u * a + v * (b - a);
      j, u := i + j, u - v;
    } else {
      g, i, j, u, v := Bezout(a - b, b);
      assert a == i * g + j * g == (i + j) * g;
      assert u * a + (v - u) * b == u * (a - b) + v * b;
      i, v := i + j, v - u;
    }
  }

  lemma Prime(p: nat, g: nat, m: nat)
    requires p == 7 || p == 31 || p == 151
    requires g * m == p
    ensures g == 1 || g == p
  {
    LargeProduct(g, m);
    if g > 1 && m > 1 {
      if g <= 12 { NoSmallFactor(p, g, m); } else { NoSmallFactor(p, m, g); }
    }
  }

  lemma LargeProduct(g: nat, m: nat)
    ensures g > 12 && m > 12 ==> g * m >= 169
  {
    if g > 12 && m > 12 { assert g * m >= 13 * m; }
  }

  lemma NoSmallFactor(p: nat, g: nat, m: nat)
    requires p == 7 || p == 31 || p == 151
    requires g * m == p && m > 1
    ensures g < 2 || g > 12
  {
    assert g == 2 ==> 2 * m == p;
    assert g == 3 ==> 3 * m == p;
    assert g == 4 ==> 4 * m == p;
    assert g == 5 ==> 5 * m == p;
    assert g == 6 ==> 6 * m == p;
    assert g == 7 ==> 7 * m == p;
    assert g == 8 ==> 8 * m == p;
    assert g == 9 ==> 9 * m == p;
    assert g == 10 ==> 10 * m == p;
    assert g == 11 ==> 11 * m == p;
    assert g == 12 ==> 12 * m == p;
  }

  /** A prime that divides a product divides a factor. */
  lemma PrimeSplits(p: nat, j: nat, d: nat, m: nat) returns (first: bool, k: int)
    requires p == 7 || p == 31 || p == 151
    requires j > 0 && d > 0 && j * d == p * m
    ensures first ==> j == k * p
    ensures !first ==> d == k * p
  {
    var g, i, h, u, v := Bezout(j, p);
    Prime(p, g, h);
    first := g == p;
    if first {
      k := i;
    } else {
      k := u * m + v * d;
      Scaled(j, d, p, m, u, v);
    }
  }

  lemma Scaled(j: int, d: int, p: int, m: int, u: int, v: int)
    requires u * j + v * p == 1 && j * d == p * m
    ensures d == (u * m + v * d) * p
  {
    assert (u * j + v * p) * d == u * (j * d) + v * p * d;
    assert u * (p * m) + v * p * d == (u * m + v * d) * p;
  }

  lemma ThreePrimes(d: nat, x: int, y: int, z: int)
    requires d > 0 && d == 7 * x == 31 * y == 151 * z
    ensures d >= 32767
  {
    var w := 9 * y - 2 * x;
    assert x == 31 * w;
    assert w == 151 * (23 * w - 16 * z);
  }

  /** A proper divisor of 32767 divides 4681, 1057 or 217. */
  lemma ProperDivisor(j: nat, d: nat) returns (k: nat)
    requires j * d == 32767 && j > 1
    ensures k * d == 4681 || k * d == 1057 || k * d == 217
  {
    assert d > 0;
    var a, x := PrimeSplits(7, j, d, 4681);
    var b, y := PrimeSplits(31, j, d, 1057);
    var c, z := PrimeSplits(151, j, d, 217);
    if a {
      k := Factor(7, j, d, x, 4681);
    } else if b {
      k := Factor(31, j, d, y, 1057);
    } else if c {
      k := Factor(151, j, d, z, 217);
    } else {
      k := 0;
      ThreePrimes(d, x, y, z);
      TooLarge(j, d);
    }
  }

  lemma Factor(p: nat, j: nat, d: nat, x: int, m: nat) returns (k: nat)
    requires p > 0 && j > 0 && j == x * p && j * d == p * m
    ensures k * d == m
  {
    assert x > 0;
    k := x;
    assert p * (x * d) == p * m;
  }

  lemma TooLarge(j: nat, d: nat)
    requires d >= 32767 && j > 1
    ensures j * d > 32767
  {
    assert j * d >= 2 * d;
  }

  lemma NoShorterCycle(r: nat)
    requires 0 < r < 32767
    ensures !Cycle(r)
  {
    if Cycle(r) {
      var full := FullPeriod();
      var d, i, j := CommonCycle(r, full);
      ProperFactor(r, i, j, d, full);
      ProperPeriod(j, d);
    }
  }

  lemma OnePeriodOn(n: nat)
    ensures Cycle(32767 + n) <==> Cycle(n)
  {
    var full := FullPeriod();
    CycleSumIff(full, n);
  }

  /** The powers of x repeat with period 32767 and no shorter one. */
  lemma {:induction false} CycleIff(n: nat)
    ensures Cycle(n) <==> n % 32767 == 0
  {
    if n == 0 {
      CycleZero();
    } else if n < 32767 {
      NoShorterCycle(n);
    } else {
      CycleIff(n - 32767);
      OnePeriodOn(n - 32767);
      assert 32767 + (n - 32767) == n;
    }
  }

  lemma ProperFactor(r: nat, i: nat, j: nat, d: nat, full: nat)
    requires 0 < r < full && r == i * d && full == j * d
    ensures j > 1
  {
    assert i > 0;
    assert i * d >= d;
  }

  lemma ProperPeriod(j: nat, d: nat)
    requires j * d == 32767 && j > 1
    ensures !Cycle(d)
  {
    var a, b, c := NoThird();
    var k := ProperDivisor(j, d);
    MultipleIsProduct(k, d);
    if Cycle(d) { CycleMultiple(k, d); }
  }

  // ---- two flipped bits ---------------------------------------------------------------------

  /** The streams differ in bits i and j and nowhere else. */
  ghost predicate DifferAtTwo(a: seq<bv8>, b: seq<bv8>, i: nat, j: nat)
    requires |a| == |b|
  {
    && i < j < 8 * |a|
    && forall k: nat | k < 8 * |a| :: StreamBit(a, k) != StreamBit(b, k) <==> k == i || k == j
  }

  lemma {:induction false} CoefPow2(n: nat, k: nat)
    ensures Coef(Pow2(n), k) <==> k == n
  {
    CoefShl(1, n, k);
    if k > n { CoefBound(1, 1, k - n); assert Pow2(1) == 2; }
  }

  lemma {:induction false} SameCoefs(p: nat, q: nat)
    requires forall k: nat :: Coef(p, k) == Coef(q, k)
    ensures p == q
    decreases p + q
  {
    if p != 0 || q != 0 {
      assert Coef(p, 0) == Coef(q, 0);
      forall k: nat ensures Coef(p / 2, k) == Coef(q / 2, k) { assert Coef(p, k + 1) == Coef(q, k + 1); }
      SameCoefs(p / 2, q / 2);
    }
  }

  lemma TwoCoefs(d: nat, low: nat, k: nat)
    requires d > 0
    ensures Coef(Shl(Add(Pow2(d), 1), low), k) <==> k == low || k == low + d
  {
    CoefShl(Add(Pow2(d), 1), low, k);
    if k >= low {
      CoefAdd(Pow2(d), 1, k - low);
      CoefPow2(d, k - low);
      CoefPow2(0, k - low);
    }
  }

  /** The difference is x^low * (x^distance + 1). */
  lemma TwoBitPolynomial(a: seq<bv8>, b: seq<bv8>, i: nat, j: nat)
    requires |a| == |b| && DifferAtTwo(a, b, i, j)
    ensures Add(Message(a), Message(b)) == Shl(Add(Pow2(j - i), 1), 8 * |a| - 1 - j)
  {
    var e, low := Add(Message(a), Message(b)), 8 * |a| - 1 - j;
    var p := Shl(Add(Pow2(j - i), 1), low);
    forall k: nat ensures Coef(e, k) == Coef(p, k) {
      assert Coef(e, k) <==> k == low || k == low + (j - i) by { DifferenceCoef(a, b, k); }
      TwoCoefs(j - i, low, k);
    }
    SameCoefs(e, p);
  }

  lemma DividesShlIff(p: nat, k: nat)
    ensures Divides(GENERATOR, Shl(p, k)) <==> Divides(GENERATOR, p)
  {
    if Divides(GENERATOR, Shl(p, k)) { DividesShl(GENERATOR, p, k); }
    if Divides(GENERATOR, p) {
      var q: nat :| Mul(q, GENERATOR) == p;
      MulShl(q, GENERATOR, k);
    }
  }

  /** Two flipped bits go unnoticed exactly when their distance is a multiple of 32767. */
  lemma TwoFlipsUndetectedIff(preset: nat, a: seq<bv8>, b: seq<bv8>, i: nat, j: nat)
    requires preset < Pow2(16) && |a| == |b| && DifferAtTwo(a, b, i, j)
    ensures Run(preset, a) == Run(preset, b) <==> (j - i) % 32767 == 0
  {
    CollisionIffMultiple(preset, a, b);
    TwoBitPolynomial(a, b, i, j);
    DividesShlIff(Add(Pow2(j - i), 1), 8 * |a| - 1 - j);
    CycleIff(j - i);
  }

  // ---- up to three flipped bits ----------------------------------------------------------------

  lemma {:induction false} NoneFlipped(a: seq<bv8>, b: seq<bv8>, i: nat, k: nat)
    requires |a| == |b| && i <= k < 8 * |a| && FlippedFrom(a, b, i) == 0
    ensures StreamBit(a, k) == StreamBit(b, k)
    decreases 8 * |a| - i
  {
    if i < k { NoneFlipped(a, b, i + 1, k); }
  }

  /** From bit i on: the first differing bit, and the count behind it. */
  lemma {:induction false} FirstFlipped(a: seq<bv8>, b: seq<bv8>, i: nat) returns (f: nat)
    requires |a| == |b| && i <= 8 * |a| && FlippedFrom(a, b, i) > 0
    ensures i <= f < 8 * |a| && StreamBit(a, f) != StreamBit(b, f)
    ensures forall k: nat | i <= k < f :: StreamBit(a, k) == StreamBit(b, k)
    ensures FlippedFrom(a, b, f + 1) == FlippedFrom(a, b, i) - 1
    decreases 8 * |a| - i
  {
    if StreamBit(a, i) != StreamBit(b, i) {
      f := i;
    } else {
      f := FirstFlipped(a, b, i + 1);
    }
  }

  lemma TwoFlipped(a: seq<bv8>, b: seq<bv8>) returns (i: nat, j: nat)
    requires |a| == |b| && Flipped(a, b) == 2
    ensures DifferAtTwo(a, b, i, j)
  {
    i := FirstFlipped(a, b, 0);
    j := FirstFlipped(a, b, i + 1);
    forall k: nat | k < 8 * |a| ensures StreamBit(a, k) != StreamBit(b, k) <==> k == i || k == j {
      if k > j { NoneFlipped(a, b, j + 1, k); }
    }
  }

  lemma TwoFlippedDetected(preset: nat, a: seq<bv8>, b: seq<bv8>)
    requires preset < Pow2(16) && |a| == |b| && 8 * |a| <= 32767 && Flipped(a, b) == 2
    ensures Run(preset, a) != Run(preset, b)
  {
    var i, j := TwoFlipped(a, b);
    TwoFlipsUndetectedIff(preset, a, b, i, j);
  }

  /** In messages of at most 32767 bits, one, two or three flipped bits are always noticed. */
  lemma FewFlipsAreDetected(preset: nat, a: seq<bv8>, b: seq<bv8>)
    requires preset < Pow2(16) && |a| == |b| && 8 * |a| <= 32767 && 1 <= Flipped(a, b) <= 3
    ensures Run(preset, a) != Run(preset, b)
  {
    if Flipped(a, b) == 2 { TwoFlippedDetected(preset, a, b); } else { OddFlipsAreDetected(preset, a, b); }
  }
}
