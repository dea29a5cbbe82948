/** What the check sum means: it is a remainder of polynomial division, and so it
    detects every burst of up to 16 bits and every odd number of flipped bits. */
module CrcProperties {
  import opened Gf2
  import opened Register16
  import opened Crc

  /** The polynomial of a message: its bits, the first byte's top bit leading. */
  function Message(data: seq<bv8>): nat {
    if data == [] then 0
    else Add(Shl(Message(data[..|data| - 1]), 8), ByteValue(data[|data| - 1]))
  }

  /** The message times x^16, with a preset register folded into its first 16 bits. */
  function Dividend(preset: nat, data: seq<bv8>): nat {
    Add(Shl(Message(data), 16), Shl(preset, 8 * |data|))
  }

  /** x^16 + x^12 + x^5 + 1. */
  const GENERATOR: nat := 0x11021

  /** r is what division of p by the generator leaves. */
  ghost predicate IsRemainder(p: nat, r: nat) {
    r < Pow2(16) && exists q: nat :: p == Add(Mul(q, GENERATOR), r)
  }

  // ---- the register follows the division ----------------------------------

  lemma GeneratorDegree()
    ensures Pow2(16) <= GENERATOR < Pow2(17)
  {
    Pow2Values();
  }

  lemma GeneratorSplit()
    ensures Add(Pow2(16), 0x1021) == GENERATOR
  {
    Pow2Values();
    AddDisjoint(1, 0x1021, 16);
  }

  /** Replacing the term x^16 by 0x1021 adds the generator. */
  lemma ReplaceTop(low: nat, high: nat)
    requires low < Pow2(16) && high == low + Pow2(16)
    ensures Congruent(GENERATOR, high, Add(low, 0x1021))
  {
    var t := Pow2(16);
    assert high == Add(low, t) by { AddDisjoint(1, low, 16); AddComm(low, t); }
    assert Add(high, Add(low, 0x1021)) == Add(Add(low, low), Add(t, 0x1021)) by { AddSwap(low, t, low, 0x1021); }
    assert Add(Add(low, low), Add(t, 0x1021)) == GENERATOR by { AddSelf(low); GeneratorSplit(); AddZero(GENERATOR); }
    assert Mul(1, GENERATOR) == GENERATOR by { MulUnfold(0, 1, GENERATOR); AddZero(GENERATOR); }
  }

  lemma ShiftCongruent(v: nat)
    requires v < Pow2(16)
    ensures Congruent(GENERATOR, 2 * v, Shift(v)) && Shift(v) < Pow2(16)
  {
    Pow2Values();
    if v < 0x8000 {
      CongruentRefl(GENERATOR, 2 * v);
    } else {
      ReplaceTop(2 * v - 0x1_0000, 2 * v);
      AddBound(2 * v - 0x1_0000, 0x1021, 16);
    }
  }

  lemma {:induction false} ShiftsCongruent(v: nat, k: nat)
    requires v < Pow2(16)
    ensures Congruent(GENERATOR, Shl(v, k), Shifts(v, k)) && Shifts(v, k) < Pow2(16)
  {
    if k == 0 {
      CongruentRefl(GENERATOR, v);
    } else {
      var w := Shifts(v, k - 1);
      ShiftsCongruent(v, k - 1);
      CongruentShl(GENERATOR, Shl(v, k - 1), w, 1);
      ShlNext(Shl(v, k - 1), 0);
      ShlNext(w, 0);
      ShiftCongruent(w);
      CongruentTrans(GENERATOR, Shl(v, k), 2 * w, Shift(w));
    }
  }

  lemma StepCongruent(v: nat, byte: bv8)
    requires v < Pow2(16)
    ensures Congruent(GENERATOR, Add(Shl(v, 8), Shl(ByteValue(byte), 16)), Step(v, byte))
    ensures Step(v, byte) < Pow2(16)
  {
    var b := ByteValue(byte);
    ByteBound(byte);
    Pow2Values();
    AddBound(v, 0x100 * b, 16);
    ShiftsCongruent(Add(v, 0x100 * b), 8);
    ShlEight(b);
    ShlAdd(v, Shl(b, 8), 8);
    ShlShl(b, 8, 8);
  }

  lemma DividendSnoc(preset: nat, data: seq<bv8>)
    requires data != []
    ensures Dividend(preset, data)
         == Add(Shl(Dividend(preset, data[..|data| - 1]), 8), Shl(ByteValue(data[|data| - 1]), 16))
  {
    var p, b := data[..|data| - 1], ByteValue(data[|data| - 1]);
    var m', s', b' := Shl(Message(p), 24), Shl(preset, 8 * |data|), Shl(b, 16);
    assert Shl(Dividend(preset, p), 8) == Add(m', s') by {
      ShlAdd(Shl(Message(p), 16), Shl(preset, 8 * |p|), 8);
      ShlShl(Message(p), 16, 8);
      ShlShl(preset, 8 * |p|, 8);
    }
    assert Shl(Message(data), 16) == Add(m', b') by {
      ShlAdd(Shl(Message(p), 8), b, 16);
      ShlShl(Message(p), 8, 16);
    }
    assert Add(Add(m', b'), s') == Add(Add(m', s'), b') by {
      AddAssoc(m', b', s');
      AddComm(b', s');
      AddAssoc(m', s', b');
    }
  }

  lemma {:induction false} RunCongruent(preset: nat, data: seq<bv8>)
    requires preset < Pow2(16)
    ensures Congruent(GENERATOR, Dividend(preset, data), Run(preset, data))
    ensures Run(preset, data) < Pow2(16)
  {
    if data == [] {
      ShlZero(16);
      AddZero(preset);
      CongruentRefl(GENERATOR, preset);
    } else {
      var p, byte := data[..|data| - 1], data[|data| - 1];
      var v, d, b := Run(preset, p), Dividend(preset, p), Shl(ByteValue(byte), 16);
      RunCongruent(preset, p);
      CongruentShl(GENERATOR, d, v, 8);
      CongruentAdd(GENERATOR, Shl(d, 8), Shl(v, 8), b);
      DividendSnoc(preset, data);
      StepCongruent(v, byte);
      CongruentTrans(GENERATOR, Add(Shl(d, 8), b), Add(Shl(v, 8), b), Step(v, byte));
    }
  }

  lemma RemaindersAgree(p: nat, r: nat, s: nat)
    requires Congruent(GENERATOR, p, r) && Congruent(GENERATOR, p, s) && r < Pow2(16) && s < Pow2(16)
    ensures r == s
  {
    CongruentSym(GENERATOR, p, r);
    CongruentTrans(GENERATOR, r, p, s);
    GeneratorDegree();
    CongruentSmall(GENERATOR, 16, r, s);
  }

  lemma CongruentIffRemainder(p: nat, r: nat)
    requires r < Pow2(16)
    ensures Congruent(GENERATOR, p, r) <==> IsRemainder(p, r)
  {
    AddSelf(r);
    if Congruent(GENERATOR, p, r) {
      var q: nat :| Mul(q, GENERATOR) == Add(p, r);
      AddAssoc(p, r, r);
      AddZero(p);
      assert p == Add(Mul(q, GENERATOR), r);
    }
    if IsRemainder(p, r) {
      var q: nat :| p == Add(Mul(q, GENERATOR), r);
      AddAssoc(Mul(q, GENERATOR), r, r);
      AddZero(Mul(q, GENERATOR));
      assert Mul(q, GENERATOR) == Add(p, r);
    }
  }

  /** The byte and bit loops compute the remainder of message * x^16 with the
      preset folded in, modulo x^16 + x^12 + x^5 + 1; no other value is that
      remainder. */
  lemma CrcIsRemainder(preset: nat, data: seq<bv8>, r: nat)
    requires preset < Pow2(16)
    ensures IsRemainder(Dividend(preset, data), r) <==> r == Run(preset, data)
  {
    var p, v := Dividend(preset, data), Run(preset, data);
    RunCongruent(preset, data);
    CongruentIffRemainder(p, v);
    if IsRemainder(p, r) {
      CongruentIffRemainder(p, r);
      RemaindersAgree(p, r, v);
    }
  }

  // ---- which errors go undetected -----------------------------------------

  lemma {:induction false} DividendDifference(preset: nat, a: seq<bv8>, b: seq<bv8>)
    requires |a| == |b|
    ensures Add(Dividend(preset, a), Dividend(preset, b)) == Shl(Add(Message(a), Message(b)), 16)
  {
    var s := Shl(preset, 8 * |a|);
    AddSwap(Shl(Message(a), 16), s, Shl(Message(b), 16), s);
    AddSelf(s);
    ShlAdd(Message(a), Message(b), 16);
    AddZero(Add(Shl(Message(a), 16), Shl(Message(b), 16)));
  }

  /** Two messages of one length collide exactly when the polynomial of their
      difference is a multiple of the generator. */
  lemma {:induction false} CollisionIffMultiple(preset: nat, a: seq<bv8>, b: seq<bv8>)
    requires preset < Pow2(16) && |a| == |b|
    ensures Run(preset, a) == Run(preset, b) <==> Divides(GENERATOR, Add(Message(a), Message(b)))
  {
    var g, e := GENERATOR, Add(Message(a), Message(b));
    var da, db := Dividend(preset, a), Dividend(preset, b);
    var va, vb := Run(preset, a), Run(preset, b);
    RunCongruent(preset, a);
    RunCongruent(preset, b);
    DividendDifference(preset, a, b);
    if va == vb {
      CongruentSym(g, db, vb);
      CongruentTrans(g, da, va, db);
      DividesShl(g, e, 16);
    }
    if Divides(g, e) {
      var q: nat :| Mul(q, g) == e;
      MulShl(q, g, 16);
      assert Congruent(g, da, db);
      CongruentTrans(g, da, db, vb);
      RemaindersAgree(da, va, vb);
    }
  }

  // ---- messages as bit streams --------------------------------------------

  /** Bit i of a message in transmission order: the top bit of byte 0 is bit 0. */
  predicate StreamBit(data: seq<bv8>, i: nat)
    requires i < 8 * |data|
  {
    BitAt(data[i / 8] as bv16, 7 - i % 8)
  }

  lemma {:induction false} MessageBound(data: seq<bv8>)
    ensures Message(data) < Pow2(8 * |data|)
  {
    var n := 8 * |data|;
    forall k: nat | k >= n ensures !Coef(Message(data), k) {
      MessageHighCoef(data, k);
    }
    HighCoefs(Message(data), n);
  }

  lemma {:induction false} MessageHighCoef(data: seq<bv8>, k: nat)
    requires k >= 8 * |data|
    ensures !Coef(Message(data), k)
  {
    if data == [] {
      CoefZero(k);
    } else {
      var p, v := data[..|data| - 1], ByteValue(data[|data| - 1]);
      MessageHighCoef(p, k - 8);
      CoefShl(Message(p), 8, k);
      ByteBound(data[|data| - 1]);
      CoefBound(v, 8, k);
      CoefAdd(Shl(Message(p), 8), v, k);
    }
  }

  lemma StreamBitPrefix(data: seq<bv8>, i: nat)
    requires data != [] && i < 8 * (|data| - 1)
    ensures StreamBit(data, i) == StreamBit(data[..|data| - 1], i)
  {
    assert i / 8 < |data| - 1;
  }

  lemma StreamBitLast(data: seq<bv8>, k: nat)
    requires data != [] && k < 8
    ensures StreamBit(data, 8 * |data| - 1 - k) == BitAt(data[|data| - 1] as bv16, k)
  {
    var i := 8 * |data| - 1 - k;
    assert i / 8 == |data| - 1 && i % 8 == 7 - k;
  }

  /** The coefficients of the message polynomial are the bits of the stream, reversed. */
  lemma {:induction false} MessageCoef(data: seq<bv8>, k: nat)
    requires k < 8 * |data|
    ensures Coef(Message(data), k) == StreamBit(data, 8 * |data| - 1 - k)
  {
    var p, v := data[..|data| - 1], ByteValue(data[|data| - 1]);
    assert Coef(Message(data), k) == (Coef(Shl(Message(p), 8), k) != Coef(v, k)) by {
      CoefAdd(Shl(Message(p), 8), v, k);
    }
    CoefShl(Message(p), 8, k);
    if k < 8 {
      ValueCoef(data[|data| - 1] as bv16, k);
      StreamBitLast(data, k);
    } else {
      ByteBound(data[|data| - 1]);
      CoefBound(v, 8, k);
      MessageCoef(p, k - 8);
      StreamBitPrefix(data, 8 * |data| - 1 - k);
    }
  }

  lemma ByteValueInjective(a: bv8, b: bv8)
    requires ByteValue(a) == ByteValue(b)
    ensures a == b
  {
    ValueInjective(a as bv16, b as bv16);
    ByteWidening(a, b);
  }

  lemma ByteWidening(a: bv8, b: bv8)
    requires a as bv16 == b as bv16
    ensures a == b
  {
  }

  lemma MessageSplit(data: seq<bv8>)
    requires data != []
    ensures var v := ByteValue(data[|data| - 1]);
            v < 256 && Message(data) == 256 * Message(data[..|data| - 1]) + v
  {
    var m, v := Message(data[..|data| - 1]), ByteValue(data[|data| - 1]);
    assert v < Pow2(8) && Pow2(8) == 256 by { ByteBound(data[|data| - 1]); Pow2Values(); }
    assert Message(data) == Shl(m, 8) + v by { AddDisjoint(m, v, 8); }
    ShlEight(m);
  }

  /** Messages of one length with the same polynomial are the same message. */
  lemma {:induction false} MessageInjective(a: seq<bv8>, b: seq<bv8>)
    requires |a| == |b| && Message(a) == Message(b)
    ensures a == b
  {
    if a != [] {
      var n := |a| - 1;
      MessageSplit(a);
      MessageSplit(b);
      MessageInjective(a[..n], b[..n]);
      ByteValueInjective(a[n], b[n]);
      assert a == a[..n] + [a[n]] && b == b[..n] + [b[n]];
    }
  }

  // ---- burst errors --------------------------------------------------------

  /** The streams agree outside the 16 bits that start at bit w. */
  ghost predicate DifferOnlyWithin(a: seq<bv8>, b: seq<bv8>, w: nat)
    requires |a| == |b|
  {
    forall i: nat | i < 8 * |a| && !(w <= i < w + 16) :: StreamBit(a, i) == StreamBit(b, i)
  }

  lemma DifferenceCoef(a: seq<bv8>, b: seq<bv8>, k: nat)
    requires |a| == |b|
    ensures Coef(Add(Message(a), Message(b)), k)
        <==> k < 8 * |a| && StreamBit(a, 8 * |a| - 1 - k) != StreamBit(b, 8 * |a| - 1 - k)
  {
    CoefAdd(Message(a), Message(b), k);
    if k < 8 * |a| {
      MessageCoef(a, k);
      MessageCoef(b, k);
    } else {
      MessageHighCoef(a, k);
      MessageHighCoef(b, k);
    }
  }

  /** A burst is a polynomial of degree below 16 times a power of x. */
  lemma {:induction false} BurstPolynomial(a: seq<bv8>, b: seq<bv8>, w: nat) returns (d: nat, n: nat)
    requires |a| == |b| && DifferOnlyWithin(a, b, w)
    ensures d < Pow2(16) && Add(Message(a), Message(b)) == Shl(d, n)
  {
    var e := Add(Message(a), Message(b));
    var last := 8 * |a| - 1;
    n := if last - 15 - w > 0 then last - 15 - w else 0;
    forall k: nat | k < n || k >= n + 16 ensures !Coef(e, k) {
      DifferenceCoef(a, b, k);
    }
    d := LowCoefs(e, n);
    forall k: nat | k >= 16 ensures !Coef(d, k) {
      assert !Coef(e, n + k);
    }
    HighCoefs(d, 16);
  }

  /** Different messages of one length that differ only inside one window of 16
      consecutive bits have different check sums, at every length and position. */
  lemma BurstsAreDetected(preset: nat, a: seq<bv8>, b: seq<bv8>, w: nat)
    requires preset < Pow2(16) && |a| == |b| && a != b && DifferOnlyWithin(a, b, w)
    ensures Run(preset, a) != Run(preset, b)
  {
    if Run(preset, a) == Run(preset, b) {
      CollisionIffMultiple(preset, a, b);
      var d, n := BurstPolynomial(a, b, w);
      DividesShl(GENERATOR, d, n);
      var q: nat :| Mul(q, GENERATOR) == d;
      GeneratorDegree();
      if q > 0 { MulHigh(q, GENERATOR, 16); }
      ShlZero(n);
      AddNil(Message(a), Message(b));
      MessageInjective(a, b);
    }
  }

  // ---- odd errors ----------------------------------------------------------

  /** How many bits of the two streams differ, from bit i on. */
  function FlippedFrom(a: seq<bv8>, b: seq<bv8>, i: nat): nat
    requires |a| == |b| && i <= 8 * |a|
    decreases 8 * |a| - i
  {
    if i == 8 * |a| then 0
    else FlippedFrom(a, b, i + 1) + Bit(StreamBit(a, i) != StreamBit(b, i))
  }

  function Flipped(a: seq<bv8>, b: seq<bv8>): nat
    requires |a| == |b|
  {
    FlippedFrom(a, b, 0)
  }

  /** Where the streams differ. */
  function Flags(a: seq<bv8>, b: seq<bv8>): (f: seq<bool>)
    requires |a| == |b|
    ensures |f| == 8 * |a| && forall i :: 0 <= i < |f| ==> f[i] == (StreamBit(a, i) != StreamBit(b, i))
  {
    seq(8 * |a|, i requires 0 <= i < 8 * |a| => StreamBit(a, i) != StreamBit(b, i))
  }

  function Trues(f: seq<bool>, i: nat): nat
    requires i <= |f|
    decreases |f| - i
  {
    if i == |f| then 0 else Trues(f, i + 1) + Bit(f[i])
  }

  lemma {:induction false} FlippedIsTrues(a: seq<bv8>, b: seq<bv8>, i: nat)
    requires |a| == |b| && i <= 8 * |a|
    ensures FlippedFrom(a, b, i) == Trues(Flags(a, b), i)
    decreases 8 * |a| - i
  {
    if i < 8 * |a| { FlippedIsTrues(a, b, i + 1); }
  }

  lemma {:induction false} TruesIsWeight(f: seq<bool>, e: nat, m: nat)
    requires m <= |f| && forall k: nat | k < |f| :: Coef(e, k) <==> f[|f| - 1 - k]
    ensures Trues(f, |f| - m) == Weight(e, m)
  {
    if m > 0 {
      TruesIsWeight(f, e, m - 1);
      assert Coef(e, m - 1) <==> f[|f| - m];
    }
  }

  lemma FlippedWeight(a: seq<bv8>, b: seq<bv8>, m: nat)
    requires |a| == |b| && m <= 8 * |a|
    ensures FlippedFrom(a, b, 8 * |a| - m) == Weight(Add(Message(a), Message(b)), m)
  {
    var f, e := Flags(a, b), Add(Message(a), Message(b));
    forall k: nat | k < |f| ensures Coef(e, k) <==> f[|f| - 1 - k] { DifferenceCoef(a, b, k); }
    TruesIsWeight(f, e, m);
    FlippedIsTrues(a, b, 8 * |a| - m);
  }

  lemma StreamConcat(a: seq<bv8>, b: seq<bv8>, i: nat)
    requires i < 8 * |a + b|
    ensures StreamBit(a + b, i) == if i < 8 * |a| then StreamBit(a, i) else StreamBit(b, i - 8 * |a|)
  {
    if i >= 8 * |a| {
      assert i / 8 == |a| + (i - 8 * |a|) / 8 && i % 8 == (i - 8 * |a|) % 8;
    }
  }

  lemma FlagsConcat(a: seq<bv8>, b: seq<bv8>, c: seq<bv8>, d: seq<bv8>)
    requires |a| == |b| && |c| == |d|
    ensures Flags(a + c, b + d) == Flags(a, b) + Flags(c, d)
  {
    var f, g := Flags(a + c, b + d), Flags(a, b) + Flags(c, d);
    forall i: nat | i < |f| ensures f[i] == g[i] {
      StreamConcat(a, c, i);
      StreamConcat(b, d, i);
    }
  }

  lemma {:induction false} TruesBehind(f: seq<bool>, g: seq<bool>, i: nat)
    requires i <= |g|
    ensures Trues(f + g, |f| + i) == Trues(g, i)
    decreases |g| - i
  {
    if i < |g| { TruesBehind(f, g, i + 1); }
  }

  lemma {:induction false} TruesConcat(f: seq<bool>, g: seq<bool>, i: nat)
    requires i <= |f|
    ensures Trues(f + g, i) == Trues(f, i) + Trues(g, 0)
    decreases |f| - i
  {
    if i == |f| { TruesBehind(f, g, 0); } else { TruesConcat(f, g, i + 1); }
  }

  /** Flipped bits add up over the parts of a message. */
  lemma FlippedConcat(a: seq<bv8>, b: seq<bv8>, c: seq<bv8>, d: seq<bv8>)
    requires |a| == |b| && |c| == |d|
    ensures Flipped(a + c, b + d) == Flipped(a, b) + Flipped(c, d)
  {
    FlippedIsTrues(a + c, b + d, 0);
    FlippedIsTrues(a, b, 0);
    FlippedIsTrues(c, d, 0);
    FlagsConcat(a, b, c, d);
    TruesConcat(Flags(a, b), Flags(c, d), 0);
  }

  lemma GeneratorEven()
    ensures !OddWeight(GENERATOR)
  {
    assert OddWeight(0x4);
    assert !OddWeight(0x11);
    assert !OddWeight(0x44);
    assert !OddWeight(0x110);
    assert OddWeight(0x881);
    assert OddWeight(0x2204);
  }

  /** Any odd number of flipped bits, anywhere in the message, changes the check sum. */
  lemma OddFlipsAreDetected(preset: nat, a: seq<bv8>, b: seq<bv8>)
    requires preset < Pow2(16) && |a| == |b| && Flipped(a, b) % 2 == 1
    ensures Run(preset, a) != Run(preset, b)
  {
    var e := Add(Message(a), Message(b));
    FlippedWeight(a, b, 8 * |a|);
    MessageBound(a);
    MessageBound(b);
    AddBound(Message(a), Message(b), 8 * |a|);
    OddWeightCount(e, 8 * |a|);
    if Run(preset, a) == Run(preset, b) {
      CollisionIffMultiple(preset, a, b);
      var q: nat :| Mul(q, GENERATOR) == e;
      GeneratorEven();
      OddWeightMul(q, GENERATOR);
    }
  }

  // ---- composition and linearity -------------------------------------------

  /** The check sum of a concatenation is the second part's run started from the
      first part's register. */
  lemma {:induction false} RunConcat(preset: nat, a: seq<bv8>, b: seq<bv8>)
    ensures Run(preset, a + b) == Run(Run(preset, a), b)
    decreases |b|
  {
    if b == [] {
      assert a + b == a;
    } else {
      RunConcat(preset, a, b[..|b| - 1]);
      assert (a + b)[..|a + b| - 1] == a + b[..|b| - 1];
    }
  }

  function XorBytes(a: seq<bv8>, b: seq<bv8>): (c: seq<bv8>)
    requires |a| == |b|
    ensures |c| == |a|
  {
    if a == [] then []
    else XorBytes(a[..|a| - 1], b[..|b| - 1]) + [a[|a| - 1] ^ b[|b| - 1]]
  }

  function Zeros(n: nat): (z: seq<bv8>)
    ensures |z| == n
  {
    if n == 0 then [] else Zeros(n - 1) + [0]
  }

  lemma ByteWidenXor(x: bv8, y: bv8)
    ensures (x ^ y) as bv16 == (x as bv16) ^ (y as bv16)
  {
  }

  lemma ByteValueXor(x: bv8, y: bv8)
    ensures ByteValue(x ^ y) == Add(ByteValue(x), ByteValue(y))
  {
    ByteWidenXor(x, y);
    ValueXor(x as bv16, y as bv16);
  }

  lemma MessageSnoc(data: seq<bv8>, byte: bv8)
    ensures Message(data + [byte]) == Add(Shl(Message(data), 8), ByteValue(byte))
  {
    assert (data + [byte])[..|data + [byte]| - 1] == data;
  }

  lemma {:induction false} MessageXor(a: seq<bv8>, b: seq<bv8>)
    requires |a| == |b|
    ensures Message(XorBytes(a, b)) == Add(Message(a), Message(b))
  {
    if a == [] {
      AddZero(0);
    } else {
      var n := |a| - 1;
      MessageXor(a[..n], b[..n]);
      ByteValueXor(a[n], b[n]);
      MessageSnoc(XorBytes(a[..n], b[..n]), a[n] ^ b[n]);
      ShlAdd(Message(a[..n]), Message(b[..n]), 8);
      AddSwap(Shl(Message(a[..n]), 8), Shl(Message(b[..n]), 8), ByteValue(a[n]), ByteValue(b[n]));
    }
  }

  lemma DividendXor(v: nat, w: nat, a: seq<bv8>, b: seq<bv8>)
    requires |a| == |b|
    ensures Dividend(Add(v, w), XorBytes(a, b)) == Add(Dividend(v, a), Dividend(w, b))
  {
    var n := 8 * |a|;
    MessageXor(a, b);
    ShlAdd(Message(a), Message(b), 16);
    ShlAdd(v, w, n);
    AddSwap(Shl(Message(a), 16), Shl(Message(b), 16), Shl(v, n), Shl(w, n));
  }

  lemma SumsCongruent(p: nat, u: nat, q: nat, v: nat)
    requires Congruent(GENERATOR, p, u) && Congruent(GENERATOR, q, v)
    ensures Congruent(GENERATOR, Add(p, q), Add(u, v))
  {
    CongruentAdd(GENERATOR, p, u, q);
    CongruentAdd(GENERATOR, q, v, u);
    AddComm(u, q);
    AddComm(u, v);
    CongruentTrans(GENERATOR, Add(p, q), Add(u, q), Add(u, v));
  }

  /** The register is linear in the preset and the message together. */
  lemma RunXor(v: nat, w: nat, a: seq<bv8>, b: seq<bv8>)
    requires v < Pow2(16) && w < Pow2(16) && |a| == |b|
    ensures Run(Add(v, w), XorBytes(a, b)) == Add(Run(v, a), Run(w, b))
  {
    AddBound(v, w, 16);
    RunCongruent(v, a);
    RunCongruent(w, b);
    RunCongruent(Add(v, w), XorBytes(a, b));
    DividendXor(v, w, a, b);
    SumsCongruent(Dividend(v, a), Run(v, a), Dividend(w, b), Run(w, b));
    AddBound(Run(v, a), Run(w, b), 16);
    RemaindersAgree(Dividend(Add(v, w), XorBytes(a, b)), Run(Add(v, w), XorBytes(a, b)), Add(Run(v, a), Run(w, b)));
  }

  lemma {:induction false} XorBytesZeros(a: seq<bv8>)
    ensures XorBytes(a, Zeros(|a|)) == a
  {
    if a != [] {
      var n := |a| - 1;
      XorBytesZeros(a[..n]);
      assert Zeros(|a|)[..n] == Zeros(n);
      ByteXorZero(a[n]);
    }
  }

  lemma ByteXorZero(x: bv8)
    ensures x ^ 0 == x
  {
  }

  /** crc(a xor b) = crc(a) xor crc(b) xor crc(zeros). */
  lemma {:induction false} CrcAffine(preset: nat, a: seq<bv8>, b: seq<bv8>)
    requires preset < Pow2(16) && |a| == |b|
    ensures Run(preset, XorBytes(a, b)) == Add(Add(Run(preset, a), Run(preset, b)), Run(preset, Zeros(|a|)))
  {
    var c := XorBytes(a, b);
    RunXor(preset, preset, a, b);
    AddSelf(preset);
    XorBytesZeros(c);
    Pow2Positive(16);
    RunXor(0, preset, c, Zeros(|c|));
    AddZero(preset);
  }

  // ---- appending the check sum ---------------------------------------------

  lemma {:induction false} DividendPair(preset: nat, data: seq<bv8>, hi: bv8, lo: bv8)
    ensures Dividend(preset, data + [hi, lo])
         == Shl(Add(Dividend(preset, data), Add(Shl(ByteValue(hi), 8), ByteValue(lo))), 16)
  {
    var d, h, l := Dividend(preset, data), ByteValue(hi), ByteValue(lo);
    var one, two := data + [hi], data + [hi, lo];
    var e := Add(d, Shl(h, 8));
    assert one[..|one| - 1] == data && two[..|two| - 1] == one;
    assert Dividend(preset, one) == Shl(e, 8) by {
      DividendSnoc(preset, one);
      ShlShl(h, 8, 8);
      ShlAdd(d, Shl(h, 8), 8);
    }
    assert Dividend(preset, two) == Shl(Add(e, l), 16) by {
      DividendSnoc(preset, two);
      ShlShl(e, 8, 8);
      ShlAdd(e, l, 16);
    }
    AddAssoc(d, Shl(h, 8), l);
  }

  /** A message followed by two bytes runs to zero exactly when they are its check
      sum, high byte first. */
  lemma ResidueIsZero(preset: nat, data: seq<bv8>, hi: bv8, lo: bv8)
    requires preset < Pow2(16)
    ensures Run(preset, data + [hi, lo]) == 0
        <==> Run(preset, data) == 0x100 * ByteValue(hi) + ByteValue(lo)
  {
    var g, d, v, z := GENERATOR, Dividend(preset, data), Run(preset, data), Run(preset, data + [hi, lo]);
    var t := Add(Shl(ByteValue(hi), 8), ByteValue(lo));
    assert t == 0x100 * ByteValue(hi) + ByteValue(lo) < Pow2(16) by {
      ByteBound(hi);
      ByteBound(lo);
      Pow2Values();
      AddDisjoint(ByteValue(hi), ByteValue(lo), 8);
      ShlEight(ByteValue(hi));
    }
    RunCongruent(preset, data);
    RunCongruent(preset, data + [hi, lo]);
    DividendPair(preset, data, hi, lo);
    AddZero(Shl(Add(d, t), 16));
    Pow2Positive(16);
    if z == 0 {
      DividesShl(g, Add(d, t), 16);
      RemaindersAgree(d, v, t);
    }
    if v == t {
      var q: nat :| Mul(q, g) == Add(d, t);
      MulShl(q, g, 16);
      assert Congruent(g, Shl(Add(d, t), 16), 0);
      RemaindersAgree(Shl(Add(d, t), 16), z, 0);
    }
  }
}
