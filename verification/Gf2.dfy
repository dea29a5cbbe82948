/** Polynomials over GF(2), written as natural numbers: bit k is the coefficient
    of x^k.  Every polynomial has exactly one such number, so equality of
    polynomials is equality of numbers. */
module Gf2 {

  /** Addition without carries: the exclusive or of the coefficients. */
  function Add(a: nat, b: nat): nat
    decreases a + b
  {
    if a == 0 && b == 0 then 0 else 2 * Add(a / 2, b / 2) + AddBit(a % 2, b % 2)
  }

  /** The sum of two coefficients. */
  function AddBit(x: nat, y: nat): nat {
    if x == y then 0 else 1
  }

  /** The product of g with one coefficient. */
  function Digit(x: nat, g: nat): nat {
    if x == 1 then g else 0
  }

  /** The schoolbook product, one coefficient of q at a time. */
  function Mul(q: nat, g: nat): nat {
    if q == 0 then 0 else Add(Digit(q % 2, g), 2 * Mul(q / 2, g))
  }

  /** p times x^k. */
  function Shl(p: nat, k: nat): nat {
    if k == 0 then p else 2 * Shl(p, k - 1)
  }

  /** x^k as a number; p < Pow2(k) says that p has degree below k. */
  function Pow2(k: nat): nat {
    Shl(1, k)
  }

  ghost predicate Divides(g: nat, p: nat) {
    exists q: nat :: Mul(q, g) == p
  }

  ghost predicate Congruent(g: nat, a: nat, b: nat) {
    Divides(g, Add(a, b))
  }

  // ---- addition -----------------------------------------------------------

  lemma AddBits(a: nat, x: nat, b: nat, y: nat)
    requires x < 2 && y < 2
    ensures Add(2 * a + x, 2 * b + y) == 2 * Add(a, b) + AddBit(x, y)
  {
    if 2 * a + x == 0 && 2 * b + y == 0 {
      assert Add(a, b) == 0;
    } else {
      assert (2 * a + x) / 2 == a && (2 * b + y) / 2 == b;
      assert (2 * a + x) % 2 == x && (2 * b + y) % 2 == y;
    }
  }

  lemma {:induction false} AddZero(a: nat)
    ensures Add(a, 0) == a && Add(0, a) == a
  {
    if a > 0 { AddZero(a / 2); }
  }

  lemma {:induction false} AddComm(a: nat, b: nat)
    ensures Add(a, b) == Add(b, a)
    decreases a + b
  {
    if a + b > 0 { AddComm(a / 2, b / 2); }
  }

  lemma AddBitsLeft(a: nat, x: nat, b: nat, y: nat, c: nat, z: nat)
    requires x < 2 && y < 2 && z < 2
    ensures Add(Add(2 * a + x, 2 * b + y), 2 * c + z) == 2 * Add(Add(a, b), c) + AddBit(AddBit(x, y), z)
  {
    AddBits(a, x, b, y);
    AddBits(Add(a, b), AddBit(x, y), c, z);
  }

  lemma AddBitsRight(a: nat, x: nat, b: nat, y: nat, c: nat, z: nat)
    requires x < 2 && y < 2 && z < 2
    ensures Add(2 * a + x, Add(2 * b + y, 2 * c + z)) == 2 * Add(a, Add(b, c)) + AddBit(x, AddBit(y, z))
  {
    AddBits(b, y, c, z);
    AddBits(a, x, Add(b, c), AddBit(y, z));
  }

  lemma {:induction false} AddAssoc(a: nat, b: nat, c: nat)
    ensures Add(Add(a, b), c) == Add(a, Add(b, c))
    decreases a + b + c
  {
    if a + b + c == 0 {
    } else {
      var a', b', c', x, y, z := a / 2, b / 2, c / 2, a % 2, b % 2, c % 2;
      AddAssoc(a', b', c');
      assert Add(Add(a, b), c) == 2 * Add(Add(a', b'), c') + AddBit(AddBit(x, y), z) by {
        AddBitsLeft(a', x, b', y, c', z);
      }
      assert Add(a, Add(b, c)) == 2 * Add(a', Add(b', c')) + AddBit(x, AddBit(y, z)) by {
        AddBitsRight(a', x, b', y, c', z);
      }
    }
  }

  lemma {:induction false} AddSelf(a: nat)
    ensures Add(a, a) == 0
  {
    if a > 0 { AddSelf(a / 2); }
  }

  lemma {:induction false} AddNil(a: nat, b: nat)
    requires Add(a, b) == 0
    ensures a == b
    decreases a + b
  {
    if a + b > 0 { AddNil(a / 2, b / 2); }
  }

  /** (a + b) + (b + c) = a + c. */
  lemma AddTelescope(a: nat, b: nat, c: nat)
    ensures Add(Add(a, b), Add(b, c)) == Add(a, c)
  {
    AddAssoc(a, b, Add(b, c));
    AddAssoc(b, b, c);
    AddSelf(b);
    AddZero(c);
  }

  /** (a + b) + (c + d) = (a + c) + (b + d). */
  lemma AddSwap(a: nat, b: nat, c: nat, d: nat)
    ensures Add(Add(a, b), Add(c, d)) == Add(Add(a, c), Add(b, d))
  {
    AddAssoc(a, b, Add(c, d));
    AddAssoc(b, c, d);
    AddComm(b, c);
    AddAssoc(c, b, d);
    AddAssoc(a, c, Add(b, d));
  }

  lemma {:induction false} AddBound(a: nat, b: nat, k: nat)
    requires a < Pow2(k) && b < Pow2(k)
    ensures Add(a, b) < Pow2(k)
    decreases k
  {
    if k > 0 && a + b > 0 { AddBound(a / 2, b / 2, k - 1); }
  }

  /** A sum with one term of degree k or more and one below keeps the high degree. */
  lemma {:induction false} AddHigh(a: nat, b: nat, k: nat)
    requires a < Pow2(k) <= b
    ensures Pow2(k) <= Add(a, b)
    decreases k
  {
    if k > 0 { AddHigh(a / 2, b / 2, k - 1); }
    else { AddZero(b); }
  }

  // ---- multiplication -----------------------------------------------------

  lemma MulDouble(q: nat, g: nat)
    ensures Mul(2 * q, g) == 2 * Mul(q, g)
  {
    MulUnfold(q, 0, g);
    AddZero(2 * Mul(q, g));
  }

  lemma {:induction false} MulAdd(p: nat, q: nat, g: nat)
    ensures Mul(Add(p, q), g) == Add(Mul(p, g), Mul(q, g))
    decreases p + q
  {
    if p + q == 0 {
      assert Add(0, 0) == 0;
    } else {
      var p', x, q', y := p / 2, p % 2, q / 2, q % 2;
      assert p == 2 * p' + x && q == 2 * q' + y;
      MulAdd(p', q', g);
      assert Mul(Add(2 * p' + x, 2 * q' + y), g) == Add(Mul(2 * p' + x, g), Mul(2 * q' + y, g)) by {
        MulAddDigit(p', x, q', y, g);
      }
    }
  }

  lemma MulAddDigit(p: nat, x: nat, q: nat, y: nat, g: nat)
    requires x < 2 && y < 2
    requires Mul(Add(p, q), g) == Add(Mul(p, g), Mul(q, g))
    ensures Mul(Add(2 * p + x, 2 * q + y), g) == Add(Mul(2 * p + x, g), Mul(2 * q + y, g))
  {
    var s, z := Add(p, q), AddBit(x, y);
    assert Add(2 * p + x, 2 * q + y) == 2 * s + z by { AddBits(p, x, q, y); }
    MulUnfold(s, z, g);
    MulUnfold(p, x, g);
    MulUnfold(q, y, g);
    DigitAdd(x, y, g);
    AddPairs(Digit(x, g), Mul(p, g), Digit(y, g), Mul(q, g));
  }

  lemma DigitAdd(x: nat, y: nat, g: nat)
    requires x < 2 && y < 2
    ensures Add(Digit(x, g), Digit(y, g)) == Digit(AddBit(x, y), g)
  {
    AddSelf(g);
    AddZero(g);
    AddZero(0);
  }

  lemma AddPairs(gx: nat, u: nat, gy: nat, v: nat)
    ensures Add(Add(gx, 2 * u), Add(gy, 2 * v)) == Add(Add(gx, gy), 2 * Add(u, v))
  {
    AddSwap(gx, 2 * u, gy, 2 * v);
    AddBits(u, 0, v, 0);
  }

  lemma MulUnfold(q: nat, x: nat, g: nat)
    requires x < 2
    ensures Mul(2 * q + x, g) == Add(Digit(x, g), 2 * Mul(q, g))
  {
    if 2 * q + x == 0 { AddZero(0); }
    else { assert (2 * q + x) / 2 == q && (2 * q + x) % 2 == x; }
  }

  lemma {:induction false} MulShl(q: nat, g: nat, k: nat)
    ensures Mul(Shl(q, k), g) == Shl(Mul(q, g), k)
    decreases k
  {
    if k > 0 {
      MulShl(q, g, k - 1);
      MulDouble(Shl(q, k - 1), g);
    }
  }

  /** A nonzero multiple of a polynomial of degree k has degree at least k. */
  lemma {:induction false} MulHigh(q: nat, g: nat, k: nat)
    requires q > 0 && Pow2(k) <= g < Pow2(k + 1)
    ensures Pow2(k) <= Mul(q, g)
    decreases q
  {
    if q == 1 {
      AddZero(g);
    } else {
      MulHigh(q / 2, g, k);
      if q % 2 == 1 { AddHigh(g, 2 * Mul(q / 2, g), k + 1); }
      else { AddZero(2 * Mul(q / 2, g)); }
    }
  }

  lemma {:induction false} ShlAdd(a: nat, b: nat, k: nat)
    ensures Shl(Add(a, b), k) == Add(Shl(a, k), Shl(b, k))
    decreases k
  {
    if k > 0 {
      ShlAdd(a, b, k - 1);
      AddBits(Shl(a, k - 1), 0, Shl(b, k - 1), 0);
    }
  }

  lemma {:induction false} ShlShl(p: nat, j: nat, k: nat)
    ensures Shl(Shl(p, j), k) == Shl(p, j + k)
    decreases k
  {
    if k > 0 { ShlShl(p, j, k - 1); }
  }

  lemma {:induction false} ShlZero(k: nat)
    ensures Shl(0, k) == 0
  {
    if k > 0 { ShlZero(k - 1); }
  }

  lemma ShlNext(p: nat, k: nat)
    ensures Shl(p, 0) == p && Shl(p, k + 1) == 2 * Shl(p, k)
  {
  }

  lemma ShlFour(p: nat)
    ensures Shl(p, 4) == 16 * p
  {
    ShlNext(p, 0);
    ShlNext(p, 1);
    ShlNext(p, 2);
    ShlNext(p, 3);
  }

  lemma ShlEight(p: nat)
    ensures Shl(p, 8) == 256 * p
  {
    ShlFour(p);
    ShlFour(16 * p);
    ShlShl(p, 4, 4);
  }

  lemma Pow2Values()
    ensures Pow2(8) == 0x100 && Pow2(16) == 0x1_0000 && Pow2(17) == 0x2_0000
  {
    ShlFour(1);
    ShlFour(16);
    ShlFour(256);
    ShlFour(4096);
    ShlShl(1, 4, 4);
    ShlShl(1, 8, 4);
    ShlShl(1, 12, 4);
    ShlNext(1, 16);
  }

  // ---- division -----------------------------------------------------------

  /** An odd polynomial (constant term 1) divides x*p only if it divides p. */
  lemma {:induction false} DividesShl(g: nat, p: nat, k: nat)
    requires g % 2 == 1 && Divides(g, Shl(p, k))
    ensures Divides(g, p)
    decreases k
  {
    if k > 0 {
      var q: nat :| Mul(q, g) == Shl(p, k);
      MulUnfold(q / 2, q % 2, g);
      assert q % 2 == 0;
      AddZero(2 * Mul(q / 2, g));
      assert Mul(q / 2, g) == Shl(p, k - 1);
      DividesShl(g, p, k - 1);
    }
  }

  /** Two remainders of degree below that of g are congruent only when equal. */
  lemma CongruentSmall(g: nat, k: nat, r: nat, s: nat)
    requires Pow2(k) <= g < Pow2(k + 1)
    requires r < Pow2(k) && s < Pow2(k) && Congruent(g, r, s)
    ensures r == s
  {
    var q: nat :| Mul(q, g) == Add(r, s);
    AddBound(r, s, k);
    if q > 0 { MulHigh(q, g, k); }
    AddNil(r, s);
  }

  lemma CongruentRefl(g: nat, a: nat)
    ensures Congruent(g, a, a)
  {
    AddSelf(a);
    assert Mul(0, g) == Add(a, a);
  }

  lemma CongruentTrans(g: nat, a: nat, b: nat, c: nat)
    requires Congruent(g, a, b) && Congruent(g, b, c)
    ensures Congruent(g, a, c)
  {
    var p: nat :| Mul(p, g) == Add(a, b);
    var q: nat :| Mul(q, g) == Add(b, c);
    MulAdd(p, q, g);
    AddTelescope(a, b, c);
    assert Mul(Add(p, q), g) == Add(a, c);
  }

  lemma CongruentSym(g: nat, a: nat, b: nat)
    requires Congruent(g, a, b)
    ensures Congruent(g, b, a)
  {
    AddComm(a, b);
  }

  /** Adding the same polynomial to both sides. */
  lemma CongruentAdd(g: nat, a: nat, b: nat, c: nat)
    requires Congruent(g, a, b)
    ensures Congruent(g, Add(a, c), Add(b, c))
  {
    AddSwap(a, c, b, c);
    AddSelf(c);
    AddZero(Add(a, b));
  }

  lemma CongruentShl(g: nat, a: nat, b: nat, k: nat)
    requires Congruent(g, a, b)
    ensures Congruent(g, Shl(a, k), Shl(b, k))
  {
    var q: nat :| Mul(q, g) == Add(a, b);
    MulShl(q, g, k);
    ShlAdd(a, b, k);
    assert Mul(Shl(q, k), g) == Add(Shl(a, k), Shl(b, k));
  }

  // ---- parity -------------------------------------------------------------

  /** Whether p has an odd number of terms. */
  predicate OddWeight(p: nat) {
    p != 0 && (p % 2 == 1) != OddWeight(p / 2)
  }

  lemma {:induction false} OddWeightAdd(a: nat, b: nat)
    ensures OddWeight(Add(a, b)) == (OddWeight(a) != OddWeight(b))
    decreases a + b
  {
    if a + b > 0 {
      OddWeightAdd(a / 2, b / 2);
      AddBits(a / 2, a % 2, b / 2, b % 2);
    }
  }

  /** Every multiple of a polynomial with an even number of terms has an even number. */
  lemma {:induction false} OddWeightMul(q: nat, g: nat)
    requires !OddWeight(g)
    ensures !OddWeight(Mul(q, g))
  {
    if q > 0 {
      OddWeightMul(q / 2, g);
      OddWeightAdd(Digit(q % 2, g), 2 * Mul(q / 2, g));
    }
  }

  // ---- coefficients -------------------------------------------------------

  /** The coefficient of x^k. */
  predicate Coef(p: nat, k: nat) {
    if k == 0 then p % 2 == 1 else Coef(p / 2, k - 1)
  }

  lemma {:induction false} CoefAdd(a: nat, b: nat, k: nat)
    ensures Coef(Add(a, b), k) == (Coef(a, k) != Coef(b, k))
    decreases k
  {
    AddBits(a / 2, a % 2, b / 2, b % 2);
    if k > 0 { CoefAdd(a / 2, b / 2, k - 1); }
  }

  /** With its n lowest coefficients zero, p is some polynomial times x^n. */
  lemma {:induction false} LowCoefs(p: nat, n: nat) returns (d: nat)
    requires forall k: nat | k < n :: !Coef(p, k)
    ensures p == Shl(d, n)
    ensures forall k: nat :: Coef(d, k) == Coef(p, n + k)
    decreases n
  {
    if n == 0 { return p; }
    assert !Coef(p, 0);
    forall k: nat | k < n - 1 ensures !Coef(p / 2, k) {
      assert !Coef(p, k + 1);
    }
    d := LowCoefs(p / 2, n - 1);
  }

  /** With every coefficient from n on zero, p has degree below n. */
  lemma {:induction false} HighCoefs(p: nat, n: nat)
    requires forall k: nat | k >= n :: !Coef(p, k)
    ensures p < Pow2(n)
    decreases p
  {
    if p > 0 {
      var m := if n == 0 then 0 else n - 1;
      if n == 0 { assert !Coef(p, 0); }
      forall k: nat | k >= m ensures !Coef(p / 2, k) {
        assert !Coef(p, k + 1);
      }
      HighCoefs(p / 2, m);
    } else {
      Pow2Positive(n);
    }
  }

  lemma {:induction false} CoefBound(p: nat, n: nat, k: nat)
    requires p < Pow2(n) && n <= k
    ensures !Coef(p, k)
    decreases n
  {
    if n == 0 { CoefZero(k); } else { CoefBound(p / 2, n - 1, k - 1); }
  }

  lemma {:induction false} CoefZero(k: nat)
    ensures !Coef(0, k)
  {
    if k > 0 { CoefZero(k - 1); }
  }

  lemma {:induction false} Pow2Positive(n: nat)
    ensures Pow2(n) > 0
  {
    if n > 0 { Pow2Positive(n - 1); }
  }

  /** Addition does not mix a high block with a low block of k coefficients. */
  lemma {:induction false} AddBlock(a: nat, x: nat, b: nat, y: nat, k: nat)
    requires x < Pow2(k) && y < Pow2(k)
    ensures Add(Shl(a, k) + x, Shl(b, k) + y) == Shl(Add(a, b), k) + Add(x, y)
    decreases k
  {
    if k == 0 {
      AddZero(0);
    } else {
      var x', i, y', j := x / 2, x % 2, y / 2, y % 2;
      var p, q := Shl(a, k - 1) + x', Shl(b, k - 1) + y';
      assert Shl(a, k) + x == 2 * p + i && Shl(b, k) + y == 2 * q + j;
      assert x' < Pow2(k - 1) && y' < Pow2(k - 1);
      var s := Shl(Add(a, b), k - 1);
      assert Shl(Add(a, b), k) == 2 * s;
      assert Add(p, q) == s + Add(x', y') by { AddBlock(a, x', b, y', k - 1); }
      assert Add(2 * p + i, 2 * q + j) == 2 * Add(p, q) + AddBit(i, j) by { AddBits(p, i, q, j); }
      assert Add(x, y) == 2 * Add(x', y') + AddBit(i, j) by { AddBits(x', i, y', j); }
    }
  }

  /** A shifted polynomial plus one of lower degree: no coefficients meet. */
  lemma AddDisjoint(a: nat, y: nat, k: nat)
    requires y < Pow2(k)
    ensures Add(Shl(a, k), y) == Shl(a, k) + y
  {
    Pow2Positive(k);
    AddBlock(a, 0, 0, y, k);
    ShlZero(k);
    AddZero(a);
    AddZero(y);
  }

  lemma {:induction false} CoefShl(p: nat, n: nat, k: nat)
    ensures Coef(Shl(p, n), k) == (k >= n && Coef(p, k - n))
    decreases n
  {
    if n > 0 && k > 0 { CoefShl(p, n - 1, k - 1); }
  }

  /** How many of the n lowest coefficients are one. */
  function Weight(p: nat, n: nat): nat {
    if n == 0 then 0 else Weight(p, n - 1) + if Coef(p, n - 1) then 1 else 0
  }

  lemma {:induction false} WeightHalf(p: nat, n: nat)
    ensures Weight(p, n + 1) == Weight(p / 2, n) + p % 2
  {
    if n > 0 { WeightHalf(p, n - 1); }
  }

  lemma {:induction false} OddWeightCount(p: nat, n: nat)
    requires p < Pow2(n)
    ensures OddWeight(p) == (Weight(p, n) % 2 == 1)
  {
    if n > 0 {
      OddWeightCount(p / 2, n - 1);
      WeightHalf(p, n - 1);
    }
  }
}
