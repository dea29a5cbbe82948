/** What the register operations of XdmacModel do to single bits. Coef(w, k) is bit k of the
    word w. */
module XdmacBits {
  import opened Gf2
  import opened UInt
  import opened XdmacModel

  lemma Remainder(q: nat, n: nat, r: nat)
    requires r < n
    ensures (q * n + r) % n == r && (q * n + r) / n == q
  {
    var x := q * n + r;
    var d := q - x / n;
    assert d * n == x % n - r;
    NoSmallMultiple(d, n);
  }

  lemma NoSmallMultiple(d: int, n: int)
    requires n > 0
    ensures -n < d * n < n ==> d == 0
  {
    Grows(d, n);
    Grows(-d, n);
    assert (-d) * n == -(d * n);
  }

  lemma Grows(d: int, n: int)
    requires n > 0
    ensures d >= 1 ==> d * n >= n
  {
  }

  /** A word, its half and its parts above and below twice n. */
  lemma Halves(w: nat, n: nat)
    requires n > 0
    ensures w / 2 == (w / (2 * n)) * n + (w % (2 * n)) / 2 && w % 2 == (w % (2 * n)) % 2
    ensures (w % (2 * n)) / 2 < n
  {
    var q, r := w / (2 * n), w % (2 * n);
    var m := q * n;
    assert q * (2 * n) == 2 * m;
    assert w == 2 * m + r;
  }

  lemma HalfOfRemainder(w: nat, n: nat)
    requires n > 0
    ensures (w % (2 * n)) / 2 == (w / 2) % n && (w % (2 * n)) % 2 == w % 2
    ensures w / 2 / n == w / (2 * n)
  {
    Halves(w, n);
    Remainder(w / (2 * n), n, (w % (2 * n)) / 2);
  }

  /** Cutting a word to n bits keeps exactly the low n bits. */
  lemma {:induction false} LowBits(w: nat, n: nat, k: nat)
    ensures Pow2(n) > 0 && Coef(w % Pow2(n), k) == (k < n && Coef(w, k))
    decreases n
  {
    Pow2Positive(n);
    if n == 0 {
      CoefZero(k);
    } else {
      Pow2Positive(n - 1);
      HalfOfRemainder(w, Pow2(n - 1));
      if k > 0 { LowBits(w / 2, n - 1, k - 1); }
    }
  }

  lemma Widths()
    ensures Pow2(8) == 0x100 && Pow2(12) == 0x1000 && Pow2(16) == 0x1_0000 && Pow2(24) == 0x100_0000
  {
    Pow2Values();
    ShlShl(1, 8, 4);
    ShlFour(Pow2(8));
    ShlShl(1, 16, 8);
    ShlEight(Pow2(16));
  }

  // ---- length, stride and control registers -----------------------------------------------

  /** The microblock length register takes 24 bits. */
  lemma MicroblockBits(r: Regs, c: nat, ublen: uint32, k: nat)
    requires c < |r.ch|
    ensures Coef(SetMicroblockControl(r, c, ublen).ch[c].cubc, k) == (k < 24 && Coef(ublen, k))
  {
    Widths();
    LowBits(ublen, 24, k);
  }

  /** The block length register takes 12 bits of a half word. */
  lemma BlockBits(r: Regs, c: nat, blen: uint32, k: nat)
    requires c < |r.ch|
    ensures Coef(SetBlockControl(r, c, blen).ch[c].cbc, k) == (k < 12 && Coef(blen, k))
  {
    Widths();
    LowBits(blen, 16, k);
    LowBits(blen % 0x1_0000, 12, k);
  }

  /** The stride registers take 24 bits. */
  lemma StrideBits(r: Regs, c: nat, v: uint32, k: nat)
    requires c < |r.ch|
    ensures Coef(SetSourceMicroBlockStride(r, c, v).ch[c].csus, k) == (k < 24 && Coef(v, k))
    ensures Coef(SetDestinationMicroBlockStride(r, c, v).ch[c].cdus, k) == (k < 24 && Coef(v, k))
  {
    Widths();
    LowBits(v, 24, k);
  }

  /** The descriptor control word is cut to a byte. */
  lemma DescriptorControlBits(r: Regs, c: nat, config: uint32, k: nat)
    requires c < |r.ch|
    ensures Coef(SetDescriptorControl(r, c, config).ch[c].cndc, k) == (k < 8 && Coef(config, k))
  {
    Widths();
    LowBits(config, 8, k);
  }

  /** The descriptor address keeps the address from bit 2 up; the two bits below select the
      interface. */
  lemma {:induction false} DescriptorAddrBits(r: Regs, c: nat, addr: uint32, ndaif: uint32, k: nat)
    requires c < |r.ch| && ndaif < 2
    ensures Coef(SetDescriptorAddr(r, c, addr, ndaif).ch[c].cnda, k) == if k < 2 then Coef(ndaif, k) else Coef(addr, k)
  {
    var x := SetDescriptorAddr(r, c, addr, ndaif).ch[c].cnda;
    assert x == 4 * (addr / 4) + ndaif;
    assert x / 2 / 2 == addr / 4 == addr / 2 / 2;
    assert x % 2 == ndaif % 2 && x / 2 % 2 == ndaif / 2 % 2;
    if k >= 2 {
      assert Coef(x, k) == Coef(x / 2, k - 1) == Coef(x / 2 / 2, k - 2);
      assert Coef(addr, k) == Coef(addr / 2, k - 1) == Coef(addr / 2 / 2, k - 2);
    } else if k == 1 {
      assert Coef(x, 1) == Coef(x / 2, 0) && Coef(ndaif, 1) == Coef(ndaif / 2, 0);
    }
  }

  // ---- interrupt masks -----------------------------------------------------------------------

  /** The bit an interrupt has in the enable, disable, mask and status registers. */
  function Position(i: Irq): nat {
    match i
    case BlockEnd => 0
    case ListEnd => 1
    case DisableEnd => 2
    case FlushEnd => 3
    case ReadError => 4
    case WriteError => 5
    case RequestOverflow => 6
  }

  lemma {:induction false} BitBy(w: nat, k: nat)
    ensures Pow2(k) > 0 && Coef(w, k) == (w / Pow2(k) % 2 == 1)
    decreases k
  {
    Pow2Positive(k);
    if k > 0 {
      BitBy(w / 2, k - 1);
      HalfOfRemainder(w, Pow2(k - 1));
    }
  }

  lemma Weights(i: Irq)
    ensures BitWeight(i) == Pow2(Position(i)) && Position(i) < 7
  {
    assert Pow2(1) == 2 && Pow2(2) == 4 && Pow2(3) == 8;
    assert Pow2(4) == 2 * Pow2(3) && Pow2(5) == 2 * Pow2(4) && Pow2(6) == 2 * Pow2(5);
  }

  /** A word names an interrupt by its bit; bits from 7 up name none. */
  lemma NamedByBit(word: uint32, i: Irq)
    ensures i in Named(word) <==> Coef(word, Position(i))
  {
    Weights(i);
    Widths();
    LowBits(word, 8, Position(i));
    BitBy(word % 0x100, Position(i));
  }

  /** Writing the enable register sets the bits of the word in that channel's mask and
      clears none, in no channel. */
  lemma {:induction false} EnableItBits(r: Regs, c: nat, mask: uint32, j: nat, i: Irq)
    requires c < |r.ch| && j < |r.ch|
    ensures i in EnableChannelIt(r, c, mask).ch[j].cim <==> i in r.ch[j].cim || (j == c && Coef(mask, Position(i)))
  {
    NamedByBit(mask, i);
  }

  /** Writing the disable register clears the bits of the word there and sets none. */
  lemma {:induction false} DisableItBits(r: Regs, c: nat, mask: uint32, j: nat, i: Irq)
    requires c < |r.ch| && j < |r.ch|
    ensures i in DisableChannelIt(r, c, mask).ch[j].cim <==> i in r.ch[j].cim && !(j == c && Coef(mask, Position(i)))
  {
    NamedByBit(mask, i);
  }
}
