/** Products of 16-bit words as remainders modulo x^16 + x^12 + x^5 + 1, one bit of the
    second factor at a time, and the products that certain powers of x need. */
module WordProduct {
  /** Times x, reduced, and plus r if the bit of u under the mask is set. */
  function Next(acc: bv16, r: bv16, u: bv16, mask: bv16): bv16 {
    if acc & 0x8000 != 0 then
      if u & mask != 0 then ((acc << 1) ^ 0x1021) ^ r else (acc << 1) ^ 0x1021
    else if u & mask != 0 then (acc << 1) ^ r else acc << 1
  }

  function Product(r: bv16, u: bv16): bv16 {
    var a0 := Next(0, r, u, 0x8000);
    var a1 := Next(a0, r, u, 0x4000);
    var a2 := Next(a1, r, u, 0x2000);
    var a3 := Next(a2, r, u, 0x1000);
    var a4 := Next(a3, r, u, 0x0800);
    var a5 := Next(a4, r, u, 0x0400);
    var a6 := Next(a5, r, u, 0x0200);
    var a7 := Next(a6, r, u, 0x0100);
    var a8 := Next(a7, r, u, 0x0080);
    var a9 := Next(a8, r, u, 0x0040);
    var a10 := Next(a9, r, u, 0x0020);
    var a11 := Next(a10, r, u, 0x0010);
    var a12 := Next(a11, r, u, 0x0008);
    var a13 := Next(a12, r, u, 0x0004);
    var a14 := Next(a13, r, u, 0x0002);
    var a15 := Next(a14, r, u, 0x0001);
    a15
  }

  /** x^16 squared again and again, up to x^32768 = x. */
  lemma Squares()
    ensures Product(0x1021, 0x1021) == 0x3730
    ensures Product(0x3730, 0x3730) == 0xB861
    ensures Product(0xB861, 0xB861) == 0xAEFC
    ensures Product(0xAEFC, 0xAEFC) == 0x8E29
    ensures Product(0x8E29, 0x8E29) == 0x13FC
    ensures Product(0x13FC, 0x13FC) == 0x36C4
    ensures Product(0x36C4, 0x36C4) == 0xFD50
    ensures Product(0xFD50, 0xFD50) == 0xAA9E
    ensures Product(0xAA9E, 0xAA9E) == 0x881C
    ensures Product(0x881C, 0x881C) == 0x4458
    ensures Product(0x4458, 0x4458) == 0x0002
  {
  }

  /** The products that lead to x^4681, x^1057 and x^217. */
  lemma Products()
    ensures Product(0xB861, 0x0200) == 0x8FA6
    ensures Product(0xAA9E, 0x13FC) == 0x54A0
    ensures Product(0x54A0, 0x8FA6) == 0x2C42
    ensures Product(0x36C4, 0x3730) == 0xF147
    ensures Product(0xF147, 0x0002) == 0xF2AF
    ensures Product(0xAEFC, 0xB861) == 0x650B
    ensures Product(0x1021, 0x0200) == 0x6662
    ensures Product(0x650B, 0x6662) == 0x48E3
  {
  }
}
