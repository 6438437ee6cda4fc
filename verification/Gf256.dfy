/** Arithmetic in GF(2^8) and the two S-box tables of FIPS 197. */
module Gf256 {

  /** Addition in GF(2^8), and the sum of a row of MixColumns. */
  function Add(a: bv8, b: bv8): bv8 { a ^ b }

  function Sum4(a: bv8, b: bv8, c: bv8, d: bv8): bv8 { a ^ b ^ c ^ d }

  /** Multiplication by x, section 4.2.1. */
  function Xtime(b: bv8): bv8 { if b & 0x80 == 0 then b << 1 else (b << 1) ^ 0x1b }

  /** `a * b`: the sum of `b * x^i` over the bits `i` of `a`. */
  function Mul(a: bv8, b: bv8): bv8 {
    var b1 := Xtime(b);
    var b2 := Xtime(b1);
    var b3 := Xtime(b2);
    var b4 := Xtime(b3);
    var b5 := Xtime(b4);
    var b6 := Xtime(b5);
    var b7 := Xtime(b6);
    (if a & 0x01 == 0 then 0 else b) ^ (if a & 0x02 == 0 then 0 else b1)
    ^ (if a & 0x04 == 0 then 0 else b2) ^ (if a & 0x08 == 0 then 0 else b3)
    ^ (if a & 0x10 == 0 then 0 else b4) ^ (if a & 0x20 == 0 then 0 else b5)
    ^ (if a & 0x40 == 0 then 0 else b6) ^ (if a & 0x80 == 0 then 0 else b7)
  }

  /** The affine map of section 5.1.1, equation 5.1, and its inverse. */
  function Affine(b: bv8): bv8 {
    b ^ b.RotateLeft(1) ^ b.RotateLeft(2) ^ b.RotateLeft(3) ^ b.RotateLeft(4) ^ 0x63
  }

  function AffineInverse(b: bv8): bv8 { b.RotateLeft(1) ^ b.RotateLeft(3) ^ b.RotateLeft(6) ^ 0x05 }

  /** Entry `c` of one table row. */
  function Row(c: bv8, t0: bv8, t1: bv8, t2: bv8, t3: bv8, t4: bv8, t5: bv8, t6: bv8, t7: bv8,
               t8: bv8, t9: bv8, ta: bv8, tb: bv8, tc: bv8, td: bv8, te: bv8, tf: bv8): bv8
  {
    if c & 8 == 0 then
      if c & 4 == 0 then
        if c & 2 == 0 then (if c & 1 == 0 then t0 else t1) else (if c & 1 == 0 then t2 else t3)
      else
        if c & 2 == 0 then (if c & 1 == 0 then t4 else t5) else (if c & 1 == 0 then t6 else t7)
    else
      if c & 4 == 0 then
        if c & 2 == 0 then (if c & 1 == 0 then t8 else t9) else (if c & 1 == 0 then ta else tb)
      else
        if c & 2 == 0 then (if c & 1 == 0 then tc else td) else (if c & 1 == 0 then te else tf)
  }

  /** The table `sbox` of the source, one row of sixteen entries a line. */
  function Sbox(x: bv8): bv8 {
    var c := x & 0x0f;
    if x & 0x80 == 0 then
      if x & 0x40 == 0 then
        if x & 0x20 == 0 then
          if x & 0x10 == 0 then
            Row(c, 0x63, 0x7c, 0x77, 0x7b, 0xf2, 0x6b, 0x6f, 0xc5, 0x30, 0x01, 0x67, 0x2b, 0xfe, 0xd7, 0xab, 0x76)
          else
            Row(c, 0xca, 0x82, 0xc9, 0x7d, 0xfa, 0x59, 0x47, 0xf0, 0xad, 0xd4, 0xa2, 0xaf, 0x9c, 0xa4, 0x72, 0xc0)
        else
          if x & 0x10 == 0 then
            Row(c, 0xb7, 0xfd, 0x93, 0x26, 0x36, 0x3f, 0xf7, 0xcc, 0x34, 0xa5, 0xe5, 0xf1, 0x71, 0xd8, 0x31, 0x15)
          else
            Row(c, 0x04, 0xc7, 0x23, 0xc3, 0x18, 0x96, 0x05, 0x9a, 0x07, 0x12, 0x80, 0xe2, 0xeb, 0x27, 0xb2, 0x75)
      else
        if x & 0x20 == 0 then
          if x & 0x10 == 0 then
            Row(c, 0x09, 0x83, 0x2c, 0x1a, 0x1b, 0x6e, 0x5a, 0xa0, 0x52, 0x3b, 0xd6, 0xb3, 0x29, 0xe3, 0x2f, 0x84)
          else
            Row(c, 0x53, 0xd1, 0x00, 0xed, 0x20, 0xfc, 0xb1, 0x5b, 0x6a, 0xcb, 0xbe, 0x39, 0x4a, 0x4c, 0x58, 0xcf)
        else
          if x & 0x10 == 0 then
            Row(c, 0xd0, 0xef, 0xaa, 0xfb, 0x43, 0x4d, 0x33, 0x85, 0x45, 0xf9, 0x02, 0x7f, 0x50, 0x3c, 0x9f, 0xa8)
          else
            Row(c, 0x51, 0xa3, 0x40, 0x8f, 0x92, 0x9d, 0x38, 0xf5, 0xbc, 0xb6, 0xda, 0x21, 0x10, 0xff, 0xf3, 0xd2)
    else
      if x & 0x40 == 0 then
        if x & 0x20 == 0 then
          if x & 0x10 == 0 then
            Row(c, 0xcd, 0x0c, 0x13, 0xec, 0x5f, 0x97, 0x44, 0x17, 0xc4, 0xa7, 0x7e, 0x3d, 0x64, 0x5d, 0x19, 0x73)
          else
            Row(c, 0x60, 0x81, 0x4f, 0xdc, 0x22, 0x2a, 0x90, 0x88, 0x46, 0xee, 0xb8, 0x14, 0xde, 0x5e, 0x0b, 0xdb)
        else
          if x & 0x10 == 0 then
            Row(c, 0xe0, 0x32, 0x3a, 0x0a, 0x49, 0x06, 0x24, 0x5c, 0xc2, 0xd3, 0xac, 0x62, 0x91, 0x95, 0xe4, 0x79)
          else
            Row(c, 0xe7, 0xc8, 0x37, 0x6d, 0x8d, 0xd5, 0x4e, 0xa9, 0x6c, 0x56, 0xf4, 0xea, 0x65, 0x7a, 0xae, 0x08)
      else
        if x & 0x20 == 0 then
          if x & 0x10 == 0 then
            Row(c, 0xba, 0x78, 0x25, 0x2e, 0x1c, 0xa6, 0xb4, 0xc6, 0xe8, 0xdd, 0x74, 0x1f, 0x4b, 0xbd, 0x8b, 0x8a)
          else
            Row(c, 0x70, 0x3e, 0xb5, 0x66, 0x48, 0x03, 0xf6, 0x0e, 0x61, 0x35, 0x57, 0xb9, 0x86, 0xc1, 0x1d, 0x9e)
        else
          if x & 0x10 == 0 then
            Row(c, 0xe1, 0xf8, 0x98, 0x11, 0x69, 0xd9, 0x8e, 0x94, 0x9b, 0x1e, 0x87, 0xe9, 0xce, 0x55, 0x28, 0xdf)
          else
            Row(c, 0x8c, 0xa1, 0x89, 0x0d, 0xbf, 0xe6, 0x42, 0x68, 0x41, 0x99, 0x2d, 0x0f, 0xb0, 0x54, 0xbb, 0x16)
  }

  /** The multiplicative inverse in GF(2^8), and 0 for 0, read off the table. */
  function Inverse(x: bv8): bv8 { AffineInverse(Sbox(x)) }

  /** Section 5.3.2: the inverse affine map, then the multiplicative inverse. */
  function InvSbox(y: bv8): bv8 { Inverse(AffineInverse(y)) }

  // Facts about the table, a quarter of it at a time.

  lemma InversesFirst(x: bv8)
    requires x & 0xc0 == 0x00
    ensures x != 0 ==> Mul(x, Inverse(x)) == 1
  {
  }

  lemma InvolutionFirst(x: bv8)
    requires x & 0xc0 == 0x00
    ensures Inverse(Inverse(x)) == x
  {
  }

  lemma InversesSecond(x: bv8)
    requires x & 0xc0 == 0x40
    ensures x != 0 ==> Mul(x, Inverse(x)) == 1
  {
  }

  lemma InvolutionSecond(x: bv8)
    requires x & 0xc0 == 0x40
    ensures Inverse(Inverse(x)) == x
  {
  }

  lemma InversesThird(x: bv8)
    requires x & 0xc0 == 0x80
    ensures x != 0 ==> Mul(x, Inverse(x)) == 1
  {
  }

  lemma InvolutionThird(x: bv8)
    requires x & 0xc0 == 0x80
    ensures Inverse(Inverse(x)) == x
  {
  }

  lemma InversesFourth(x: bv8)
    requires x & 0xc0 == 0xc0
    ensures x != 0 ==> Mul(x, Inverse(x)) == 1
  {
  }

  lemma InvolutionFourth(x: bv8)
    requires x & 0xc0 == 0xc0
    ensures Inverse(Inverse(x)) == x
  {
  }

  lemma InverseInverts(x: bv8)
    ensures Inverse(Inverse(x)) == x
  {
    if x & 0xc0 == 0x00 { InvolutionFirst(x); }
    else if x & 0xc0 == 0x40 { InvolutionSecond(x); }
    else if x & 0xc0 == 0x80 { InvolutionThird(x); }
    else { InvolutionFourth(x); }
  }

  lemma InverseIsInverse(x: bv8)
    ensures x != 0 ==> Mul(x, Inverse(x)) == 1
  {
    if x & 0xc0 == 0x00 { InversesFirst(x); }
    else if x & 0xc0 == 0x40 { InversesSecond(x); }
    else if x & 0xc0 == 0x80 { InversesThird(x); }
    else { InversesFourth(x); }
  }

  lemma AffineInverts(y: bv8)
    ensures Affine(AffineInverse(y)) == y && AffineInverse(Affine(y)) == y
  {
  }

  /** The source's table is the S-box of section 5.1.1: the inverse in GF(2^8), then the affine map. */
  lemma SboxIsStandard(x: bv8)
    ensures Sbox(x) == Affine(Inverse(x)) && (if x == 0 then Inverse(x) == 0 else Mul(x, Inverse(x)) == 1)
  {
    AffineInverts(Sbox(x));
    InverseIsInverse(x);
  }

  lemma InvSboxInverts(x: bv8)
    ensures InvSbox(Sbox(x)) == x
  {
    InverseInverts(x);
  }

  lemma SboxInverts(y: bv8)
    ensures Sbox(InvSbox(y)) == y
  {
    AffineInverts(y);
    AffineInverts(Sbox(InvSbox(y)));
    InverseInverts(AffineInverse(y));
  }

  // ---------------------------------------------------------------- sums

  function Sum3(a: bv8, b: bv8, c: bv8): bv8 { a ^ b ^ c }

  lemma AddCancels(a: bv8, b: bv8)
    ensures Add(Add(a, b), b) == a
  {
  }

  lemma Sum2Adds(a: bv8, b: bv8, p: bv8, q: bv8)
    ensures Add(Add(a, p), Add(b, q)) == Add(Add(a, b), Add(p, q))
  {
    assert Add(a ^ p, b ^ q) == Add(a ^ b, p ^ q);
  }

  lemma Sum3Adds(a: bv8, b: bv8, c: bv8, p: bv8, q: bv8, r: bv8)
    ensures Sum3(Add(a, p), Add(b, q), Add(c, r)) == Add(Sum3(a, b, c), Sum3(p, q, r))
  {
    assert Sum3(a ^ p, b ^ q, c ^ r) == Add(a ^ b ^ c, p ^ q ^ r);
  }

  lemma Sum4Adds(a: bv8, b: bv8, c: bv8, d: bv8, p: bv8, q: bv8, r: bv8, s: bv8)
    ensures Sum4(Add(a, p), Add(b, q), Add(c, r), Add(d, s)) == Add(Sum4(a, b, c, d), Sum4(p, q, r, s))
  {
    assert Sum4(a ^ p, b ^ q, c ^ r, d ^ s) == Add(a ^ b ^ c ^ d, p ^ q ^ r ^ s);
  }

  lemma Sum3Is(a: bv8, b: bv8, c: bv8)
    ensures Sum3(a, b, c) == Add(Add(a, b), c)
  {
  }

  lemma Sum4Is(a: bv8, b: bv8, c: bv8, d: bv8)
    ensures Sum4(a, b, c, d) == Add(Add(Add(a, b), c), d)
  {
  }

  // ---------------------------------------------------------------- multiplication by x

  /** The bit that is shifted out is folded back. */
  lemma XtimeIs(b: bv8)
    ensures Xtime(b) == (b << 1) ^ (b >> 7) ^ ((b >> 7) << 1) ^ ((b >> 7) << 3) ^ ((b >> 7) << 4)
  {
  }

  lemma XtimeAdds(a: bv8, b: bv8)
    ensures Xtime(Add(a, b)) == Add(Xtime(a), Xtime(b))
  {
    XtimeIs(a);
    XtimeIs(b);
    XtimeIs(a ^ b);
  }

  lemma XtimeSum3(a: bv8, b: bv8, c: bv8)
    ensures Xtime(Sum3(a, b, c)) == Sum3(Xtime(a), Xtime(b), Xtime(c))
  {
    Sum3Is(a, b, c);
    Sum3Is(Xtime(a), Xtime(b), Xtime(c));
    XtimeAdds(a, b);
    XtimeAdds(Add(a, b), c);
  }

  lemma XtimeSum4(a: bv8, b: bv8, c: bv8, d: bv8)
    ensures Xtime(Sum4(a, b, c, d)) == Sum4(Xtime(a), Xtime(b), Xtime(c), Xtime(d))
  {
    Sum4Is(a, b, c, d);
    Sum4Is(Xtime(a), Xtime(b), Xtime(c), Xtime(d));
    XtimeAdds(a, b);
    XtimeAdds(Add(a, b), c);
    XtimeAdds(Add(Add(a, b), c), d);
  }

  /** A byte times x^2, x^3 and x^4. */
  function X2(b: bv8): bv8 { Xtime(Xtime(b)) }

  function X3(b: bv8): bv8 { Xtime(X2(b)) }

  function X4(b: bv8): bv8 { Xtime(X3(b)) }

  lemma PowersAdd(a: bv8, b: bv8)
    ensures Xtime(Add(a, b)) == Add(Xtime(a), Xtime(b))
    ensures X2(Add(a, b)) == Add(X2(a), X2(b)) && X3(Add(a, b)) == Add(X3(a), X3(b))
  {
    XtimeAdds(a, b);
    XtimeAdds(Xtime(a), Xtime(b));
    XtimeAdds(X2(a), X2(b));
  }

  // The factors of MixColumns and of its inverse as sums of powers of x; all of them are additive and commute
  // with multiplication by x.

  lemma Mul2Is(b: bv8)
    ensures Mul(0x02, b) == Xtime(b)
  {
  }

  lemma Mul3Is(b: bv8)
    ensures Mul(0x03, b) == Add(Xtime(b), b)
  {
  }

  lemma Mul9Is(b: bv8)
    ensures Mul(0x09, b) == Add(b, X3(b))
  {
  }

  lemma MulBIs(b: bv8)
    ensures Mul(0x0b, b) == Sum3(b, Xtime(b), X3(b))
  {
  }

  lemma MulDIs(b: bv8)
    ensures Mul(0x0d, b) == Sum3(b, X2(b), X3(b))
  {
  }

  lemma MulEIs(b: bv8)
    ensures Mul(0x0e, b) == Sum3(Xtime(b), X2(b), X3(b))
  {
  }

  lemma Mul9Adds(a: bv8, b: bv8)
    ensures Mul(0x09, Add(a, b)) == Add(Mul(0x09, a), Mul(0x09, b))
  {
    PowersAdd(a, b);
    Mul9Is(a);
    Mul9Is(b);
    Mul9Is(Add(a, b));
    Sum2Adds(a, X3(a), b, X3(b));
  }

  lemma MulBAdds(a: bv8, b: bv8)
    ensures Mul(0x0b, Add(a, b)) == Add(Mul(0x0b, a), Mul(0x0b, b))
  {
    PowersAdd(a, b);
    MulBIs(a);
    MulBIs(b);
    MulBIs(Add(a, b));
    Sum3Adds(a, Xtime(a), X3(a), b, Xtime(b), X3(b));
  }

  lemma MulDAdds(a: bv8, b: bv8)
    ensures Mul(0x0d, Add(a, b)) == Add(Mul(0x0d, a), Mul(0x0d, b))
  {
    PowersAdd(a, b);
    MulDIs(a);
    MulDIs(b);
    MulDIs(Add(a, b));
    Sum3Adds(a, X2(a), X3(a), b, X2(b), X3(b));
  }

  lemma MulEAdds(a: bv8, b: bv8)
    ensures Mul(0x0e, Add(a, b)) == Add(Mul(0x0e, a), Mul(0x0e, b))
  {
    PowersAdd(a, b);
    MulEIs(a);
    MulEIs(b);
    MulEIs(Add(a, b));
    Sum3Adds(Xtime(a), X2(a), X3(a), Xtime(b), X2(b), X3(b));
  }

  lemma XtimeMul2(b: bv8)
    ensures Xtime(Mul(0x02, b)) == Mul(0x02, Xtime(b))
  {
    Mul2Is(b);
    Mul2Is(Xtime(b));
  }

  lemma XtimeMul3(b: bv8)
    ensures Xtime(Mul(0x03, b)) == Mul(0x03, Xtime(b))
  {
    Mul3Is(b);
    Mul3Is(Xtime(b));
    XtimeAdds(Xtime(b), b);
  }

  lemma XtimeMul9(b: bv8)
    ensures Xtime(Mul(0x09, b)) == Mul(0x09, Xtime(b))
  {
    Mul9Is(b);
    Mul9Is(Xtime(b));
    XtimeAdds(b, X3(b));
  }

  lemma XtimeMulB(b: bv8)
    ensures Xtime(Mul(0x0b, b)) == Mul(0x0b, Xtime(b))
  {
    MulBIs(b);
    MulBIs(Xtime(b));
    XtimeSum3(b, Xtime(b), X3(b));
  }

  lemma XtimeMulD(b: bv8)
    ensures Xtime(Mul(0x0d, b)) == Mul(0x0d, Xtime(b))
  {
    MulDIs(b);
    MulDIs(Xtime(b));
    XtimeSum3(b, X2(b), X3(b));
  }

  lemma XtimeMulE(b: bv8)
    ensures Xtime(Mul(0x0e, b)) == Mul(0x0e, Xtime(b))
  {
    MulEIs(b);
    MulEIs(Xtime(b));
    XtimeSum3(Xtime(b), X2(b), X3(b));
  }

  // ---------------------------------------------------------------- rows of MixColumns

  /** One byte of MixColumns, section 5.1.3, and of InvMixColumns, section 5.3.3. */
  function MixRow(a: bv8, b: bv8, c: bv8, d: bv8): bv8 { Sum4(Mul(0x02, a), Mul(0x03, b), c, d) }

  function InvMixRow(a: bv8, b: bv8, c: bv8, d: bv8): bv8 {
    Sum4(Mul(0x0e, a), Mul(0x0b, b), Mul(0x0d, c), Mul(0x09, d))
  }

  /** InvMixColumns is additive. */
  lemma InvMixRowAdds(a: bv8, b: bv8, c: bv8, d: bv8, p: bv8, q: bv8, r: bv8, s: bv8)
    ensures InvMixRow(Add(a, p), Add(b, q), Add(c, r), Add(d, s))
      == Add(InvMixRow(a, b, c, d), InvMixRow(p, q, r, s))
  {
    MulEAdds(a, p);
    MulBAdds(b, q);
    MulDAdds(c, r);
    Mul9Adds(d, s);
    Sum4Adds(Mul(0x0e, a), Mul(0x0b, b), Mul(0x0d, c), Mul(0x09, d),
             Mul(0x0e, p), Mul(0x0b, q), Mul(0x0d, r), Mul(0x09, s));
  }

  lemma XtimeMix(a: bv8, b: bv8, c: bv8, d: bv8)
    ensures Xtime(MixRow(a, b, c, d)) == MixRow(Xtime(a), Xtime(b), Xtime(c), Xtime(d))
  {
    XtimeSum4(Mul(0x02, a), Mul(0x03, b), c, d);
    XtimeMul2(a);
    XtimeMul3(b);
  }

  lemma XtimeInvMix(a: bv8, b: bv8, c: bv8, d: bv8)
    ensures Xtime(InvMixRow(a, b, c, d)) == InvMixRow(Xtime(a), Xtime(b), Xtime(c), Xtime(d))
  {
    XtimeSum4(Mul(0x0e, a), Mul(0x0b, b), Mul(0x0d, c), Mul(0x09, d));
    XtimeMulE(a);
    XtimeMulB(b);
    XtimeMulD(c);
    XtimeMul9(d);
  }

  /** The rows as sums of powers of x; the digit of an argument is its power. */
  function Mixed(a1: bv8, b0: bv8, b1: bv8, c0: bv8, d0: bv8): bv8 { a1 ^ b0 ^ b1 ^ c0 ^ d0 }

  function InvMixed(a1: bv8, a2: bv8, a3: bv8, b0: bv8, b1: bv8, b3: bv8,
                    c0: bv8, c2: bv8, c3: bv8, d0: bv8, d3: bv8): bv8 {
    a1 ^ a2 ^ a3 ^ b0 ^ b1 ^ b3 ^ c0 ^ c2 ^ c3 ^ d0 ^ d3
  }

  lemma MixedIs(a1: bv8, b0: bv8, b1: bv8, c0: bv8, d0: bv8)
    ensures Mixed(a1, b0, b1, c0, d0) == Sum4(a1, Add(b1, b0), c0, d0)
  {
    assert Mixed(a1, b0, b1, c0, d0) == Sum4(a1, b1 ^ b0, c0, d0);
  }

  lemma InvMixedIs(a1: bv8, a2: bv8, a3: bv8, b0: bv8, b1: bv8, b3: bv8,
                   c0: bv8, c2: bv8, c3: bv8, d0: bv8, d3: bv8)
    ensures InvMixed(a1, a2, a3, b0, b1, b3, c0, c2, c3, d0, d3)
      == Sum4(Sum3(a1, a2, a3), Sum3(b0, b1, b3), Sum3(c0, c2, c3), Add(d0, d3))
  {
    assert InvMixed(a1, a2, a3, b0, b1, b3, c0, c2, c3, d0, d3)
      == Sum4(a1 ^ a2 ^ a3, b0 ^ b1 ^ b3, c0 ^ c2 ^ c3, d0 ^ d3);
  }

  lemma MixRowIs(a: bv8, b: bv8, c: bv8, d: bv8)
    ensures MixRow(a, b, c, d) == Mixed(Xtime(a), b, Xtime(b), c, d)
  {
    Mul2Is(a);
    Mul3Is(b);
    MixedIs(Xtime(a), b, Xtime(b), c, d);
  }

  lemma InvMixRowIs(a: bv8, b: bv8, c: bv8, d: bv8)
    ensures InvMixRow(a, b, c, d)
      == InvMixed(Xtime(a), X2(a), X3(a), b, Xtime(b), X3(b), c, X2(c), X3(c), d, X3(d))
  {
    MulEIs(a);
    MulBIs(b);
    MulDIs(c);
    Mul9Is(d);
    InvMixedIs(Xtime(a), X2(a), X3(a), b, Xtime(b), X3(b), c, X2(c), X3(c), d, X3(d));
  }

  /** The powers of one mixed byte. */
  lemma MixPowers(a: bv8, b: bv8, c: bv8, d: bv8)
    ensures var m := MixRow(a, b, c, d);
      && m == Mixed(Xtime(a), b, Xtime(b), c, d)
      && Xtime(m) == Mixed(X2(a), Xtime(b), X2(b), Xtime(c), Xtime(d))
      && X2(m) == Mixed(X3(a), X2(b), X3(b), X2(c), X2(d))
      && X3(m) == Mixed(X4(a), X3(b), X4(b), X3(c), X3(d))
  {
    MixRowIs(a, b, c, d);
    MixRowIs(Xtime(a), Xtime(b), Xtime(c), Xtime(d));
    MixRowIs(X2(a), X2(b), X2(c), X2(d));
    MixRowIs(X3(a), X3(b), X3(c), X3(d));
    XtimeMix(a, b, c, d);
    XtimeMix(Xtime(a), Xtime(b), Xtime(c), Xtime(d));
    XtimeMix(X2(a), X2(b), X2(c), X2(d));
  }

  /** The products of the two matrices cancel power by power; no reduction is needed. */
  lemma RowsCancel(a0: bv8, a1: bv8, a2: bv8, a3: bv8, a4: bv8,
                   b0: bv8, b1: bv8, b2: bv8, b3: bv8, b4: bv8,
                   c0: bv8, c1: bv8, c2: bv8, c3: bv8, c4: bv8,
                   d0: bv8, d1: bv8, d2: bv8, d3: bv8, d4: bv8)
    ensures InvMixed(
      Mixed(a2, b1, b2, c1, d1), Mixed(a3, b2, b3, c2, d2), Mixed(a4, b3, b4, c3, d3),
      Mixed(b1, c0, c1, d0, a0), Mixed(b2, c1, c2, d1, a1), Mixed(b4, c3, c4, d3, a3),
      Mixed(c1, d0, d1, a0, b0), Mixed(c3, d2, d3, a2, b2), Mixed(c4, d3, d4, a3, b3),
      Mixed(d1, a0, a1, b0, c0), Mixed(d4, a3, a4, b3, c3)) == a0
  {
    assert InvMixed(
      a2 ^ b1 ^ b2 ^ c1 ^ d1, a3 ^ b2 ^ b3 ^ c2 ^ d2, a4 ^ b3 ^ b4 ^ c3 ^ d3,
      b1 ^ c0 ^ c1 ^ d0 ^ a0, b2 ^ c1 ^ c2 ^ d1 ^ a1, b4 ^ c3 ^ c4 ^ d3 ^ a3,
      c1 ^ d0 ^ d1 ^ a0 ^ b0, c3 ^ d2 ^ d3 ^ a2 ^ b2, c4 ^ d3 ^ d4 ^ a3 ^ b3,
      d1 ^ a0 ^ a1 ^ b0 ^ c0, d4 ^ a3 ^ a4 ^ b3 ^ c3) == a0;
  }

  lemma ColumnsCancel(a0: bv8, a1: bv8, a2: bv8, a3: bv8, a4: bv8,
                   b0: bv8, b1: bv8, b2: bv8, b3: bv8, b4: bv8,
                   c0: bv8, c1: bv8, c2: bv8, c3: bv8, c4: bv8,
                   d0: bv8, d1: bv8, d2: bv8, d3: bv8, d4: bv8)
    ensures Mixed(
      InvMixed(a2, a3, a4, b1, b2, b4, c1, c3, c4, d1, d4),
      InvMixed(b1, b2, b3, c0, c1, c3, d0, d2, d3, a0, a3),
      InvMixed(b2, b3, b4, c1, c2, c4, d1, d3, d4, a1, a4),
      InvMixed(c1, c2, c3, d0, d1, d3, a0, a2, a3, b0, b3),
      InvMixed(d1, d2, d3, a0, a1, a3, b0, b2, b3, c0, c3)) == a0
  {
    assert Mixed(
      a2 ^ a3 ^ a4 ^ b1 ^ b2 ^ b4 ^ c1 ^ c3 ^ c4 ^ d1 ^ d4,
      b1 ^ b2 ^ b3 ^ c0 ^ c1 ^ c3 ^ d0 ^ d2 ^ d3 ^ a0 ^ a3,
      b2 ^ b3 ^ b4 ^ c1 ^ c2 ^ c4 ^ d1 ^ d3 ^ d4 ^ a1 ^ a4,
      c1 ^ c2 ^ c3 ^ d0 ^ d1 ^ d3 ^ a0 ^ a2 ^ a3 ^ b0 ^ b3,
      d1 ^ d2 ^ d3 ^ a0 ^ a1 ^ a3 ^ b0 ^ b2 ^ b3 ^ c0 ^ c3) == a0;
  }

  lemma InvMixRowInverts(a: bv8, b: bv8, c: bv8, d: bv8)
    ensures InvMixRow(MixRow(a, b, c, d), MixRow(b, c, d, a), MixRow(c, d, a, b), MixRow(d, a, b, c)) == a
  {
    MixPowers(a, b, c, d);
    MixPowers(b, c, d, a);
    MixPowers(c, d, a, b);
    MixPowers(d, a, b, c);
    InvMixRowIs(MixRow(a, b, c, d), MixRow(b, c, d, a), MixRow(c, d, a, b), MixRow(d, a, b, c));
    RowsCancel(a, Xtime(a), X2(a), X3(a), X4(a),
               b, Xtime(b), X2(b), X3(b), X4(b),
               c, Xtime(c), X2(c), X3(c), X4(c),
               d, Xtime(d), X2(d), X3(d), X4(d));
  }

  lemma MixRowInverts(a: bv8, b: bv8, c: bv8, d: bv8)
    ensures MixRow(InvMixRow(a, b, c, d), InvMixRow(b, c, d, a), InvMixRow(c, d, a, b), InvMixRow(d, a, b, c)) == a
  {
    MixRowIs(InvMixRow(a, b, c, d), InvMixRow(b, c, d, a), InvMixRow(c, d, a, b), InvMixRow(d, a, b, c));
    XtimeInvMix(a, b, c, d);
    XtimeInvMix(b, c, d, a);
    InvMixRowIs(Xtime(a), Xtime(b), Xtime(c), Xtime(d));
    InvMixRowIs(b, c, d, a);
    InvMixRowIs(Xtime(b), Xtime(c), Xtime(d), Xtime(a));
    InvMixRowIs(c, d, a, b);
    InvMixRowIs(d, a, b, c);
    ColumnsCancel(a, Xtime(a), X2(a), X3(a), X4(a),
                  b, Xtime(b), X2(b), X3(b), X4(b),
                  c, Xtime(c), X2(c), X3(c), X4(c),
                  d, Xtime(d), X2(d), X3(d), X4(d));
  }
}
