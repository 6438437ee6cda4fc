/** Single bits of words, and of the descriptors that the map functions store. */
module Bits {
  import opened Words
  import opened AddressSpace

  /** Bit `i` of `x` is set. */
  predicate Bit(x: nat, i: nat) { x / Pow2(i) % 2 == 1 }

  lemma DivUnique(x: nat, d: nat, q: nat, r: nat)
    requires d > 0 && x == d * q + r && r < d
    ensures x / d == q && x % d == r
  {
    var e := x / d - q;
    assert x == d * (x / d) + x % d;
    assert e * d == r - x % d;
  }

  lemma HalfDiv(x: nat, p: nat)
    requires p > 0
    ensures x / (2 * p) == x / 2 / p && x % (2 * p) == 2 * (x / 2 % p) + x % 2
  {
    var h := x / 2;
    assert h == p * (h / p) + h % p;
    assert x == 2 * p * (h / p) + (2 * (h % p) + x % 2);
    DivUnique(x, 2 * p, h / p, 2 * (h % p) + x % 2);
  }

  lemma BitHalf(x: nat, i: nat)
    requires i > 0
    ensures Bit(x, i) <==> Bit(x / 2, i - 1)
  {
    HalfDiv(x, Pow2(i - 1));
  }

  lemma OrParts(a: nat, b: nat)
    ensures BitOr(a, b) / 2 == BitOr(a / 2, b / 2) && (BitOr(a, b) % 2 == 1 <==> a % 2 == 1 || b % 2 == 1)
  {
  }

  lemma BitFirst(x: nat)
    ensures Bit(x, 0) <==> x % 2 == 1
  {
  }

  lemma {:induction false} OrBit(a: nat, b: nat, i: nat)
    ensures Bit(BitOr(a, b), i) <==> Bit(a, i) || Bit(b, i)
    decreases i
  {
    OrParts(a, b);
    if i == 0 {
      BitFirst(a);
      BitFirst(b);
      BitFirst(BitOr(a, b));
    } else {
      BitHalf(a, i);
      BitHalf(b, i);
      BitHalf(BitOr(a, b), i);
      OrBit(a / 2, b / 2, i - 1);
    }
  }

  lemma {:induction false} NoBit(i: nat)
    ensures !Bit(0, i)
  {
    if i == 0 {
    } else {
      BitHalf(0, i);
      NoBit(i - 1);
    }
  }

  /** Clearing the low `k` bits. */
  lemma {:induction false} ClearBit(x: nat, k: nat, i: nat)
    ensures x % Pow2(k) <= x
    ensures Bit(x - x % Pow2(k), i) <==> i >= k && Bit(x, i)
    decreases k
  {
    if k == 0 {
    } else {
      var p := Pow2(k - 1);
      HalfDiv(x, p);
      ClearBit(x / 2, k - 1, if i == 0 then 0 else i - 1);
      assert (x - x % Pow2(k)) / 2 == x / 2 - x / 2 % p;
      if i > 0 {
        BitHalf(x, i);
        BitHalf(x - x % Pow2(k), i);
      }
    }
  }

  /** Setting them. */
  lemma {:induction false} SetBit(x: nat, k: nat, i: nat)
    ensures x % Pow2(k) <= x
    ensures Bit(x - x % Pow2(k) + (Pow2(k) - 1), i) <==> i < k || Bit(x, i)
    decreases k
  {
    if k == 0 {
    } else {
      var p := Pow2(k - 1);
      HalfDiv(x, p);
      SetBit(x / 2, k - 1, if i == 0 then 0 else i - 1);
      assert (x - x % Pow2(k) + (Pow2(k) - 1)) / 2 == x / 2 - x / 2 % p + (p - 1);
      if i > 0 {
        BitHalf(x, i);
        BitHalf(x - x % Pow2(k) + (Pow2(k) - 1), i);
      }
    }
  }

  /** Every bit of a stored descriptor: both valid bits, the page's address, and the attributes. */
  ghost predicate DescBits(d: nat, pa: nat, flags: nat) {
    forall i: nat :: i < 64 ==> (Bit(d, i) <==> i < 2 || (i >= 12 && Bit(pa, i)) || Bit(flags, i))
  }

  /** The descriptor is the address without its low 12 bits, the attributes, and the valid bits; nothing is lost. */
  lemma PageDescBits(pa: u64, flags: u64)
    ensures DescBits(PageDesc(pa, flags), pa, flags)
  {
    assert Pow2(12) == 4096 && Pow2(2) == 4;
    forall i: nat | i < 64
      ensures Bit(PageDesc(pa, flags), i) <==> i < 2 || (i >= 12 && Bit(pa, i)) || Bit(flags, i)
    {
      ClearBit(pa, 12, i);
      OrBit(PageFloor(pa), flags, i);
      SetBit(Or64(PageFloor(pa), flags), 2, i);
    }
  }

  // ---------------------------------------------------------------- descriptors as sums

  lemma {:induction false} BitOrZero(b: nat)
    ensures BitOr(0, b) == b
  {
    if b == 0 {
    } else {
      BitOrZero(b / 2);
    }
  }

  lemma {:induction false} BitOrAbove(a: nat, b: nat, k: nat)
    requires a < Pow2(k) && b % Pow2(k) == 0
    ensures BitOr(a, b) == a + b
    decreases k
  {
    if k == 0 {
      BitOrZero(b);
    } else {
      HalfMultiple(b, k);
      BitOrAbove(a / 2, b / 2, k - 1);
    }
  }

  lemma {:induction false} BitOrBelow(a: nat, hi: nat, lo: nat, k: nat)
    requires a % Pow2(k) == 0 && hi % Pow2(k) == 0 && lo < Pow2(k)
    ensures BitOr(a, hi + lo) == BitOr(a, hi) + lo
    decreases k
  {
    if k == 0 {
    } else {
      HalfMultiple(a, k);
      HalfMultiple(hi, k);
      BitOrBelow(a / 2, hi / 2, lo / 2, k - 1);
      assert (hi + lo) / 2 == hi / 2 + lo / 2;
    }
  }

  lemma HalfMultiple(x: nat, k: nat)
    requires k > 0 && x % Pow2(k) == 0
    ensures x % 2 == 0 && (x / 2) % Pow2(k - 1) == 0
  {
    var h, q := Pow2(k - 1), x / Pow2(k);
    assert x == Pow2(k) * q == 2 * (h * q);
    assert x / 2 == h * q;
    MultipleMod(h, q);
  }

  lemma MultipleMod(h: nat, q: nat)
    requires h > 0
    ensures (h * q) % h == 0
  {
    DivUnique(h * q, h, q, 0);
  }

  lemma Pow2Is53()
    ensures Pow2(53) == 0x20_0000_0000_0000
  {
    assert Pow2(13) == 0x2000;
    assert Pow2(23) == 0x80_0000;
    assert Pow2(33) == 0x2_0000_0000;
    assert Pow2(43) == 0x800_0000_0000;
  }

  lemma OrHigh(a: nat, hi: nat)
    requires a < 0x20_0000_0000_0000
    ensures BitOr(a, 0x20_0000_0000_0000 * hi) == a + 0x20_0000_0000_0000 * hi
  {
    Pow2Is53();
    MultipleMod(Pow2(53), hi);
    BitOrAbove(a, Pow2(53) * hi, 53);
  }

  lemma OrLow(a: nat, hi: nat, lo: nat)
    requires a % 4096 == 0 && hi % 4096 == 0 && lo < 4096
    ensures BitOr(a, hi + lo) == BitOr(a, hi) + lo
  {
    assert Pow2(12) == 4096;
    BitOrBelow(a, hi, lo, 12);
  }

  lemma HighMod(hi: nat)
    ensures (0x20_0000_0000_0000 * hi) % 4096 == 0
  {
    assert 0x20_0000_0000_0000 * hi == 4096 * (0x200_0000_0000 * hi);
    MultipleMod(4096, 0x200_0000_0000 * hi);
  }

  lemma ValidBits(pa: u64, top: u64, lo: nat)
    requires pa % 4096 == 0 && top % 4096 == 0 && lo % 4 == 0 && pa + top + lo < TWO_64
    ensures Or3(pa + top + lo) == pa + top + lo + 3
  {
  }

  /** With attributes in bits 11 to 2 and from bit 53 on, the descriptor of a page is a sum. */
  lemma DescSum(pa: u64, hi: nat, lo: nat, flags: u64)
    requires pa % 4096 == 0 && pa < 0x20_0000_0000_0000 && lo < 4096 && lo % 4 == 0
    requires flags == 0x20_0000_0000_0000 * hi + lo
    ensures PageDesc(pa, flags) == pa + flags + 3
  {
    var top := 0x20_0000_0000_0000 * hi;
    HighMod(hi);
    OrHigh(pa, hi);
    OrLow(pa, top, lo);
    assert Or64(pa, flags) == pa + top + lo;
    ValidBits(pa, top, lo);
  }
}
