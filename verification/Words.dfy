/** 64-bit machine words as integers, and the bit operations the translation code applies to them. */
module Words {

  const TWO_32: nat := 0x1_0000_0000
  const TWO_64: nat := 0x1_0000_0000_0000_0000

  /** The upper half of the address space, where the kernel's own image is linked. */
  const KERNEL_VIRT_BASE: nat := 0xFFFF_FFFF_0000_0000

  type u8 = x: int | 0 <= x < 0x100
  type u64 = x: int | 0 <= x < TWO_64

  /** `a + b` in 64-bit unsigned arithmetic. */
  function Add64(a: u64, b: nat): u64 { (a + b) % TWO_64 }

  /** `x & ~0xFFF` */
  function PageFloor(x: u64): u64 { x - x % 4096 }

  /** `x | 3` */
  function Or3(x: u64): u64 { x - x % 4 + 3 }

  /** `a | b`, bit by bit. */
  function BitOr(a: nat, b: nat): nat
    decreases a + b
  {
    if a == 0 && b == 0 then 0
    else (if a % 2 == 1 || b % 2 == 1 then 1 else 0) + 2 * BitOr(a / 2, b / 2)
  }

  function Pow2(k: nat): (r: nat)
    ensures r > 0
  {
    if k == 0 then 1 else 2 * Pow2(k - 1)
  }

  lemma {:induction false} BitOrBound(a: nat, b: nat, k: nat)
    requires a < Pow2(k) && b < Pow2(k)
    ensures BitOr(a, b) < Pow2(k)
    decreases k
  {
    if a == 0 && b == 0 {
    } else {
      BitOrBound(a / 2, b / 2, k - 1);
    }
  }

  lemma Pow2Is64()
    ensures Pow2(64) == TWO_64
  {
    assert Pow2(8) == 0x100;
    assert Pow2(16) == 0x1_0000;
    assert Pow2(24) == 0x100_0000;
    assert Pow2(32) == TWO_32;
    assert Pow2(40) == 0x100_0000_0000;
    assert Pow2(48) == 0x1_0000_0000_0000;
    assert Pow2(56) == 0x100_0000_0000_0000;
  }

  /** `a | b` on words. */
  function Or64(a: u64, b: u64): u64 {
    Pow2Is64();
    BitOrBound(a, b, 64);
    BitOr(a, b)
  }

  function VaToPa(x: u64): u64 { (x - KERNEL_VIRT_BASE) % TWO_64 }

  function PaToVa(x: u64): u64 { (x + KERNEL_VIRT_BASE) % TWO_64 }

  /** The 4 GB of physical memory and the top 4 GB of the address space. */
  lemma KernelHalf(a: u64)
    requires a < TWO_32
    ensures PaToVa(a) == 0xFFFF_FFFF_0000_0000 + a && VaToPa(0xFFFF_FFFF_0000_0000 + a) == a
  {
  }

  /** Moving a pointer into the kernel's half and back leaves it as it was. */
  lemma VaPaInverse(x: u64)
    ensures VaToPa(PaToVa(x)) == x && PaToVa(VaToPa(x)) == x
  {
  }
}
