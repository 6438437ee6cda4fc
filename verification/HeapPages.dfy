/** The kernel heap window: its page numbers, its descriptors, and the first free run of its bitmap. */
module HeapPages {
  import opened Words
  import opened AddressSpace

  const MAX_PAGES: nat := 131072

  /** `PROT_NORMAL_MEM | AP_EL0_NO_ELX_RW | PTE_PXN | PTE_UXN` */
  const HEAP_FLAGS: nat := 0x0060_0000_0000_0704

  /** `_heap_begin`: page aligned, in the kernel's half, with the whole window below 4 GB of physical memory. */
  type HeapBase = h: u64 |
    h % 4096 == 0 && h >= KERNEL_VIRT_BASE + 4096 && h - KERNEL_VIRT_BASE + 4096 * MAX_PAGES <= TWO_32
    witness KERNEL_VIRT_BASE + 4096

  type Bitmap = s: seq<u8> | |s| == MAX_PAGES witness seq(MAX_PAGES, i => 0)

  /** Address, page number and descriptor of heap page `i`. */
  function Ptr(heap: HeapBase, i: nat): u64
    requires i < MAX_PAGES
  {
    heap + 4096 * i
  }

  function HeapPage(heap: HeapBase, i: nat): Page
    requires i < MAX_PAGES
  {
    (heap - KERNEL_VIRT_BASE) / 4096 + i
  }

  function HeapDesc(heap: HeapBase, i: nat): u64
    requires i < MAX_PAGES
  {
    PageDesc(heap - KERNEL_VIRT_BASE + 4096 * i, HEAP_FLAGS)
  }

  lemma PtrPage(heap: HeapBase, i: nat)
    requires i < MAX_PAGES
    ensures PageOf(Ptr(heap, i)) == HeapPage(heap, i)
    ensures VaToPa(Ptr(heap, i)) == heap - KERNEL_VIRT_BASE + 4096 * i
    ensures PageFloor(VaToPa(Ptr(heap, i))) == VaToPa(Ptr(heap, i))
    ensures (Ptr(heap, i) - heap) / 4096 == i
  {
  }

  /** Heap page `j` lies in the run of `n` pages from page `i` exactly when its index does. */
  lemma RunOffset(heap: HeapBase, i: nat, j: nat)
    requires i < MAX_PAGES && j < MAX_PAGES
    ensures Offset(HeapPage(heap, j), HeapPage(heap, i)) == if i <= j then j - i else PAGES + j - i
  {
  }

  /** `n` pages from `i` are free. */
  predicate Free(s: seq<u8>, i: nat, n: nat) { i + n <= |s| && forall k :: i <= k < i + n ==> s[k] == 0 }

  /** The lowest free run of `n` pages at or after `i`, or -1. */
  function FirstFit(s: seq<u8>, n: nat, i: nat): (r: int)
    ensures r == -1 || (i <= r && Free(s, r, n))
    ensures forall j :: i <= j < (if r == -1 then |s| + 1 else r) ==> !Free(s, j, n)
    decreases |s| + 1 - i
  {
    if i + n > |s| then -1 else if Free(s, i, n) then i else FirstFit(s, n, i + 1)
  }

  /** `n` bytes of the bitmap from `i` set to `v`. */
  function Marked(s: seq<u8>, i: nat, n: nat, v: u8): (t: seq<u8>)
    requires i + n <= |s|
    ensures |t| == |s|
    ensures forall k :: 0 <= k < |s| ==> t[k] == if i <= k < i + n then v else s[k]
  {
    seq(|s|, k requires 0 <= k < |s| => if i <= k < i + n then v else s[k])
  }

  /** Bitmap and tables agree: a heap page is marked exactly when it is mapped, and then to itself. */
  ghost predicate Agree(heap: HeapBase, s: seq<u8>, flat: Flat) {
    && |s| == MAX_PAGES && |flat| == PAGES
    && forall i :: 0 <= i < MAX_PAGES ==> flat[HeapPage(heap, i)] == if s[i] != 0 then HeapDesc(heap, i) else 0
  }

  lemma DescAt(heap: HeapBase, i: nat, k: nat, pa: u64)
    requires i + k < MAX_PAGES && pa == VaToPa(Ptr(heap, i))
    ensures PageDesc(Add64(pa, 4096 * k), HEAP_FLAGS) == HeapDesc(heap, i + k)
  {
    PtrPage(heap, i);
    assert Add64(pa, 4096 * k) == heap - KERNEL_VIRT_BASE + 4096 * (i + k);
  }

  lemma AllocateAgrees(heap: HeapBase, s: seq<u8>, flat: Flat, i: nat, n: nat, pa: u64)
    requires Agree(heap, s, flat) && 0 < n && i + n <= MAX_PAGES && pa == VaToPa(Ptr(heap, i))
    ensures Agree(heap, Marked(s, i, n, 1), MapPages(flat, HeapPage(heap, i), n, pa, HEAP_FLAGS))
  {
    forall j | 0 <= j < MAX_PAGES
      ensures MapPages(flat, HeapPage(heap, i), n, pa, HEAP_FLAGS)[HeapPage(heap, j)]
        == if Marked(s, i, n, 1)[j] != 0 then HeapDesc(heap, j) else 0
    {
      RunOffset(heap, i, j);
      MapPagesAt(flat, HeapPage(heap, i), n, pa, HEAP_FLAGS, HeapPage(heap, j));
      if i <= j < i + n { DescAt(heap, i, j - i, pa); }
    }
  }

  predicate InRun(p: nat, first: nat, n: nat) { first <= p < first + n }

  /** The `n` page numbers from `first`. */
  ghost function Run(first: nat, n: nat): set<nat> { set p: nat | p < first + n && InRun(p, first, n) }

  lemma RunPages(heap: HeapBase, i: nat, n: nat)
    requires 0 < n && i + n <= MAX_PAGES
    ensures forall p: Page :: Offset(p, HeapPage(heap, i)) < n ==> p in Run(HeapPage(heap, i), n)
  {
  }

  /** The pages of a free run have no translation yet. */
  lemma FreeRunUnmapped(heap: HeapBase, s: seq<u8>, flat: Flat, i: nat, n: nat)
    requires Agree(heap, s, flat) && 0 < n && i + n <= MAX_PAGES && Free(s, i, n)
    ensures forall p: Page :: Offset(p, HeapPage(heap, i)) < n ==> flat[p] == 0
  {
    forall p: Page | Offset(p, HeapPage(heap, i)) < n
      ensures flat[p] == 0
    {
      var j := i + Offset(p, HeapPage(heap, i));
      assert p == HeapPage(heap, j);
    }
  }

  lemma FreeAgrees(heap: HeapBase, s: seq<u8>, flat: Flat, i: nat, n: nat)
    requires Agree(heap, s, flat) && i < MAX_PAGES && i + n <= MAX_PAGES
    ensures Agree(heap, Marked(s, i, n, 0), UnmapPages(flat, HeapPage(heap, i), n))
  {
    forall j | 0 <= j < MAX_PAGES
      ensures UnmapPages(flat, HeapPage(heap, i), n)[HeapPage(heap, j)]
        == if Marked(s, i, n, 0)[j] != 0 then HeapDesc(heap, j) else 0
    {
      RunOffset(heap, i, j);
      UnmapPagesAt(flat, HeapPage(heap, i), n, HeapPage(heap, j));
    }
  }
}
