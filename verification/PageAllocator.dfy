/** `mm_allocate_pages` and `mm_free_pages`: first fit over the bitmap, mapping and unmapping as they go. */
module PageAllocator {
  import opened Words
  import opened AddressSpace
  import opened TableTree
  import opened PageTable
  import opened HeapPages

  class Allocator {
    const mmu: Mmu
    const heap: HeapBase
    const pages: array<u8>

    ghost predicate Valid()
      reads this, pages, mmu, mmu.mem
    {
      && mmu.Valid() && pages.Length == MAX_PAGES
      && Agree(heap, pages[..], mmu.KernelFlat())
      && Coherent(mmu.tlb, mmu.KernelFlat(), {})
    }

    /** Tables the kernel still has to draw to map `n` heap pages from page `i`. */
    ghost function TablesFor(i: nat, n: nat): nat
      requires i < MAX_PAGES
      reads mmu
    {
      mmu.tree.View(KernelRoot).TablesFor(HeapPage(heap, i), n)
    }

    constructor (mmu: Mmu, heap: HeapBase)
      requires mmu.Valid() && Coherent(mmu.tlb, mmu.KernelFlat(), {})
      requires forall i :: 0 <= i < MAX_PAGES ==> mmu.KernelFlat()[HeapPage(heap, i)] == 0
      ensures Valid() && fresh(pages) && this.mmu == mmu && this.heap == heap
      ensures pages[..] == seq(MAX_PAGES, i => 0)
    {
      this.mmu, this.heap := mmu, heap;
      pages := new u8[MAX_PAGES](i => 0);
    }

    /** The inner search loop: are `n` pages from `i` free? */
    method RunIsFree(i: nat, n: nat) returns (found: bool)
      requires i + n <= pages.Length
      ensures found <==> Free(pages[..], i, n)
    {
      found := true;
      var j := 0;
      while j < n
        invariant j <= n
        invariant found && forall k :: i <= k < i + j ==> pages[k] == 0
      {
        if pages[i + j] != 0 {
          found := false;
          assert pages[..][i + j] != 0;
          break;
        }
        j := j + 1;
      }
    }

    /** The outer search loop: the lowest free run. */
    method Search(n: nat) returns (r: int)
      requires n <= pages.Length
      ensures r == FirstFit(pages[..], n, 0)
    {
      var i := 0;
      while i <= pages.Length - n
        invariant i <= pages.Length - n + 1
        invariant FirstFit(pages[..], n, 0) == FirstFit(pages[..], n, i)
      {
        var found := RunIsFree(i, n);
        if found {
          return i;
        }
        i := i + 1;
      }
      return -1;
    }

    /** `pages[i .. i + n] = v` */
    method Mark(i: nat, n: nat, v: u8)
      requires i + n <= pages.Length
      modifies pages
      ensures pages[..] == Marked(old(pages[..]), i, n, v)
    {
      for j := 0 to n
        invariant forall k :: 0 <= k < pages.Length ==> pages[k] == if i <= k < i + j then v else old(pages[k])
      {
        pages[i + j] := v;
      }
    }

    /**
     * `mm_allocate_pages`: 0 when there is no free run, else the lowest free run, marked and mapped to
     * itself. Nothing has to be flushed: only pages without a translation gain one.
     */
    method AllocatePages(n: nat) returns (ptr: u64)
      requires Valid() && n <= MAX_PAGES
      requires var i := FirstFit(pages[..], n, 0);
        n > 0 && i >= 0 ==> mmu.poolPtr + TablesFor(i, n) <= mmu.capacity
      modifies pages, mmu`poolPtr, mmu`tree, mmu`tlb, mmu.mem
      ensures Valid() && mmu.tree.View(UserRoot) == old(mmu.tree.View(UserRoot))
      ensures var i := FirstFit(old(pages[..]), n, 0);
        if n == 0 || i == -1 then
          ptr == 0 && pages[..] == old(pages[..]) && mmu.tree == old(mmu.tree) && mmu.poolPtr == old(mmu.poolPtr)
        else
          && ptr == Ptr(heap, i) != 0
          && pages[..] == Marked(old(pages[..]), i, n, 1)
          && mmu.poolPtr == old(mmu.poolPtr) + old(TablesFor(i, n))
          && mmu.tree.View(KernelRoot)
             == old(mmu.tree.View(KernelRoot)).MappedRegion(HeapPage(heap, i), n, VaToPa(ptr), HEAP_FLAGS)
    {
      if n == 0 {
        return 0;
      }
      var i := Search(n);
      if i == -1 {
        return 0;
      }
      ptr := Take(i, n);
    }

    /** Mark and map the run that the search found. */
    method Take(i: nat, n: nat) returns (ptr: u64)
      requires Valid() && 0 < n && i + n <= MAX_PAGES && Free(pages[..], i, n)
      requires mmu.poolPtr + TablesFor(i, n) <= mmu.capacity
      modifies pages, mmu`poolPtr, mmu`tree, mmu`tlb, mmu.mem
      ensures Valid() && mmu.tree.View(UserRoot) == old(mmu.tree.View(UserRoot))
      ensures ptr == Ptr(heap, i) && pages[..] == Marked(old(pages[..]), i, n, 1)
      ensures mmu.poolPtr == old(mmu.poolPtr) + old(TablesFor(i, n))
      ensures mmu.tree.View(KernelRoot)
        == old(mmu.tree.View(KernelRoot)).MappedRegion(HeapPage(heap, i), n, VaToPa(ptr), HEAP_FLAGS)
    {
      Mark(i, n, 1);
      ptr := Ptr(heap, i);
      PtrPage(heap, i);
      FreeRunUnmapped(heap, old(pages[..]), mmu.KernelFlat(), i, n);
      AllocateAgrees(heap, old(pages[..]), mmu.KernelFlat(), i, n, VaToPa(ptr));
      MappedRegionIs(mmu.tree.View(KernelRoot), HeapPage(heap, i), n, VaToPa(ptr), HEAP_FLAGS);
      var size: nat := n * 4096;
      mmu.MapRegion(KernelRoot, ptr, VaToPa(ptr), size, HEAP_FLAGS, true, HeapPage(heap, i), n, {});
    }

    /**
     * `mm_free_pages`: the run is unmarked and unmapped, then every one of its pages is flushed, so no
     * stale translation survives. `mem_zero` writes through the mapping, hence the pages must be allocated.
     */
    method FreePages(ptr: u64, n: nat, ghost i: nat)
      requires Valid()
      requires ptr != 0 ==> i < MAX_PAGES && i + n <= MAX_PAGES && ptr == Ptr(heap, i)
      requires ptr != 0 ==> forall k :: i <= k < i + n ==> pages[k] != 0
      modifies pages, mmu`tree, mmu`tlb, mmu.mem
      ensures Valid() && mmu.tree.View(UserRoot) == old(mmu.tree.View(UserRoot))
      ensures ptr == 0 ==> pages[..] == old(pages[..]) && mmu.tree == old(mmu.tree)
      ensures ptr != 0 ==>
        && pages[..] == Marked(old(pages[..]), i, n, 0)
        && mmu.tree.View(KernelRoot) == old(mmu.tree.View(KernelRoot)).(
             flat := UnmapPages(old(mmu.KernelFlat()), HeapPage(heap, i), n))
    {
      if ptr == 0 {
        return;
      }
      assert (ptr - heap) / 4096 == i && PageOf(ptr) == HeapPage(heap, i) by { PtrPage(heap, i); }
      FreeAgrees(heap, pages[..], mmu.KernelFlat(), i, n);
      var index := (ptr - heap) / 4096;
      var size: nat := n * 4096;
      Mark(index, n, 0);
      ghost var first := HeapPage(heap, i);
      if n > 0 { RunPages(heap, i, n); }
      mmu.UnmapRegion(KernelRoot, ptr, size, true, first, n, Run(first, n));
      FlushRun(ptr, n, i);
    }

    /** The flush loop. */
    ghost method FlushRun(ptr: u64, n: nat, i: nat)
      requires mmu.Valid() && i < MAX_PAGES && i + n <= MAX_PAGES && ptr == Ptr(heap, i)
      requires Coherent(mmu.tlb, mmu.KernelFlat(), Run(HeapPage(heap, i), n))
      modifies mmu`tlb
      ensures mmu.Valid() && Coherent(mmu.tlb, mmu.KernelFlat(), {})
    {
      var first, k := HeapPage(heap, i), 0;
      while k < n
        invariant k <= n && mmu.Valid()
        invariant Coherent(mmu.tlb, mmu.KernelFlat(), Run(first + k, n - k))
      {
        PtrPage(heap, i + k);
        mmu.FlushPage(Ptr(heap, i + k), Run(first + k, n - k));
        assert Run(first + k, n - k) - {first + k} == Run(first + k + 1, n - k - 1);
        k := k + 1;
      }
      assert Run(first + n, 0) == {};
    }
  }
}
