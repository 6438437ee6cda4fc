/** Where the stacks of tasks come from: the page allocator, with enough tables in reserve for all of them. */
module StackMemory {
  import opened Words
  import opened AddressSpace
  import opened TableTree
  import opened HeapPages
  import opened PageAllocator
  import opened Tasks
  import opened Stacks

  class Memory {
    const allocator: Allocator
    ghost const budget: nat      // tables drawn at the start, and those that stacks may still draw

    /** At the start, with tables for the whole window left. */
    constructor (allocator: Allocator)
      requires allocator.Valid()
      requires var v := allocator.mmu.tree.View(KernelRoot);
        allocator.mmu.poolPtr + Reserve(allocator.heap, v) <= allocator.mmu.capacity
      ensures this.allocator == allocator && Holds(allocator.pages[..])
      ensures budget <= allocator.mmu.poolPtr + 4
    {
      this.allocator := allocator;
      budget := allocator.mmu.poolPtr + Reserve(allocator.heap, allocator.mmu.tree.View(KernelRoot));
      ReserveBound(allocator.heap, allocator.mmu.tree.View(KernelRoot));
    }

    ghost function KernelView(): (v: View)
      reads this, allocator, allocator.mmu
    {
      allocator.mmu.tree.View(KernelRoot)
    }

    /** Bitmap `pages`, mapped as it says, and exactly the tables of the budget drawn or in reserve. */
    ghost predicate Holds(pages: Bitmap)
      reads this, allocator, allocator.pages, allocator.mmu, allocator.mmu.mem
    {
      && allocator.Valid() && allocator.pages[..] == pages
      && allocator.mmu.poolPtr + Reserve(allocator.heap, KernelView()) == budget <= allocator.mmu.capacity
    }

    /** `mm_allocate_pages` where first fit finds run `i` in the window of stacks. */
    method AllocateAt(ghost pages: Bitmap, ghost i: nat) returns (ptr: u64)
      requires Holds(pages) && i == FirstFit(pages, STACK_PAGES, 0) && i + STACK_PAGES <= WINDOW
      modifies allocator.pages, allocator.mmu`poolPtr, allocator.mmu`tree, allocator.mmu`tlb, allocator.mmu.mem
      ensures ptr == Ptr(allocator.heap, i) && Holds(Marked(pages, i, STACK_PAGES, 1))
    {
      ReserveDrawn(allocator.heap, KernelView(), i, VaToPa(Ptr(allocator.heap, i)));
      ptr := allocator.AllocatePages(STACK_PAGES);
    }

    /** `mm_allocate_pages` for a task that found slot `e`: it cannot fail. The result is the first page's index. */
    method AllocateStack(ghost tasks: Pool, ghost pages: Bitmap, ghost e: nat) returns (r: int)
      requires Holds(pages) && Owned(tasks, pages) && 1 <= e < MAX_TASKS && tasks[e].state.Empty?
      modifies allocator.pages, allocator.mmu`poolPtr, allocator.mmu`tree, allocator.mmu`tlb, allocator.mmu.mem
      ensures r == FirstFit(pages, STACK_PAGES, 0) && 0 <= r < WINDOW && Holds(StackPages(pages, r, 1))
    {
      assert var i := FirstFit(pages, STACK_PAGES, 0); 0 <= i && i + STACK_PAGES <= WINDOW by {
        StackFound(tasks, pages, e);
      }
      ghost var i := FirstFit(pages, STACK_PAGES, 0);
      var ptr := AllocateAt(pages, i);
      assert (Ptr(allocator.heap, i) - allocator.heap) / 4096 == i by { PtrPage(allocator.heap, i); }
      r := (ptr - allocator.heap) / 4096;
    }

    /** `mm_free_pages` of a stack. */
    method FreeStack(r: int, ghost pages: Bitmap)
      requires Holds(pages) && 0 <= r && r + STACK_PAGES <= MAX_PAGES
      requires forall k :: r <= k < r + STACK_PAGES ==> pages[k] != 0
      modifies allocator.pages, allocator.mmu`tree, allocator.mmu`tlb, allocator.mmu.mem
      ensures Holds(StackPages(pages, r, 0))
    {
      var ptr := Ptr(allocator.heap, r);
      allocator.FreePages(ptr, STACK_PAGES, r);
    }
  }
}
