/** Boot meets what the allocator and the scheduler start from. */
module BootReady {
  import opened Words
  import opened AddressSpace
  import opened TableTree
  import opened PageTable
  import opened Boot
  import opened KernelSetup
  import HeapPages
  import PageAllocator
  import Scheduler
  import StackMemory
  import Stacks
  import Tasks

  /** Boot starts on zeroed memory. */
  lemma BootStart(mmu: Mmu)
    requires mmu.Valid() && mmu.world == Kernel && mmu.tree == EMPTY && mmu.poolPtr == 0
    ensures Holds(mmu, Empty())
  {
    NoTables(KernelRoot);
    NoTables(UserRoot);
  }

  lemma NoTables(r: Table)
    ensures EMPTY.View(r) == View(seq(PAGES, i => 0), {}, {})
  {
  }

  /** Where the heap begins: behind the stack, in the kernel's half. */
  function HeapBegin(l: Layout): HeapPages.HeapBase
    requires Placed(l)
  {
    KERNEL_VIRT_BASE + l.stack
  }

  lemma HeapPageIs(l: Layout, i: nat)
    requires Placed(l) && i < HeapPages.MAX_PAGES
    ensures HeapPages.HeapPage(HeapBegin(l), i) == l.stack / 4096 + i
  {
  }

  /** After boot the allocator finds its window unmapped. */
  lemma WindowUnmapped(mmu: Mmu, l: Layout, i: nat)
    requires Placed(l) && i < HeapPages.MAX_PAGES && Holds(mmu, Run(Empty(), Calls(l)))
    ensures mmu.KernelFlat()[HeapPages.HeapPage(HeapBegin(l), i)] == 0
  {
    HeapUnmapped(l, i);
    HeapPageIs(l, i);
  }

  /** After boot the stacks of any run find their tables. */
  lemma ReserveLeft(mmu: Mmu, l: Layout)
    requires Placed(l) && Holds(mmu, Run(Empty(), Calls(l)))
    ensures mmu.poolPtr + Stacks.Reserve(HeapBegin(l), mmu.tree.View(KernelRoot)) <= mmu.capacity
  {
    assert mmu.poolPtr + 21 <= mmu.capacity by { BootTables(l); }
    Stacks.ReserveBound(HeapBegin(l), mmu.tree.View(KernelRoot));
  }

  lemma WindowAllUnmapped(mmu: Mmu, l: Layout)
    requires Placed(l) && Holds(mmu, Run(Empty(), Calls(l)))
    ensures forall i :: 0 <= i < HeapPages.MAX_PAGES ==> mmu.KernelFlat()[HeapPages.HeapPage(HeapBegin(l), i)] == 0
  {
    forall i | 0 <= i < HeapPages.MAX_PAGES
      ensures mmu.KernelFlat()[HeapPages.HeapPage(HeapBegin(l), i)] == 0
    {
      WindowUnmapped(mmu, l, i);
    }
  }

  /** From reset to `init_sched`: tables, allocator, stacks and scheduler, one on the other. */
  method StartKernel(poolPa: PoolBase, l: Layout) returns (kernel: Scheduler.Kernel)
    requires Placed(l)
    ensures fresh(kernel) && kernel.Valid() && kernel.model == Tasks.Init()
    ensures fresh(kernel.tasks) && fresh(kernel.next)
    ensures fresh(kernel.readyQ) && fresh(kernel.sleepQ) && fresh(kernel.zombieQ)
    ensures var a := kernel.memory.allocator; fresh(a.pages) && fresh(a.mmu) && fresh(a.mmu.mem)
    ensures kernel.memory.allocator.mmu.poolPtr + 21 <= POOL
  {
    var mmu := new Mmu(World.Kernel, poolPa);
    BootStart(mmu);
    SetupMmu(mmu, l);
    WindowAllUnmapped(mmu, l);
    var allocator := new PageAllocator.Allocator(mmu, HeapBegin(l));
    ReserveLeft(mmu, l);
    BootTables(l);
    var memory := new StackMemory.Memory(allocator);
    kernel := new Scheduler.Kernel(memory);
  }
}
