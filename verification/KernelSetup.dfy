/** Boot on the tables in memory, and that it meets what allocator and scheduler start from. */
module KernelSetup {
  import opened AddressSpace
  import opened TableTree
  import opened PageTable
  import opened Boot

  /** The tables are those after the calls that led to `t`. */
  ghost predicate Holds(mmu: Mmu, t: Roots)
    reads mmu, mmu.mem
  {
    && mmu.Valid() && mmu.world == Kernel
    && mmu.tree.View(KernelRoot) == t.kernel && mmu.tree.View(UserRoot) == t.user && mmu.poolPtr == t.drawn
  }

  lemma {:induction false} PrefixStep(t: Roots, cs: seq<Call>, i: nat)
    requires i < |cs|
    ensures Run(t, cs[..i + 1]) == Step(Run(t, cs[..i]), cs[i])
  {
    assert cs[..i + 1][..i] == cs[..i];
  }

  /** One map call while translation is off. */
  method MapOff(mmu: Mmu, c: Call, ghost t: Roots)
    requires Holds(mmu, t) && Step(t, c).drawn <= POOL && c.size <= 0x7FFF_F000 && mmu.tlb == map[]
    modifies mmu`poolPtr, mmu`tree, mmu`tlb, mmu.mem
    ensures Holds(mmu, Step(t, c)) && mmu.tlb == map[]
  {
    mmu.MapRegion(if c.user then UserRoot else KernelRoot, c.va, c.pa, c.size, c.flags, false, c.Base(), c.Count(), {});
  }

  /** One map call in the kernel root, over unmapped pages, after translation was turned on. */
  method MapOn(mmu: Mmu, c: Call, ghost t: Roots)
    requires Holds(mmu, t) && Step(t, c).drawn <= POOL && c.size <= 0x7FFF_F000 && mmu.tlb == map[] && !c.user
    requires forall p: Page :: Offset(p, c.Base()) < c.Count() ==> t.kernel.flat[p] == 0
    modifies mmu`poolPtr, mmu`tree, mmu`tlb, mmu.mem
    ensures Holds(mmu, Step(t, c)) && Coherent(mmu.tlb, mmu.KernelFlat(), {})
  {
    mmu.MapRegion(KernelRoot, c.va, c.pa, c.size, c.flags, true, c.Base(), c.Count(), {});
  }

  /** Call `i` leads from state `i` to the next, within the loops' reach and the pool. */
  ghost predicate Leads(ts: seq<Roots>, cs: seq<Call>, i: nat)
    requires i < |cs| < |ts|
  {
    ts[i + 1] == Step(ts[i], cs[i]) && cs[i].size <= 0x7FFF_F000 && ts[i + 1].drawn <= POOL
  }

  ghost predicate Follow(ts: seq<Roots>, cs: seq<Call>) {
    |ts| == |cs| + 1 && forall i: nat :: i < |cs| ==> Leads(ts, cs, i)
  }

  /** The states that boot goes through. */
  ghost function States(l: Layout): (ts: seq<Roots>)
    requires Placed(l)
    ensures |ts| == 11
  {
    seq(11, i requires 0 <= i < 11 => Run(Empty(), Calls(l)[..i]))
  }

  lemma StatesFollow(l: Layout)
    requires Placed(l)
    ensures Follow(States(l), Calls(l))
  {
    forall i: nat | i < 10
      ensures Leads(States(l), Calls(l), i)
    {
      StateLeads(l, i);
    }
  }

  lemma StateLeads(l: Layout, i: nat)
    requires Placed(l) && i < 10
    ensures Leads(States(l), Calls(l), i)
  {
    assert States(l)[i + 1] == Step(States(l)[i], Calls(l)[i]) by { PrefixStep(Empty(), Calls(l), i); }
    assert States(l)[i + 1].drawn <= POOL by { PrefixDrawn(l, i + 1); }
  }

  /** The first `i` calls are done, and nothing is cached. */
  ghost predicate Reached(mmu: Mmu, ts: seq<Roots>, i: nat)
    requires i < |ts|
    reads mmu, mmu.mem
  {
    Holds(mmu, ts[i]) && mmu.tlb == map[]
  }

  /** The `i`-th of the calls. */
  method MapNth(mmu: Mmu, cs: seq<Call>, i: nat, ghost ts: seq<Roots>)
    requires i < |cs| && Follow(ts, cs) && Reached(mmu, ts, i)
    modifies mmu`poolPtr, mmu`tree, mmu`tlb, mmu.mem
    ensures Reached(mmu, ts, i + 1)
  {
    assert Leads(ts, cs, i);
    MapOff(mmu, cs[i], ts[i]);
  }

  /** Two calls, for both parts of the image or both roots. */
  method MapTwo(mmu: Mmu, cs: seq<Call>, i: nat, ghost ts: seq<Roots>)
    requires i + 1 < |cs| && Follow(ts, cs) && Reached(mmu, ts, i)
    modifies mmu`poolPtr, mmu`tree, mmu`tlb, mmu.mem
    ensures Reached(mmu, ts, i + 2)
  {
    MapNth(mmu, cs, i, ts);
    MapNth(mmu, cs, i + 1, ts);
  }

  /** Four calls: image and stack, or the devices. */
  method MapFour(mmu: Mmu, cs: seq<Call>, i: nat, ghost ts: seq<Roots>)
    requires i + 3 < |cs| && Follow(ts, cs) && Reached(mmu, ts, i)
    modifies mmu`poolPtr, mmu`tree, mmu`tlb, mmu.mem
    ensures Reached(mmu, ts, i + 4)
  {
    MapTwo(mmu, cs, i, ts);
    MapTwo(mmu, cs, i + 2, ts);
  }

  /** `kernel_setup_mmu`: image, stack, then devices and the memory shared with the secure OS. */
  method MapSetup(mmu: Mmu, cs: seq<Call>, ghost ts: seq<Roots>)
    requires |cs| == 10 && Follow(ts, cs) && Reached(mmu, ts, 0)
    modifies mmu`poolPtr, mmu`tree, mmu`tlb, mmu.mem
    ensures Reached(mmu, ts, 9)
  {
    MapFour(mmu, cs, 0, ts);   // image, then stack, in the user root and the kernel root
    MapFour(mmu, cs, 4, ts);   // UART, distributor, redistributors, ITS
    MapNth(mmu, cs, 8, ts);    // shared memory, in the user root
  }

  lemma FirstAndLast(l: Layout)
    requires Placed(l)
    ensures States(l)[0] == Empty() && States(l)[10] == Run(Empty(), Calls(l))
  {
    assert Calls(l)[..0] == [] && Calls(l)[..10] == Calls(l);
  }

  /** The page of the virtio device has no translation before its call. */
  lemma VirtioUnmapped(l: Layout, p: Page)
    requires Placed(l) && Offset(p, Calls(l)[9].Base()) < Calls(l)[9].Count()
    ensures States(l)[9].kernel.flat[p] == 0
  {
    forall i | 0 <= i < 9
      ensures Calls(l)[i].Count() <= PAGES && !Covers(Calls(l)[i], false, p)
    {
      SmallCalls(l, i);
      VirtioUncovered(l, i, p);
    }
    RunUncovered(Empty(), Calls(l)[..9], false, p);
  }

  lemma VirtioUncovered(l: Layout, i: nat, p: Page)
    requires Placed(l) && i < 9 && Offset(p, Calls(l)[9].Base()) < Calls(l)[9].Count()
    ensures !Covers(Calls(l)[i], false, p)
  {
    DevicePages(l);
    ImagePages(l);
  }

  /** Call 9, that of `virtio_blk_init`. */
  method MapVirtio(mmu: Mmu, cs: seq<Call>, ghost ts: seq<Roots>)
    requires |cs| == 10 && Follow(ts, cs) && Reached(mmu, ts, 9) && !cs[9].user
    requires forall p: Page :: Offset(p, cs[9].Base()) < cs[9].Count() ==> ts[9].kernel.flat[p] == 0
    modifies mmu`poolPtr, mmu`tree, mmu`tlb, mmu.mem
    ensures Holds(mmu, ts[10]) && Coherent(mmu.tlb, mmu.KernelFlat(), {})
  {
    assert Leads(ts, cs, 9);
    MapOn(mmu, cs[9], ts[9]);
  }

  /** The mapping part of `kernel_setup_mmu` with translation off, then the call of `virtio_blk_init` with it on. */
  method SetupMmu(mmu: Mmu, l: Layout)
    requires Placed(l) && Holds(mmu, Empty()) && mmu.tlb == map[]
    modifies mmu`poolPtr, mmu`tree, mmu`tlb, mmu.mem
    ensures Holds(mmu, Run(Empty(), Calls(l))) && Coherent(mmu.tlb, mmu.KernelFlat(), {})
  {
    StatesFollow(l);
    FirstAndLast(l);
    forall p: Page | Offset(p, Calls(l)[9].Base()) < Calls(l)[9].Count()
      ensures States(l)[9].kernel.flat[p] == 0
    {
      VirtioUnmapped(l, p);
    }
    MapSetup(mmu, Calls(l), States(l));
    MapVirtio(mmu, Calls(l), States(l));
  }
}
