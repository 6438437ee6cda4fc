/**
 * The map calls that boot makes before the scheduler starts: what they leave for the allocator is an unmapped
 * heap window and most of the table pool.
 */
module Boot {
  import opened Words
  import opened AddressSpace
  import opened HeapPages

  const POOL: nat := 32

  /** Attribute words: code, data and stack, device, UART, memory shared with the secure OS. */
  const TEXT: u64 := 0x0040_0000_0000_0704
  const DATA: u64 := 0x0060_0000_0000_0704
  const DEVICE: u64 := 0x0060_0000_0000_0600
  const UART: u64 := 0x0060_0000_0000_0648
  const SHARED: u64 := 0x0060_0000_0000_070C

  /** Physical addresses of `_kernel_start`, `_kernel_end` and `_kernel_stack`; the heap starts at the last. */
  datatype Layout = Layout(start: u64, end: u64, stack: u64)

  /** As the linker script places them: in RAM, image and stack within 2 MB. */
  predicate Placed(l: Layout) {
    && l.start % 4096 == 0 && l.stack % 4096 == 0
    && 0x4000_0000 <= l.start <= l.end <= l.stack <= 0x6000_0000
    && l.stack - l.start <= 0x20_0000
  }

  /** A region mapped in the user root, or else in the kernel root. */
  datatype Call = Call(user: bool, va: u64, pa: u64, size: nat, flags: u64)
  {
    function Base(): Page { PageOf(va) }

    function Count(): nat { Steps(size) }
  }

  /** The calls of `kernel_setup_mmu`, then that of `virtio_blk_init`. A single page is a region of one page. */
  function Calls(l: Layout): (cs: seq<Call>)
    requires Placed(l)
    ensures |cs| == 10
  {
    [ Call(true, l.start, l.start, l.end - l.start, TEXT),
      Call(false, l.start, l.start, l.end - l.start, TEXT),
      Call(true, l.end, l.end, l.stack - l.end, DATA),
      Call(false, l.end, l.end, l.stack - l.end, DATA),
      Call(false, KERNEL_VIRT_BASE + 0x0900_0000, 0x0900_0000, 4096, UART),
      Call(false, KERNEL_VIRT_BASE + 0x0800_0000, 0x0800_0000, 0x1_0000, DEVICE),
      Call(false, KERNEL_VIRT_BASE + 0x080A_0000, 0x080A_0000, 0x8_0000, DEVICE),
      Call(false, KERNEL_VIRT_BASE + 0x0808_0000, 0x0808_0000, 0x2_0000, DEVICE),
      Call(true, 0x4080_0000, 0x4080_0000, 0x20_0000, SHARED),
      Call(false, KERNEL_VIRT_BASE + 0x0A00_0000, 0x0A00_0000, 4096, DEVICE) ]
  }

  type FullView = v: View | |v.flat| == PAGES witness View(seq(PAGES, i => 0), {}, {})

  /** Both roots, and how many tables they have drawn. */
  datatype Roots = Roots(kernel: FullView, user: FullView, drawn: nat)

  function Mapped(v: FullView, c: Call): FullView { v.MappedRegion(c.Base(), c.Count(), PageFloor(c.pa), c.flags) }

  function Step(t: Roots, c: Call): Roots {
    if c.user then Roots(t.kernel, Mapped(t.user, c), t.drawn + t.user.TablesFor(c.Base(), c.Count()))
    else Roots(Mapped(t.kernel, c), t.user, t.drawn + t.kernel.TablesFor(c.Base(), c.Count()))
  }

  function Run(t: Roots, cs: seq<Call>): Roots {
    if cs == [] then t else Step(Run(t, cs[..|cs| - 1]), cs[|cs| - 1])
  }

  function Empty(): Roots {
    var v := View(seq(PAGES, i => 0), {}, {});
    Roots(v, v, 0)
  }

  // ---------------------------------------------------------------- tables

  /** Slots in which a root may have tables. */
  datatype Slots = Slots(gb: set<nat>, mb: set<nat>)

  ghost predicate Within(v: View, s: Slots) { v.l2 <= s.gb && v.l3 <= s.mb }

  ghost predicate CallWithin(c: Call, s: Slots) {
    Touched(c.Base(), c.Count(), GB1) <= s.gb && Touched(c.Base(), c.Count(), MB2) <= s.mb
  }

  ghost function TableCount(v: View): nat { |v.l2| + |v.l3| }

  lemma Grown(drawn: set<nat>, touched: set<nat>)
    ensures |drawn + touched| == |drawn| + |touched - drawn|
  {
  }

  lemma MappedCounts(v: FullView, c: Call, s: Slots)
    requires Within(v, s) && CallWithin(c, s)
    ensures Within(Mapped(v, c), s)
    ensures TableCount(Mapped(v, c)) == TableCount(v) + v.TablesFor(c.Base(), c.Count())
  {
    MappedRegionIs(v, c.Base(), c.Count(), PageFloor(c.pa), c.flags);
    TablesForIs(v, c.Base(), c.Count());
    Grown(v.l2, Touched(c.Base(), c.Count(), GB1));
    Grown(v.l3, Touched(c.Base(), c.Count(), MB2));
  }

  /** Tables are only drawn for the slots of the calls, once each. */
  lemma {:induction false} RunCounts(cs: seq<Call>, k: Slots, u: Slots)
    requires forall i :: 0 <= i < |cs| ==> CallWithin(cs[i], if cs[i].user then u else k)
    ensures var t := Run(Empty(), cs);
      Within(t.kernel, k) && Within(t.user, u) && t.drawn == TableCount(t.kernel) + TableCount(t.user)
  {
    if cs != [] {
      var t, c := Run(Empty(), cs[..|cs| - 1]), cs[|cs| - 1];
      RunCounts(cs[..|cs| - 1], k, u);
      if c.user { MappedCounts(t.user, c, u); } else { MappedCounts(t.kernel, c, k); }
    }
  }

  lemma SlotMonotone(x: nat, y: nat, u: Unit)
    requires x <= y
    ensures SlotOf(x, u) <= SlotOf(y, u)
  {
  }

  lemma {:induction false} TouchedRange(base: Page, n: nat, u: Unit, s: nat)
    requires base + n <= PAGES && s in Touched(base, n, u)
    ensures n > 0 && SlotOf(base, u) <= s <= SlotOf(base + n - 1, u)
  {
    assert PageAt(base, n - 1) == base + n - 1 by { PageAtIs(base, n - 1); }
    SlotMonotone(base, base + n - 1, u);
    if s in Touched(base, n - 1, u) {
      TouchedRange(base, n - 1, u, s);
      SlotMonotone(base + n - 2, base + n - 1, u);
    }
  }

  /** A call whose pages lie between two 2 MB slots of one 1 GB slot. */
  lemma CallRange(c: Call, s: Slots, lo: nat, hi: nat)
    requires c.Base() + c.Count() <= PAGES
    requires c.Count() > 0 ==> lo <= c.Base() / 512 && (c.Base() + c.Count() - 1) / 512 <= hi && lo / 512 == hi / 512
    requires lo / 512 in s.gb && forall m: nat :: lo <= m <= hi ==> m in s.mb
    ensures CallWithin(c, s)
  {
    var base, n := c.Base(), c.Count();
    forall m | m in Touched(base, n, MB2)
      ensures m in s.mb
    {
      TouchedRange(base, n, MB2, m);
    }
    forall g | g in Touched(base, n, GB1)
      ensures g in s.gb
    {
      TouchedRange(base, n, GB1, g);
      assert base / 0x4_0000 == base / 512 / 512 && (base + n - 1) / 0x4_0000 == (base + n - 1) / 512 / 512;
    }
  }

  /** The 2 MB slot where the image starts; it ends there or in the next. */
  function Slot(l: Layout): nat { l.start / 0x20_0000 }

  ghost function KernelSlots(l: Layout): Slots { Slots({0, 1}, {64, 72, 80, Slot(l), Slot(l) + 1}) }

  ghost function UserSlots(l: Layout): Slots { Slots({1}, {516, Slot(l), Slot(l) + 1}) }

  /** The two parts of the image. */
  lemma ImagePages(l: Layout)
    requires Placed(l)
    ensures var a, e, z := l.start / 4096, l.end / 4096, l.stack / 4096;
      && PageOf(l.start) == a && PageOf(l.end) == e && a <= e <= z < 0x6_0001
      && Steps(l.stack - l.end) == z - e
      && a <= a + Steps(l.end - l.start) <= e + 1 && e <= a + Steps(l.end - l.start) <= z
      && a / 512 == Slot(l) && (z > a ==> (z - 1) / 512 <= Slot(l) + 1)
      && 512 <= Slot(l) && Slot(l) + 1 < 1024
  {
  }

  lemma ImageWithin(l: Layout, c: Call, s: Slots)
    requires Placed(l) && (c == Calls(l)[0] || c == Calls(l)[1] || c == Calls(l)[2] || c == Calls(l)[3])
    requires 1 in s.gb && Slot(l) in s.mb && Slot(l) + 1 in s.mb
    ensures CallWithin(c, s)
  {
    ImagePages(l);
    CallRange(c, s, Slot(l), Slot(l) + 1);
  }

  /** Where the devices are. */
  lemma DevicePages(l: Layout)
    requires Placed(l)
    ensures var cs := Calls(l);
      && cs[4].Base() == 0x9000 && cs[4].Count() == 1 && cs[5].Base() == 0x8000 && cs[5].Count() == 16
      && cs[6].Base() == 0x80A0 && cs[6].Count() == 128 && cs[7].Base() == 0x8080 && cs[7].Count() == 32
      && cs[9].Base() == 0xA000 && cs[9].Count() == 1
  {
  }

  lemma DeviceWithin(l: Layout, i: nat, s: Slots)
    requires Placed(l) && 4 <= i < 10 && i != 8 && 0 in s.gb && 64 in s.mb && 72 in s.mb && 80 in s.mb
    ensures CallWithin(Calls(l)[i], s)
  {
    DevicePages(l);
    var m := if i == 4 then 72 else if i == 9 then 80 else 64;
    OneSlot(Calls(l)[i], s, m);
  }

  lemma OneSlot(c: Call, s: Slots, m: nat)
    requires c.Base() + c.Count() <= PAGES && c.Count() > 0
    requires m == c.Base() / 512 == (c.Base() + c.Count() - 1) / 512 && m / 512 in s.gb && m in s.mb
    ensures CallWithin(c, s)
  {
    CallRange(c, s, m, m);
  }

  lemma BootWithin(l: Layout, i: nat)
    requires Placed(l) && i < 10
    ensures CallWithin(Calls(l)[i], if Calls(l)[i].user then UserSlots(l) else KernelSlots(l))
  {
    var c := Calls(l)[i];
    if i < 4 { ImageWithin(l, c, if c.user then UserSlots(l) else KernelSlots(l)); }
    else if i == 8 { CallRange(c, UserSlots(l), 516, 516); }
    else { DeviceWithin(l, i, KernelSlots(l)); }
  }

  lemma SlotsCount(l: Layout)
    ensures |KernelSlots(l).gb| + |KernelSlots(l).mb| <= 7 && |UserSlots(l).gb| + |UserSlots(l).mb| <= 4
  {
  }

  /** After any of the calls, at least 21 of the 32 tables are left. */
  lemma PrefixDrawn(l: Layout, i: nat)
    requires Placed(l) && i <= 10
    ensures Run(Empty(), Calls(l)[..i]).drawn + 21 <= POOL
  {
    var cs, k, u := Calls(l)[..i], KernelSlots(l), UserSlots(l);
    forall j | 0 <= j < |cs|
      ensures CallWithin(cs[j], if cs[j].user then u else k)
    {
      BootWithin(l, j);
    }
    RunCounts(cs, k, u);
    CountBound(Run(Empty(), cs).kernel, k);
    CountBound(Run(Empty(), cs).user, u);
    SlotsCount(l);
  }

  /** So they are after boot: the reserve of four for stacks is there. */
  lemma BootTables(l: Layout)
    requires Placed(l)
    ensures Run(Empty(), Calls(l)).drawn + 21 <= POOL
  {
    PrefixDrawn(l, 10);
    assert Calls(l)[..10] == Calls(l);
  }

  lemma CountBound(v: View, s: Slots)
    requires Within(v, s)
    ensures TableCount(v) <= |s.gb| + |s.mb|
  {
    assert s.gb == v.l2 + (s.gb - v.l2);
    assert s.mb == v.l3 + (s.mb - v.l3);
  }

  // ---------------------------------------------------------------- translations

  /** The call is one of that root, and page `p` is in its region. */
  predicate Covers(c: Call, user: bool, p: Page) { c.user == user && Offset(p, c.Base()) < c.Count() }

  /** What a root has for page `p`. */
  function At(t: Roots, user: bool, p: Page): u64 { if user then t.user.flat[p] else t.kernel.flat[p] }

  lemma StepAt(t: Roots, c: Call, user: bool, p: Page)
    requires c.Count() <= PAGES
    ensures At(Step(t, c), user, p)
      == if Covers(c, user, p) then PageDesc(Add64(PageFloor(c.pa), 4096 * Offset(p, c.Base())), c.flags)
         else At(t, user, p)
  {
    var v := if user then t.user else t.kernel;
    if c.user == user {
      MappedRegionIs(v, c.Base(), c.Count(), PageFloor(c.pa), c.flags);
      MapPagesAt(v.flat, c.Base(), c.Count(), PageFloor(c.pa), c.flags, p);
    }
  }

  /** Calls that do not cover a page leave it as it was. */
  lemma {:induction false} RunUncovered(t: Roots, cs: seq<Call>, user: bool, p: Page)
    requires forall i :: 0 <= i < |cs| ==> cs[i].Count() <= PAGES && !Covers(cs[i], user, p)
    ensures At(Run(t, cs), user, p) == At(t, user, p)
  {
    if cs == [] {
    } else {
      RunUncovered(t, cs[..|cs| - 1], user, p);
      StepAt(Run(t, cs[..|cs| - 1]), cs[|cs| - 1], user, p);
    }
  }

  lemma SmallCalls(l: Layout, i: nat)
    requires Placed(l) && i < 10
    ensures Calls(l)[i].Count() <= PAGES
  {
  }

  /** No page from the end of the stack to the end of the heap window is mapped when the allocator starts. */
  lemma HeapUnmapped(l: Layout, i: nat)
    requires Placed(l) && i < MAX_PAGES
    ensures Run(Empty(), Calls(l)).kernel.flat[l.stack / 4096 + i] == 0
  {
    var p: Page := l.stack / 4096 + i;
    ImagePages(l);
    forall j | 0 <= j < 10
      ensures Calls(l)[j].Count() <= PAGES && !Covers(Calls(l)[j], false, p)
    {
      SmallCalls(l, j);
      if j >= 4 && j != 8 { DevicesBelow(l, j); }
      if !Calls(l)[j].user { Above(Calls(l)[j], p); }
    }
    RunUncovered(Empty(), Calls(l), false, p);
  }

  lemma Above(c: Call, p: Page)
    requires c.Base() + c.Count() <= p
    ensures !Covers(c, c.user, p)
  {
  }

  /** The last call that covers a page decides its descriptor. */
  lemma {:induction false} LastCover(t: Roots, cs: seq<Call>, j: nat, user: bool, p: Page)
    requires j < |cs| && Covers(cs[j], user, p) && forall i :: 0 <= i < |cs| ==> cs[i].Count() <= PAGES
    requires forall i :: j < i < |cs| ==> !Covers(cs[i], user, p)
    ensures At(Run(t, cs), user, p)
      == PageDesc(Add64(PageFloor(cs[j].pa), 4096 * Offset(p, cs[j].Base())), cs[j].flags)
  {
    var rest := cs[..|cs| - 1];
    StepAt(Run(t, rest), cs[|cs| - 1], user, p);
    if j == |rest| {
    } else {
      LastCover(t, rest, j, user, p);
    }
  }

  lemma DevicesBelow(l: Layout, i: nat)
    requires Placed(l) && 4 <= i < 10 && i != 8
    ensures Calls(l)[i].Base() + Calls(l)[i].Count() < 0x4_0000
  {
  }
}
