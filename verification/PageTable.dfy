/**
 * The translation tables in memory, written in place.
 *
 * `mem` holds one row per table: rows below `capacity` are the pool, the two rows after it the level-1
 * roots. The kernel (32 tables, every entry of a drawn table cleared) and the secure OS (64 tables, where
 * `mem_zero(table, 512)` clears 512 bytes, hence 64 entries) differ in `capacity` and `cleared` only.
 */
module PageTable {
  import opened Words
  import opened AddressSpace
  import opened TableTree
  import opened Bits

  const INT_MAX: nat := 0x7FFF_FFFF

  /** A loop that adds 4096 to `i` while it is below `size` runs `Steps(size)` times. */
  lemma LoopEnd(i: nat, size: nat, k: nat)
    requires i == 4096 * k && k <= Steps(size)
    ensures i < size <==> k < Steps(size)
  {
  }

  /** With the sizes a region call accepts, the `int` loop counter does not overflow. */
  lemma NoOverflow(i: nat, size: nat)
    requires i < size <= 0x7FFF_F000
    ensures i + 4096 <= INT_MAX
  {
  }

  /** Whose tables: the kernel's, or the secure OS's. */
  datatype World = Kernel | Secure

  type PoolBase = a: nat | a % 4096 == 0 && a + 4096 * 64 <= TWO_32

  class Mmu {
    const world: World
    const poolPa: PoolBase       // physical address of the first pool table
    const mem: array2<u64>
    var poolPtr: nat
    ghost var tree: ForestTree   // what the tables mean
    ghost var tlb: Tlb           // last-level translations of the kernel root the hardware has cached

    /** Tables in the pool, and entries of a drawn table that the allocator clears. */
    const capacity: nat := if world == Kernel then 32 else 64
    const cleared: nat := if world == Kernel then 512 else 64

    predicate Layout() { mem.Length0 == capacity + 2 && mem.Length1 == 512 }

    function Row(b: Table): nat {
      match b
      case KernelRoot => capacity
      case UserRoot => capacity + 1
      case Pool(t) => t
    }

    /** Physical address of pool table `t`. */
    function Pa(t: nat): (a: u64)
      requires t < capacity
      ensures a % 4096 == 0 && a + 4096 <= TWO_32
    {
      poolPa + 4096 * t
    }

    /** Where the CPU reaches physical address `a`: moved up by the kernel offset once translation is on. */
    static function Pointer(a: u64, virt: bool): u64 { if virt then PaToVa(a) else a }

    /** The descriptor stored for pool table `t`; with translation on, the pointer goes through VA_TO_PA. */
    function TableDesc(t: nat, virt: bool): (d: u64)
      requires t < capacity
      ensures d == Pa(t) + 3
    {
      var table := Pointer(Pa(t), virt);
      VaPaInverse(Pa(t));
      Or3(if virt then VaToPa(table) else table)
    }

    /** The pool row behind the pointer that the code makes from descriptor `e`. */
    function Deref(e: u64, virt: bool): int {
      var table := Pointer(PageFloor(e), virt);
      ((if virt then VaToPa(table) else table) - poolPa) / 4096
    }

    lemma DerefTable(t: nat, virt: bool)
      requires t < capacity
      ensures Deref(Pa(t) + 3, virt) == t
    {
    }

    /** The word that entry `i` of table `b` must hold. */
    ghost function Word(b: Table, i: nat): u64
      requires |tree.owner| <= capacity
      reads this
    {
      var e := Entry(b, i);
      if e in tree.child then Pa(tree.child[e]) + 3 else if e in tree.leaf then tree.leaf[e] else 0
    }

    predicate Drawn(b: Table)
      reads this
    {
      b.IsRoot() || b.t < poolPtr
    }

    ghost predicate Valid()
      reads this, mem
    {
      && Layout() && poolPtr == |tree.owner| <= capacity
      && (forall b: Table, i: nat :: Drawn(b) && i < 512 ==> mem[Row(b), i] == Word(b, i))
      && (forall t: nat, i: nat :: poolPtr <= t < capacity && cleared <= i < 512 ==> mem[t, i] == 0)
    }

    /** The hardware walk: follow physical table addresses while the valid bit is set. */
    ghost function MemWalk(r: Table, x: Path): u64
      requires Layout() && r.IsRoot() && x.i1 < 512 && x.i2 < 512 && x.i3 < 512
      reads this, mem
    {
      var e1 := mem[Row(r), x.i1];
      var l2 := Deref(e1, false);
      if e1 % 2 == 0 || !(0 <= l2 < capacity) then 0 else
      var e2 := mem[l2, x.i2];
      var l3 := Deref(e2, false);
      if e2 % 2 == 0 || !(0 <= l3 < capacity) then 0 else
      mem[l3, x.i3]
    }

    /** What the walk reads in an inner table. */
    lemma InnerWord(b: Table, i: nat)
      requires Valid() && tree.IsInner(b) && i < 512
      ensures Drawn(b)
      ensures Entry(b, i) !in tree.child ==> mem[Row(b), i] == 0
      ensures Entry(b, i) in tree.child ==>
        mem[Row(b), i] % 2 == 1 && Deref(mem[Row(b), i], false) == tree.child[Entry(b, i)] < poolPtr
    {
    }

    /** What the hardware finds in memory is what the tree says. */
    lemma MemWalkIsWalk(r: Table, x: Path)
      requires Valid() && r.IsRoot() && x.i1 < 512 && x.i2 < 512 && x.i3 < 512
      ensures MemWalk(r, x) == tree.Walk(r, x)
    {
      InnerWord(r, x.i1);
      if tree.HasL2(r, x) {
        var l2 := tree.child[L1Entry(r, x)];
        assert tree.owner[l2] == L1Entry(r, x);
        InnerWord(Pool(l2), x.i2);
        if tree.HasL3(r, x) {
          LeafWord(r, x);
        }
      }
    }

    lemma LeafWord(r: Table, x: Path)
      requires Valid() && r.IsRoot() && tree.HasL3(r, x) && x.i3 < 512
      ensures Drawn(tree.LeafEntry(r, x).table)
      ensures mem[tree.child[tree.L2Entry(r, x)], x.i3] == tree.Walk(r, x)
    {
      var l3 := tree.LeafEntry(r, x).table;
      assert tree.owner[l3.t] == tree.L2Entry(r, x) && tree.IsL3(l3);
      assert Drawn(l3) && mem[Row(l3), x.i3] == Word(l3, x.i3);
    }

    /**
     * Boot: the pool and the roots are zero (`.bss`, and `kernel_setup_mmu` clears `kernel_l1`), nothing is drawn.
     */
    constructor (world: World, poolPa: PoolBase)
      ensures Valid() && fresh(mem) && poolPtr == 0 && tree == EMPTY && tlb == map[]
      ensures this.world == world && this.poolPa == poolPa
      ensures capacity == (if world == Kernel then 32 else 64) && cleared == (if world == Kernel then 512 else 64)
      ensures forall r: Table, x: Path :: tree.Walk(r, x) == 0
    {
      this.world, this.poolPa := world, poolPa;
      mem := new u64[(if world == Kernel then 32 else 64) + 2, 512]((i, j) => 0);
      poolPtr := 0;
      tree := EMPTY;
      tlb := map[];
    }

    /** `allocate_table` / `see_alloc_table`: the row drawn; `capacity` stands for the null pointer. */
    method AllocateTable() returns (t: nat)
      requires Layout() && poolPtr <= capacity
      modifies mem, this`poolPtr
      ensures t == old(poolPtr)
      ensures poolPtr == old(poolPtr) + (if old(poolPtr) < capacity then 1 else 0)
      ensures forall f: nat, i: nat :: f < mem.Length0 && i < 512 ==>
        mem[f, i] == if f == t < capacity && i < cleared then 0 else old(mem[f, i])
    {
      if poolPtr >= capacity {
        return capacity;
      }
      t := poolPtr;
      poolPtr := poolPtr + 1;
      for i := 0 to cleared
        invariant poolPtr == old(poolPtr) + 1
        invariant forall f: nat, j: nat :: f < mem.Length0 && j < 512 ==>
          mem[f, j] == if f == t && j < i then 0 else old(mem[f, j])
      {
        mem[t, i] := 0;
      }
    }

    /** A newly drawn table is put behind entry `i` of row `row`. */
    method PutTable(row: nat, i: nat, virt: bool)
      requires Layout() && poolPtr < capacity && row < mem.Length0 && i < 512
      modifies this`poolPtr, mem
      ensures poolPtr == old(poolPtr) + 1 && mem[row, i] == Pa(old(poolPtr)) + 3
      ensures forall f: nat, j: nat :: f < mem.Length0 && j < 512 && !(f == row && j == i) ==>
        mem[f, j] == if f == old(poolPtr) && j < cleared then 0 else old(mem[f, j])
    {
      var table := AllocateTable();
      mem[row, i] := TableDesc(table, virt);
    }

    /** Entry `i` of table `b`, which points nowhere, is made to point to a newly drawn table. */
    method LinkTable(row: nat, i: nat, virt: bool, ghost b: Table)
      requires Valid() && row == Row(b) && tree.IsInner(b) && i < 512
      requires Entry(b, i) !in tree.child && poolPtr < capacity
      modifies this`poolPtr, this`tree, mem
      ensures Valid() && tree == old(tree).Linked(Entry(b, i))
    {
      LinkedForest(tree, Entry(b, i));
      PutTable(row, i, virt);
      tree := tree.Linked(Entry(b, i));
      forall c: Table, j: nat | Drawn(c) && j < 512
        ensures mem[Row(c), j] == Word(c, j)
      {
        if c != Pool(old(poolPtr)) {
          assert old(mem[Row(c), j] == Word(c, j));
          assert Entry(c, j) != Entry(b, i) ==> mem[Row(c), j] == old(mem[Row(c), j]);
        } else {
          assert Entry(c, j) !in tree.child && Entry(c, j) !in tree.leaf;
        }
      }
    }

    /** An inner entry is tested and followed. */
    method Follow(row: nat, i: nat, virt: bool, ghost b: Table) returns (linked: bool, t: nat)
      requires Valid() && row == Row(b) && tree.IsInner(b) && i < 512
      ensures linked <==> Entry(b, i) in tree.child
      ensures linked ==> t == tree.child[Entry(b, i)]
    {
      InnerWord(b, i);
      linked, t := mem[row, i] % 2 == 1, 0;
      if linked {
        assert mem[row, i] == Word(b, i);
        DerefTable(tree.child[Entry(b, i)], virt);
        t := Deref(mem[row, i], virt);
      }
    }

    /** One level of a map call: follow entry `i` of table `b`, drawing a table first if it is empty. */
    method Descend(row: nat, i: nat, virt: bool, ghost b: Table) returns (t: nat)
      requires Valid() && row == Row(b) && tree.IsInner(b) && i < 512
      requires Entry(b, i) in tree.child || poolPtr < capacity
      modifies this`poolPtr, this`tree, mem
      ensures Valid() && tree == old(tree).Linked(Entry(b, i)) && t == tree.child[Entry(b, i)]
    {
      var linked;
      linked, t := Follow(row, i, virt, b);
      if !linked {
        LinkTable(row, i, virt, b);
        linked, t := Follow(row, i, virt, b);
      }
    }

    /** Entry `i` of level-3 table `b` is written. */
    method StoreLeaf(row: nat, i: nat, d: u64, ghost b: Table)
      requires Valid() && row == Row(b) && tree.IsL3(b) && i < 512 && (d == 0 || d % 4 == 3)
      modifies this`tree, mem
      ensures Valid() && tree == old(tree).Stored(Entry(b, i), d)
    {
      assert Drawn(b);
      StoredForest(tree, Entry(b, i), d);
      mem[row, i] := d;
      tree := tree.Stored(Entry(b, i), d);
      forall c: Table, j: nat | Drawn(c) && j < 512
        ensures mem[Row(c), j] == Word(c, j)
      {
        if Entry(c, j) == Entry(b, i) {
          assert Entry(b, i) !in tree.child;
        } else {
          assert Row(c) != row || j != i;
          assert old(mem[Row(c), j] == Word(c, j));
        }
      }
    }

    /** The three levels of a page map: tables are drawn where they are missing, and the descriptor is stored. */
    method WritePage(r: Table, va: u64, pa: u64, flags: u64, virt: bool)
      requires Valid() && r.IsRoot()
      requires poolPtr + tree.View(r).Cost(PageOf(va)) <= capacity
      modifies this`poolPtr, this`tree, mem
      ensures Valid() && tree == old(tree).Mapped(r, PathOf(PageOf(va)), PageDesc(pa, flags))
      ensures poolPtr == old(poolPtr) + old(tree.View(r)).Cost(PageOf(va))
    {
      ghost var x := PathOf(PageOf(va));
      Indices(va);
      CostIs(tree, r, PageOf(va));
      BothLinked(tree, r, x);
      MappedForest(tree, r, PageOf(va), PageDesc(pa, flags));
      var vaAddr := va % TWO_32;
      var l1Idx := vaAddr / 0x4000_0000 % 512;
      var l2Idx := vaAddr / 0x20_0000 % 512;
      var l3Idx := vaAddr / 4096 % 512;
      var l2 := Descend(Row(r), l1Idx, virt, r);
      var l3 := Descend(l2, l2Idx, virt, Pool(l2));
      StoreLeaf(l3, l3Idx, PageDesc(pa, flags), Pool(l3));
    }

    /** What the hardware walk finds for a page that was mapped last. */
    lemma MappedBits(r: Table, va: u64, pa: u64, flags: u64, before: ForestTree)
      requires Valid() && r.IsRoot() && tree == before.Mapped(r, PathOf(PageOf(va)), PageDesc(pa, flags))
      ensures DescBits(MemWalk(r, PathOf(PageOf(va))), pa, flags)
    {
      var x := PathOf(PageOf(va));
      MappedWalk(before, r, x, PageDesc(pa, flags), r, x);
      MemWalkIsWalk(r, x);
      PageDescBits(pa, flags);
    }

    /**
     * `map_page_4k` and `see_map_page` (translation off, `virt` false) and `map_page_virtual` (`virt` true).
     */
    method MapPage(r: Table, va: u64, pa: u64, flags: u64, virt: bool)
      requires Valid() && r.IsRoot()
      requires poolPtr + tree.View(r).Cost(PageOf(va)) <= capacity
      modifies this`poolPtr, this`tree, mem
      ensures Valid() && tree == old(tree).Mapped(r, PathOf(PageOf(va)), PageDesc(pa, flags))
      ensures poolPtr == old(poolPtr) + old(tree.View(r)).Cost(PageOf(va))
      ensures DescBits(MemWalk(r, PathOf(PageOf(va))), pa, flags)
    {
      WritePage(r, va, pa, flags, virt);
      MappedBits(r, va, pa, flags, old(tree));
    }

    /** The loop body of `unmap_region` and `unmap_region_virtual`. */
    method UnmapPage(r: Table, va: u64, virt: bool)
      requires Valid() && r.IsRoot()
      modifies this`tree, mem
      ensures Valid() && poolPtr == old(poolPtr) && tree == old(tree).Cleared(r, PathOf(PageOf(va)))
    {
      ghost var x := PathOf(PageOf(va));
      Indices(va);
      ClearedForest(tree, r, PageOf(va));
      var vaAddr := va % TWO_32;
      var l1Idx := vaAddr / 0x4000_0000 % 512;
      var linked, l2 := Follow(Row(r), l1Idx, virt, r);
      if !linked {
        return;
      }
      assert tree.owner[l2] == L1Entry(r, x);
      var l2Idx := vaAddr / 0x20_0000 % 512;
      var l3;
      linked, l3 := Follow(l2, l2Idx, virt, Pool(l2));
      if !linked {
        return;
      }
      assert tree.owner[l3] == tree.L2Entry(r, x);
      var l3Idx := vaAddr / 4096 % 512;
      StoreLeaf(l3, l3Idx, 0, Pool(l3));
    }

    ghost function KernelFlat(): (f: Flat)
      reads this
      ensures |f| == PAGES
    {
      tree.View(KernelRoot).flat
    }

    /** The hardware runs: cached translations come and go. */
    ghost method Speculate(allow: set<nat>)
      requires Valid() && Coherent(tlb, KernelFlat(), allow)
      modifies this`tlb
      ensures Valid() && TlbStep(old(tlb), tlb, KernelFlat()) && Coherent(tlb, KernelFlat(), allow)
    {
      assert TlbStep(tlb, tlb, KernelFlat());
      var cached: Tlb :| TlbStep(tlb, cached, KernelFlat());
      TlbStepCoherent(tlb, cached, KernelFlat(), allow);
      tlb := cached;
    }

    /** What may be cached: nothing while translation is off, else nothing stale outside `allow`. */
    ghost predicate Cached(virt: bool, allow: set<nat>)
      reads this
    {
      if virt then Coherent(tlb, KernelFlat(), allow) else tlb == map[]
    }

    /** Nothing of root `r` in the region is translated yet, or else it may be stale. */
    ghost predicate Allowed(r: Table, f: Flat, base: Page, n: nat, virt: bool, allow: set<nat>)
      requires |f| == PAGES
    {
      virt && r == KernelRoot ==> forall p: Page :: Offset(p, base) < n && f[p] != 0 ==> p in allow
    }

    /** One step of a region map, with the hardware running beside it; only pages of `allow` may be stale. */
    method MapStep(r: Table, va: u64, pa: u64, flags: u64, virt: bool, ghost allow: set<nat>)
      requires Valid() && r.IsRoot()
      requires poolPtr + tree.View(r).Cost(PageOf(va)) <= capacity
      requires Cached(virt, allow)
      requires virt && r == KernelRoot && KernelFlat()[PageOf(va)] != 0 ==> PageOf(va) in allow
      modifies this`poolPtr, this`tree, this`tlb, mem
      ensures Valid() && poolPtr == old(poolPtr) + old(tree.View(r)).Cost(PageOf(va))
      ensures tree.View(r) == old(tree.View(r)).Mapped(PageOf(va), PageDesc(pa, flags))
      ensures tree.View(Other(r)) == old(tree.View(Other(r)))
      ensures Cached(virt, allow)
    {
      MappedView(tree, r, PageOf(va), PageDesc(pa, flags), r);
      MappedView(tree, r, PageOf(va), PageDesc(pa, flags), Other(r));
      if virt && r == KernelRoot { StoreCoherent(tlb, KernelFlat(), PageOf(va), PageDesc(pa, flags), allow); }
      MapPage(r, va, pa, flags, virt);
      if virt { Speculate(allow); }
    }

    /** Step `k` of a region map that began with view `v` of its root. */
    method MapNext(r: Table, va: u64, i: nat, pa: u64, flags: u64, virt: bool, ghost base: Page,
                   ghost v: View, ghost k: nat, ghost n: nat, ghost allow: set<nat>)
      requires Valid() && r.IsRoot() && |v.flat| == PAGES && k < n <= PAGES && i == 4096 * k
      requires PageOf(Add64(va, i)) == PageAt(base, k)
      requires tree.View(r) == v.MappedRegion(base, k, pa, flags)
      requires poolPtr + v.TablesFor(base, n) <= capacity + v.RegionCost(base, k, pa, flags)
      requires Cached(virt, allow)
      requires Allowed(r, v.flat, base, n, virt, allow)
      modifies this`poolPtr, this`tree, this`tlb, mem
      ensures Valid() && tree.View(r) == v.MappedRegion(base, k + 1, pa, flags)
      ensures poolPtr - v.RegionCost(base, k + 1, pa, flags) == old(poolPtr) - v.RegionCost(base, k, pa, flags)
      ensures tree.View(Other(r)) == old(tree.View(Other(r)))
      ensures Cached(virt, allow)
    {
      RegionStepFlat(v, base, k, pa, flags);
      RegionStepCost(v, base, k, n, pa, flags);
      MapStep(r, Add64(va, i), Add64(pa, i), flags, virt, allow);
    }

    /** The loop of a region map. */
    method WriteRegion(r: Table, vaStart: u64, paStart: u64, size: u64, flags: u64, virt: bool,
                       ghost base: Page, ghost n: nat, ghost allow: set<nat>)
      requires Valid() && r.IsRoot() && size <= 0x7FFF_F000
      requires base == PageOf(vaStart) && n == Steps(size)
      requires poolPtr + tree.View(r).TablesFor(base, n) <= capacity
      requires Cached(virt, allow)
      requires Allowed(r, tree.View(r).flat, base, n, virt, allow)
      modifies this`poolPtr, this`tree, this`tlb, mem
      ensures Valid() && poolPtr == old(poolPtr) + old(tree.View(r)).TablesFor(base, n)
      ensures tree.View(r) == old(tree.View(r)).MappedRegion(base, n, PageFloor(paStart), flags)
      ensures tree.View(Other(r)) == old(tree.View(Other(r)))
      ensures Cached(virt, allow)
    {
      var va := PageFloor(vaStart);
      var pa := PageFloor(paStart);
      var i: nat := 0;
      ghost var k: nat := 0;
      ghost var v := tree.View(r);
      assert v.RegionCost(base, n, pa, flags) == v.TablesFor(base, n) by { RegionCostIs(v, base, n, pa, flags); }
      while i < size
        invariant i == 4096 * k && k <= n && Valid()
        invariant poolPtr == old(poolPtr) + v.RegionCost(base, k, pa, flags)
        invariant tree.View(r) == v.MappedRegion(base, k, pa, flags)
        invariant tree.View(Other(r)) == old(tree.View(Other(r)))
        invariant Cached(virt, allow)
      {
        assert k < n by { LoopEnd(i, size, k); }
        assert PageOf(Add64(va, i)) == PageAt(base, k) by { RegionAddress(vaStart, i, k); }
        MapNext(r, va, i, pa, flags, virt, base, v, k, n, allow);
        assert i + 4096 <= INT_MAX by { NoOverflow(i, size); }
        i, k := i + 4096, k + 1;
      }
      assert k == n by { LoopEnd(i, size, k); }
    }

    /** What the hardware walk finds after a region map: the page's own descriptor in the region, else as before. */
    lemma RegionBits(r: Table, pa: u64, flags: u64, before: View, base: Page, n: nat, p: Page)
      requires Valid() && r.IsRoot() && |before.flat| == PAGES && n <= PAGES
      requires tree.View(r) == before.MappedRegion(base, n, pa, flags)
      ensures if Offset(p, base) < n then DescBits(MemWalk(r, PathOf(p)), Add64(pa, 4096 * Offset(p, base)), flags)
              else MemWalk(r, PathOf(p)) == before.flat[p]
    {
      MemWalkIsWalk(r, PathOf(p));
      MappedRegionIs(before, base, n, pa, flags);
      MapPagesAt(before.flat, base, n, pa, flags, p);
      PageDescBits(Add64(pa, 4096 * Offset(p, base)), flags);
    }

    /**
     * `map_region`, `see_map_region` (`virt` false) and `map_region_virtual` (`virt` true): the `n` pages from
     * `base`, which is the page of `vaStart`, mapped to consecutive pages from that of `paStart`.
     */
    method MapRegion(r: Table, vaStart: u64, paStart: u64, size: u64, flags: u64, virt: bool,
                     ghost base: Page, ghost n: nat, ghost allow: set<nat>)
      requires Valid() && r.IsRoot() && size <= 0x7FFF_F000
      requires base == PageOf(vaStart) && n == Steps(size)
      requires poolPtr + tree.View(r).TablesFor(base, n) <= capacity
      requires Cached(virt, allow)
      requires Allowed(r, tree.View(r).flat, base, n, virt, allow)
      modifies this`poolPtr, this`tree, this`tlb, mem
      ensures Valid() && poolPtr == old(poolPtr) + old(tree.View(r)).TablesFor(base, n)
      ensures tree.View(r) == old(tree.View(r)).MappedRegion(base, n, PageFloor(paStart), flags)
      ensures tree.View(Other(r)) == old(tree.View(Other(r)))
      ensures Cached(virt, allow)
      ensures forall p: Page ::
        if Offset(p, base) < n
        then DescBits(MemWalk(r, PathOf(p)), Add64(PageFloor(paStart), 4096 * Offset(p, base)), flags)
        else MemWalk(r, PathOf(p)) == old(MemWalk(r, PathOf(p)))
    {
      ghost var before := tree.View(r);
      forall p: Page
        ensures MemWalk(r, PathOf(p)) == before.flat[p]
      {
        MemWalkIsWalk(r, PathOf(p));
      }
      WriteRegion(r, vaStart, paStart, size, flags, virt, base, n, allow);
      forall p: Page
        ensures if Offset(p, base) < n
          then DescBits(MemWalk(r, PathOf(p)), Add64(PageFloor(paStart), 4096 * Offset(p, base)), flags)
          else MemWalk(r, PathOf(p)) == before.flat[p]
      {
        RegionBits(r, PageFloor(paStart), flags, before, base, n, p);
      }
    }

    /** One step of a region unmap, with the hardware running beside it. */
    method UnmapStep(r: Table, va: u64, virt: bool, ghost allow: set<nat>)
      requires Valid() && r.IsRoot() && Cached(virt, allow)
      requires virt && r == KernelRoot && KernelFlat()[PageOf(va)] != 0 ==> PageOf(va) in allow
      modifies this`tree, this`tlb, mem
      ensures Valid() && tree.View(r) == old(tree.View(r)).(flat := old(tree.View(r)).flat[PageOf(va) := 0])
      ensures tree.View(Other(r)) == old(tree.View(Other(r)))
      ensures Cached(virt, allow)
    {
      ClearedView(tree, r, PageOf(va), r);
      ClearedView(tree, r, PageOf(va), Other(r));
      if virt && r == KernelRoot { StoreCoherent(tlb, KernelFlat(), PageOf(va), 0, allow); }
      UnmapPage(r, va, virt);
      if virt { Speculate(allow); }
    }

    /**
     * `unmap_region` (`virt` false) and `unmap_region_virtual` (`virt` true): the `n` pages from `base`, the
     * page of `vaStart`, which need not be aligned.
     */
    method UnmapRegion(r: Table, vaStart: u64, size: u64, virt: bool,
                       ghost base: Page, ghost n: nat, ghost allow: set<nat>)
      requires Valid() && r.IsRoot() && size <= TWO_64 - 4096
      requires base == PageOf(vaStart) && n == Steps(size)
      requires Cached(virt, allow)
      requires Allowed(r, tree.View(r).flat, base, n, virt, allow)
      modifies this`tree, this`tlb, mem
      ensures Valid() && tree.View(r) == old(tree.View(r)).(flat := UnmapPages(old(tree.View(r)).flat, base, n))
      ensures tree.View(Other(r)) == old(tree.View(Other(r)))
      ensures Cached(virt, allow)
    {
      var i: u64 := 0;
      ghost var k: nat := 0;
      ghost var v := tree.View(r);
      while i < size
        invariant i == 4096 * k && k <= n && Valid()
        invariant tree.View(r) == v.(flat := UnmapPages(v.flat, base, k))
        invariant tree.View(Other(r)) == old(tree.View(Other(r)))
        invariant Cached(virt, allow)
      {
        assert k < n by { LoopEnd(i, size, k); }
        assert PageOf(Add64(vaStart, i)) == PageAt(base, k) by { RegionAddress(vaStart, i, k); }
        UnmapStepFlat(v.flat, base, k, n);
        UnmapStep(r, Add64(vaStart, i), virt, allow);
        i, k := i + 4096, k + 1;
      }
      assert k == n by { LoopEnd(i, size, k); }
    }

    /** `tlb_flush_page_el1`, with the hardware running again afterwards. */
    ghost method FlushPage(va: u64, allow: set<nat>)
      requires Valid() && Coherent(tlb, KernelFlat(), allow)
      modifies this`tlb
      ensures Valid() && Coherent(tlb, KernelFlat(), allow - {PageOf(va)})
    {
      FlushCoherent(tlb, KernelFlat(), PageOf(va), allow);
      tlb := Flushed(tlb, PageOf(va));
      Speculate(allow - {PageOf(va)});
    }
  }
}
