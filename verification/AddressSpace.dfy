/**
 * Address spaces as flat maps from page number to descriptor, the regions the code maps and unmaps in
 * them, and the translation cache that follows them.
 */
module AddressSpace {
  import opened Words

  const PAGES: nat := 0x10_0000

  type Page = p: nat | p < PAGES

  /** The page number a virtual address selects: bits 31 to 12. */
  function PageOf(va: u64): Page {
    va % TWO_32 / 4096
  }

  /** The level-3 descriptor written for physical address `pa`. */
  function PageDesc(pa: u64, flags: u64): (d: u64)
    ensures d % 4 == 3
  {
    Or3(Or64(PageFloor(pa), flags))
  }

  /** The three table indices cut from a virtual address are those of its page number. */
  lemma Indices(va: u64)
    ensures var p := PageOf(va);
      && va % TWO_32 / 0x4000_0000 % 512 == p / 0x4_0000
      && va % TWO_32 / 0x20_0000 % 512 == p / 512 % 512
      && va % TWO_32 / 4096 % 512 == p % 512
  {
  }

  /** The `k`-th page after `base`, wrapping at 4 GB. */
  function PageAt(base: Page, k: nat): Page {
    if k == 0 then base
    else
      var p := PageAt(base, k - 1);
      if p == PAGES - 1 then 0 else p + 1
  }

  lemma {:induction false} PageAtIs(base: Page, k: nat)
    ensures PageAt(base, k) == (base + k) % PAGES
  {
    if k == 0 {
    } else {
      PageAtIs(base, k - 1);
      SuccMod(base + k - 1);
    }
  }

  lemma SuccMod(x: nat)
    ensures (x + 1) % PAGES == if x % PAGES == PAGES - 1 then 0 else x % PAGES + 1
  {
  }

  /** Place of page `p` in a region that starts at page `base`. */
  function Offset(p: Page, base: Page): Page { (p - base) % PAGES }

  lemma OffsetAt(q: Page, base: Page, k: nat)
    requires k < PAGES
    ensures Offset(q, base) == k <==> q == PageAt(base, k)
  {
    PageAtIs(base, k);
  }

  lemma PageOfQuotient(x: nat)
    ensures x % TWO_32 / 4096 == x / 4096 % PAGES
  {
    var a, b := x / TWO_32, x % TWO_32;
    assert x == TWO_32 * a + b;
    assert x / 4096 == PAGES * a + b / 4096;
  }

  /** Wrapping at 2^64 does not show in the lower 32 bits. */
  lemma LowBits(y: nat)
    ensures y % TWO_64 % TWO_32 == y % TWO_32
  {
    var q, r := y / TWO_64, y % TWO_64;
    assert y == TWO_64 * q + r;
    assert y == TWO_32 * (TWO_32 * q + r / TWO_32) + r % TWO_32;
  }

  lemma ModAdd(a: nat, k: nat)
    ensures (a + k) % PAGES == (a % PAGES + k) % PAGES
  {
    assert a == PAGES * (a / PAGES) + a % PAGES;
  }

  /** The k-th step of a region loop touches the k-th page after the first. */
  lemma PageStep(va: u64, k: nat)
    requires 4096 * k < TWO_64
    ensures PageOf(Add64(va, 4096 * k)) == (PageOf(va) + k) % PAGES
  {
    LowBits(va + 4096 * k);
    PageOfQuotient(va + 4096 * k);
    assert (va + 4096 * k) / 4096 == va / 4096 + k;
    PageOfQuotient(va);
    ModAdd(va / 4096, k);
  }

  /** It does so from an unaligned start as well. */
  lemma FloorPage(va: u64)
    ensures PageOf(PageFloor(va)) == PageOf(va)
  {
    PageOfQuotient(va);
    PageOfQuotient(PageFloor(va));
  }

  lemma RegionAddress(va: u64, i: nat, k: nat)
    requires i == 4096 * k < TWO_64
    ensures PageOf(Add64(PageFloor(va), i)) == PageAt(PageOf(va), k) == PageOf(Add64(va, i))
  {
    FloorPage(va);
    PageStep(va, k);
    PageStep(PageFloor(va), k);
    PageAtIs(PageOf(va), k);
  }

  /** Number of 4 KB steps of a loop over `size` bytes. */
  function Steps(size: nat): nat { (size + 4095) / 4096 }

  /** The two sizes of slot that need a table of their own. */
  datatype Unit = GB1 | MB2

  function SlotOf(p: nat, u: Unit): nat { if u == GB1 then p / 0x4_0000 else p / 512 }

  /** The slots met by `n` pages from `base`. */
  function Touched(base: Page, n: nat, u: Unit): set<nat> {
    if n == 0 then {} else Touched(base, n - 1, u) + {SlotOf(PageAt(base, n - 1), u)}
  }

  /** How many of those slots are new, met one page after the other. */
  function CountNew(base: Page, n: nat, u: Unit, drawn: set<nat>): nat {
    if n == 0 then 0
    else CountNew(base, n - 1, u, drawn)
         + (if SlotOf(PageAt(base, n - 1), u) in drawn + Touched(base, n - 1, u) then 0 else 1)
  }

  lemma {:induction false} CountNewIs(base: Page, n: nat, u: Unit, drawn: set<nat>)
    ensures CountNew(base, n, u, drawn) == |Touched(base, n, u) - drawn|
  {
    if n == 0 {
      assert Touched(base, 0, u) - drawn == {};
    } else {
      CountNewIs(base, n - 1, u, drawn);
      NewCount(Touched(base, n - 1, u), SlotOf(PageAt(base, n - 1), u), drawn);
    }
  }

  lemma NewCount(t: set<nat>, x: nat, drawn: set<nat>)
    ensures |t + {x} - drawn| == |t - drawn| + (if x in drawn + t then 0 else 1)
  {
    if x in drawn || x in t {
      assert (t + {x}) - drawn == t - drawn;
    } else {
      assert (t + {x}) - drawn == (t - drawn) + {x};
    }
  }

  /** Consecutive pages enter a new slot only at its first page, so few slots are new. */
  lemma {:induction false} CountNewBound(base: Page, n: nat, u: Unit, drawn: set<nat>)
    requires n >= 1
    ensures CountNew(base, n, u, drawn) <= 1 + SlotOf(base + n - 1, u) - SlotOf(base, u)
  {
    if n <= 1 {
    } else {
      CountNewBound(base, n - 1, u, drawn);
      SameSlot(base + n - 2, u);
      PageAtIs(base, n - 1);
      PageAtIs(base, n - 2);
    }
  }

  lemma SameSlot(x: nat, u: Unit)
    ensures SlotOf(x + 1, u) == SlotOf(x, u) ==> SlotOf((x + 1) % PAGES, u) == SlotOf(x % PAGES, u)
    ensures SlotOf(x, u) <= SlotOf(x + 1, u) <= SlotOf(x, u) + 1
  {
    SlotDigits(x);
    SlotDigits(x + 1);
    SuccMod(x);
  }

  lemma SlotDigits(x: nat)
    ensures x / 0x4_0000 == 4 * (x / PAGES) + x % PAGES / 0x4_0000
    ensures x / 512 == 2048 * (x / PAGES) + x % PAGES / 512
  {
  }

  /** An address space: for every page its descriptor, 0 when there is none. */
  type Flat = seq<u64>

  function MapPages(f: Flat, base: Page, n: nat, pa: u64, flags: u64): (g: Flat)
    requires |f| == PAGES
    ensures |g| == PAGES
  {
    if n == 0 then f
    else MapPages(f, base, n - 1, pa, flags)
         [PageAt(base, n - 1) := PageDesc(Add64(pa, 4096 * (n - 1)), flags)]
  }

  function UnmapPages(f: Flat, base: Page, n: nat): (g: Flat)
    requires |f| == PAGES
    ensures |g| == PAGES
  {
    if n == 0 then f else UnmapPages(f, base, n - 1)[PageAt(base, n - 1) := 0]
  }

  /** Exactly the pages at offset below `n` are set, each to its own physical page. */
  lemma {:induction false} MapPagesAt(f: Flat, base: Page, n: nat, pa: u64, flags: u64, q: Page)
    requires n <= PAGES == |f|
    ensures MapPages(f, base, n, pa, flags)[q]
      == if Offset(q, base) < n then PageDesc(Add64(pa, 4096 * Offset(q, base)), flags) else f[q]
  {
    if n == 0 {
    } else {
      OffsetAt(q, base, n - 1);
      MapPagesAt(f, base, n - 1, pa, flags, q);
    }
  }

  /** Exactly the pages at offset below `n` are cleared. */
  lemma {:induction false} UnmapPagesAt(f: Flat, base: Page, n: nat, q: Page)
    requires |f| == PAGES
    ensures UnmapPages(f, base, n)[q] == if Offset(q, base) < n then 0 else f[q]
  {
    if n == 0 {
    } else {
      if n <= PAGES { OffsetAt(q, base, n - 1); }
      UnmapPagesAt(f, base, n - 1, q);
    }
  }

  /** Unmapping what was just mapped over unmapped pages restores the address space. */
  lemma UnmapUndoesMap(f: Flat, base: Page, n: nat, pa: u64, flags: u64)
    requires n <= PAGES == |f|
    requires forall q: Page :: Offset(q, base) < n ==> f[q] == 0
    ensures UnmapPages(MapPages(f, base, n, pa, flags), base, n) == f
  {
    var g := MapPages(f, base, n, pa, flags);
    forall q: Page
      ensures UnmapPages(g, base, n)[q] == f[q]
    {
      MapPagesAt(f, base, n, pa, flags, q);
      UnmapPagesAt(g, base, n, q);
    }
  }

  /** What one root looks like: its translations, its 1 GB slots and its 2 MB slots that have a table. */
  datatype View = View(flat: Flat, l2: set<nat>, l3: set<nat>)
  {
    /** Tables to be drawn before page `p` can be mapped. */
    function Cost(p: Page): nat { (if SlotOf(p, GB1) in l2 then 0 else 1) + (if SlotOf(p, MB2) in l3 then 0 else 1) }

    function Mapped(p: Page, d: u64): (v: View)
      requires p < |flat|
      ensures |v.flat| == |flat|
    {
      View(flat[p := d], l2 + {SlotOf(p, GB1)}, l3 + {SlotOf(p, MB2)})
    }

    function MappedRegion(base: Page, n: nat, pa: u64, flags: u64): (v: View)
      requires |flat| == PAGES
      ensures |v.flat| == PAGES
    {
      if n == 0 then this
      else MappedRegion(base, n - 1, pa, flags)
           .Mapped(PageAt(base, n - 1), PageDesc(Add64(pa, 4096 * (n - 1)), flags))
    }

    /** Tables drawn while `n` pages from `base` are mapped one after the other. */
    function RegionCost(base: Page, n: nat, pa: u64, flags: u64): nat
      requires |flat| == PAGES
    {
      if n == 0 then 0
      else RegionCost(base, n - 1, pa, flags) + MappedRegion(base, n - 1, pa, flags).Cost(PageAt(base, n - 1))
    }

    /** The touched slots that have no table yet. */
    function TablesFor(base: Page, n: nat): nat { CountNew(base, n, GB1, l2) + CountNew(base, n, MB2, l3) }
  }

  lemma TablesForIs(v: View, base: Page, n: nat)
    ensures v.TablesFor(base, n) == |Touched(base, n, GB1) - v.l2| + |Touched(base, n, MB2) - v.l3|
  {
    CountNewIs(base, n, GB1, v.l2);
    CountNewIs(base, n, MB2, v.l3);
  }

  /** Where a region is mapped already, mapping it again needs no table. */
  lemma RemapNeedsNone(v: View, base: Page, n: nat, pa: u64, flags: u64)
    requires |v.flat| == PAGES
    ensures v.MappedRegion(base, n, pa, flags).TablesFor(base, n) == 0
  {
    var w := v.MappedRegion(base, n, pa, flags);
    MappedRegionIs(v, base, n, pa, flags);
    TablesForIs(w, base, n);
    assert Touched(base, n, GB1) - w.l2 == {} && Touched(base, n, MB2) - w.l3 == {};
  }

  /** A region call sets exactly its pages and gives a table to exactly the slots it touches. */
  lemma {:induction false} MappedRegionIs(v: View, base: Page, n: nat, pa: u64, flags: u64)
    requires |v.flat| == PAGES
    ensures v.MappedRegion(base, n, pa, flags)
      == View(MapPages(v.flat, base, n, pa, flags), v.l2 + Touched(base, n, GB1), v.l3 + Touched(base, n, MB2))
  {
    if n == 0 {
      assert v.l2 + {} == v.l2 && v.l3 + {} == v.l3;
    } else {
      MappedRegionIs(v, base, n - 1, pa, flags);
      var p := PageAt(base, n - 1);
      UnionAssoc(v.l2, Touched(base, n - 1, GB1), SlotOf(p, GB1));
      UnionAssoc(v.l3, Touched(base, n - 1, MB2), SlotOf(p, MB2));
    }
  }

  /** It draws exactly one table for each touched slot that had none. */
  lemma {:induction false} RegionCostIs(v: View, base: Page, n: nat, pa: u64, flags: u64)
    requires |v.flat| == PAGES
    ensures v.RegionCost(base, n, pa, flags) == v.TablesFor(base, n)
  {
    if n == 0 {
    } else {
      RegionCostIs(v, base, n - 1, pa, flags);
      MappedRegionIs(v, base, n - 1, pa, flags);
    }
  }

  lemma {:induction false} RegionCostGrows(v: View, base: Page, m: nat, n: nat, pa: u64, flags: u64)
    requires |v.flat| == PAGES && m <= n
    ensures v.RegionCost(base, m, pa, flags) <= v.RegionCost(base, n, pa, flags)
    decreases n - m
  {
    if m == n {
    } else {
      RegionCostGrows(v, base, m + 1, n, pa, flags);
    }
  }

  /** Step `k` of a region map finds its page as the call found it, and enough tables for it. */
  lemma RegionStepFlat(v: View, base: Page, k: nat, pa: u64, flags: u64)
    requires |v.flat| == PAGES && k < PAGES
    ensures v.MappedRegion(base, k, pa, flags).flat[PageAt(base, k)] == v.flat[PageAt(base, k)]
    ensures Offset(PageAt(base, k), base) == k
  {
    OffsetAt(PageAt(base, k), base, k);
    MapPagesAt(v.flat, base, k, pa, flags, PageAt(base, k));
    MappedRegionIs(v, base, k, pa, flags);
  }

  lemma RegionStepCost(v: View, base: Page, k: nat, n: nat, pa: u64, flags: u64)
    requires |v.flat| == PAGES && k < n
    ensures v.RegionCost(base, k, pa, flags) + v.MappedRegion(base, k, pa, flags).Cost(PageAt(base, k))
      <= v.TablesFor(base, n)
  {
    RegionCostGrows(v, base, k + 1, n, pa, flags);
    RegionCostIs(v, base, n, pa, flags);
  }

  lemma UnmapStepFlat(f: Flat, base: Page, k: nat, n: nat)
    requires |f| == PAGES && k < n
    ensures var d := UnmapPages(f, base, k)[PageAt(base, k)]; d == 0 || d == f[PageAt(base, k)]
    ensures Offset(PageAt(base, k), base) < n
  {
    if k < PAGES { OffsetAt(PageAt(base, k), base, k); }
    UnmapPagesAt(f, base, k, PageAt(base, k));
  }

  lemma UnionAssoc(a: set<nat>, b: set<nat>, x: nat)
    ensures a + b + {x} == a + (b + {x})
  {
  }

  /** Cached last-level translations; the hardware never caches an invalid descriptor. */
  ghost predicate TlbValid(tlb: map<nat, u64>) { forall p :: p in tlb ==> tlb[p] != 0 }

  type Tlb = tlb: map<nat, u64> | TlbValid(tlb) ghost witness map[]

  /** One hardware step of the cache: drop anything, add anything the walk now finds. */
  ghost predicate TlbStep(before: Tlb, after: Tlb, walk: Flat) {
    forall p :: p in after ==>
      (p in before && after[p] == before[p]) || (p < |walk| && walk[p] != 0 && after[p] == walk[p])
  }

  /** Outside the pages `allow`, whatever is cached is what the tables say. */
  ghost predicate Coherent(tlb: Tlb, walk: Flat, allow: set<nat>) {
    forall p :: p in tlb && p !in allow ==> p < |walk| && tlb[p] == walk[p]
  }

  /** Whatever was cached, the hardware may next hold any selection of valid translations. */
  lemma CacheAny(before: Tlb, after: Tlb, walk: Flat)
    requires forall p :: p in after ==> p < |walk| && after[p] == walk[p]
    ensures TlbStep(before, after, walk)
  {
  }

  lemma TlbStepCoherent(before: Tlb, after: Tlb, walk: Flat, allow: set<nat>)
    requires Coherent(before, walk, allow) && TlbStep(before, after, walk)
    ensures Coherent(after, walk, allow)
  {
  }

  /** A TLB maintenance instruction drops one page, whatever was cached for it. */
  ghost function Flushed(tlb: Tlb, p: nat): (t: Tlb) { map q | q in tlb && q != p :: tlb[q] }

  lemma FlushCoherent(tlb: Tlb, walk: Flat, p: nat, allow: set<nat>)
    requires Coherent(tlb, walk, allow)
    ensures Coherent(Flushed(tlb, p), walk, allow - {p})
  {
  }

  /** Writing a descriptor can make only its own page stale, and only if that page had a translation. */
  lemma StoreCoherent(tlb: Tlb, walk: Flat, p: nat, d: u64, allow: set<nat>)
    requires p < |walk| && Coherent(tlb, walk, allow) && (walk[p] != 0 ==> p in allow)
    ensures Coherent(tlb, walk[p := d], allow)
  {
  }

  /** Mapping `n` contiguous pages never draws more tables than this. */
  lemma TablesBound(v: View, base: Page, n: nat)
    requires n >= 1
    ensures v.TablesFor(base, n) <= (n + 1022) / 512 + (n + 524286) / 262144
  {
    CountNewBound(base, n, GB1, v.l2);
    CountNewBound(base, n, MB2, v.l3);
    assert 1 + (base + n - 1) / 512 - base / 512 <= (n + 1022) / 512;
    assert 1 + (base + n - 1) / 0x4_0000 - base / 0x4_0000 <= (n + 524286) / 262144;
  }
}
