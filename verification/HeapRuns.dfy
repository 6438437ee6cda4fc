/** Whole runs of the page allocator: any sequence of allocations and of frees of what they returned. */
module HeapRuns {
  import opened Words
  import opened Bits
  import opened AddressSpace
  import opened HeapPages

  /** The descriptor of a heap page holds its own physical address, the heap's attributes and the valid bits. */
  lemma HeapDescIs(heap: HeapBase, i: nat)
    requires i < MAX_PAGES
    ensures HeapDesc(heap, i) == VaToPa(Ptr(heap, i)) + HEAP_FLAGS + 3
  {
    PtrPage(heap, i);
    DescSum(VaToPa(Ptr(heap, i)), 3, 0x704, HEAP_FLAGS);
  }

  // ---------------------------------------------------------------- runs

  type Space = f: Flat | |f| == PAGES witness seq(PAGES, i => 0)

  datatype Op = Allocate(n: nat) | Release(i: nat)

  /** Bitmap and kernel translations, with the runs handed out and not yet returned, by first index. */
  datatype Heap = Heap(pages: Bitmap, flat: Space, live: map<nat, nat>)

  /**
   * What `AllocatePages` and `FreePages` do to a heap. A request is for at most MAX_PAGES pages; a free returns
   * a run that is live, with its length.
   */
  ghost predicate Step(base: HeapBase, h: Heap, op: Op, t: Heap)
  {
    match op
    case Allocate(n) =>
      && n <= MAX_PAGES
      && var i := FirstFit(h.pages, n, 0);
      if n == 0 || i == -1 then t == h
      else t == Heap(Marked(h.pages, i, n, 1), MapPages(h.flat, HeapPage(base, i), n, VaToPa(Ptr(base, i)), HEAP_FLAGS),
                     h.live[i := n])
    case Release(i) =>
      && i in h.live && 0 < h.live[i] && i + h.live[i] <= MAX_PAGES
      && t == Heap(Marked(h.pages, i, h.live[i], 0), UnmapPages(h.flat, HeapPage(base, i), h.live[i]), h.live - {i})
  }

  /** The view that `AllocatePages` leaves is that of an allocation step. */
  lemma AllocateSteps(base: HeapBase, s: Bitmap, v: View, n: nat, live: map<nat, nat>)
    requires |v.flat| == PAGES && n > 0 && FirstFit(s, n, 0) >= 0
    ensures var i := FirstFit(s, n, 0);
      Step(base, Heap(s, v.flat, live), Allocate(n),
           Heap(Marked(s, i, n, 1),
                v.MappedRegion(HeapPage(base, i), n, VaToPa(Ptr(base, i)), HEAP_FLAGS).flat, live[i := n]))
  {
    var i := FirstFit(s, n, 0);
    MappedRegionIs(v, HeapPage(base, i), n, VaToPa(Ptr(base, i)), HEAP_FLAGS);
  }

  /** Page `k` belongs to the live run that starts at `i`. */
  ghost predicate Owns(live: map<nat, nat>, i: nat, k: nat) { i in live && i <= k < i + live[i] }

  ghost predicate Runs(h: Heap) {
    && (forall i :: i in h.live ==> 0 < h.live[i] && i + h.live[i] <= MAX_PAGES)
    && (forall i: nat, j: nat, k: nat :: Owns(h.live, i, k) && Owns(h.live, j, k) ==> i == j)
    && (forall k: nat :: k < MAX_PAGES ==> (h.pages[k] != 0 <==> exists i: nat :: Owns(h.live, i, k)))
  }

  /** Outside the heap window nothing differs from `flat0`. */
  ghost predicate Outside(base: HeapBase, flat0: Space, flat: Space) {
    forall p: Page :: Offset(p, HeapPage(base, 0)) >= MAX_PAGES ==> flat[p] == flat0[p]
  }

  ghost predicate Inv(base: HeapBase, flat0: Space, h: Heap) {
    Runs(h) && Agree(base, h.pages, h.flat) && Outside(base, flat0, h.flat)
  }

  lemma InWindow(base: HeapBase, i: nat, n: nat, p: Page)
    requires 0 < n && i + n <= MAX_PAGES && Offset(p, HeapPage(base, i)) < n
    ensures Offset(p, HeapPage(base, 0)) < MAX_PAGES
  {
  }

  lemma MarkedRuns(h: Heap, i: nat, n: nat, flat: Space)
    requires Runs(h) && 0 < n && Free(h.pages, i, n)
    ensures Runs(Heap(Marked(h.pages, i, n, 1), flat, h.live[i := n]))
  {
    var t := Heap(Marked(h.pages, i, n, 1), flat, h.live[i := n]);
    forall j: nat, k: nat | Owns(h.live, j, k)
      ensures !(i <= k < i + n)
    {
      assert h.pages[k] != 0;
    }
    assert i in h.live ==> Owns(h.live, i, i);
    forall j: nat, k: nat
      ensures Owns(t.live, j, k) <==> (Owns(h.live, j, k) || (j == i && i <= k < i + n))
    {
    }
    forall k: nat | k < MAX_PAGES
      ensures t.pages[k] != 0 <==> exists j: nat :: Owns(t.live, j, k)
    {
      if i <= k < i + n {
        assert Owns(t.live, i, k);
      } else if j: nat :| Owns(h.live, j, k) {
        assert Owns(t.live, j, k);
      }
    }
  }

  lemma ReleasedRuns(h: Heap, i: nat, flat: Space)
    requires Runs(h) && i in h.live
    ensures Runs(Heap(Marked(h.pages, i, h.live[i], 0), flat, h.live - {i}))
  {
    var t := Heap(Marked(h.pages, i, h.live[i], 0), flat, h.live - {i});
    forall j: nat, k: nat
      ensures Owns(t.live, j, k) <==> (Owns(h.live, j, k) && j != i)
    {
    }
    forall k: nat | k < MAX_PAGES
      ensures t.pages[k] != 0 <==> exists j: nat :: Owns(t.live, j, k)
    {
      if i <= k < i + h.live[i] {
        assert Owns(h.live, i, k);
      } else if j: nat :| Owns(h.live, j, k) {
        assert Owns(t.live, j, k);
      }
    }
  }

  lemma StepKeeps(base: HeapBase, flat0: Space, h: Heap, op: Op, t: Heap)
    requires Inv(base, flat0, h) && Step(base, h, op, t)
    ensures Inv(base, flat0, t)
  {
    match op
    case Allocate(n) =>
      var i := FirstFit(h.pages, n, 0);
      if n > 0 && i >= 0 {
        var pa := VaToPa(Ptr(base, i));
        AllocateAgrees(base, h.pages, h.flat, i, n, pa);
        MarkedRuns(h, i, n, t.flat);
        forall p: Page | Offset(p, HeapPage(base, 0)) >= MAX_PAGES
          ensures t.flat[p] == flat0[p]
        {
          MapPagesAt(h.flat, HeapPage(base, i), n, pa, HEAP_FLAGS, p);
          if Offset(p, HeapPage(base, i)) < n { InWindow(base, i, n, p); }
        }
      }
    case Release(i) =>
      var n := h.live[i];
      FreeAgrees(base, h.pages, h.flat, i, n);
      ReleasedRuns(h, i, t.flat);
      forall p: Page | Offset(p, HeapPage(base, 0)) >= MAX_PAGES
        ensures t.flat[p] == flat0[p]
      {
        UnmapPagesAt(h.flat, HeapPage(base, i), n, p);
        if Offset(p, HeapPage(base, i)) < n { InWindow(base, i, n, p); }
      }
  }

  /** A run from an untouched heap window. */
  ghost predicate IsRun(base: HeapBase, flat0: Space, ops: seq<Op>, hs: seq<Heap>) {
    && |hs| == |ops| + 1
    && (forall i :: 0 <= i < MAX_PAGES ==> flat0[HeapPage(base, i)] == 0)
    && hs[0] == Heap(seq(MAX_PAGES, i => 0), flat0, map[])
    && forall k :: 0 <= k < |ops| ==> Step(base, hs[k], ops[k], hs[k + 1])
  }

  /**
   * After any number of matched calls: a heap page is marked exactly when it is mapped, and then to itself;
   * live runs do not overlap; and no translation outside the window has changed.
   */
  lemma {:induction false} RunKeeps(base: HeapBase, flat0: Space, ops: seq<Op>, hs: seq<Heap>, k: nat)
    requires IsRun(base, flat0, ops, hs) && k <= |ops|
    ensures Inv(base, flat0, hs[k])
  {
    if k == 0 {
    } else {
      RunKeeps(base, flat0, ops, hs, k - 1);
      StepKeeps(base, flat0, hs[k - 1], ops[k - 1], hs[k]);
    }
  }

  /** Whatever happened in between: with every run returned, the address space is as it was at the start. */
  lemma AllReturned(base: HeapBase, flat0: Space, ops: seq<Op>, hs: seq<Heap>, k: nat)
    requires IsRun(base, flat0, ops, hs) && k <= |ops| && hs[k].live == map[]
    ensures hs[k].flat == flat0
  {
    RunKeeps(base, flat0, ops, hs, k);
    forall p: Page
      ensures hs[k].flat[p] == flat0[p]
    {
      var i := Offset(p, HeapPage(base, 0));
      if i < MAX_PAGES {
        assert p == HeapPage(base, i);
        assert hs[k].pages[i] == 0;
      }
    }
  }
}
