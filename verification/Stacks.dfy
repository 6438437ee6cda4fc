/** The stacks of live tasks over whole runs: disjoint, three pages each, all within the first 189 heap pages. */
module Stacks {
  import opened Words
  import opened AddressSpace
  import opened HeapPages
  import opened Tasks
  import opened SchedInvariant
  import opened SchedRuns

  const BLOCKS: nat := MAX_TASKS - 1
  const WINDOW: nat := STACK_PAGES * BLOCKS

  predicate Live(tasks: Pool, i: nat) { 1 <= i < MAX_TASKS && !tasks[i].state.Empty? }

  /** Some live task's stack is block `b` of three heap pages. */
  ghost predicate Used(tasks: Pool, b: int) { exists i: nat :: Live(tasks, i) && tasks[i].stack == STACK_PAGES * b }

  /** Live tasks own distinct blocks, and the marked pages are those of the used blocks. */
  ghost predicate Owned(tasks: Pool, pages: Bitmap) {
    && (forall i: nat :: Live(tasks, i) ==> 0 <= tasks[i].stack < WINDOW && tasks[i].stack % STACK_PAGES == 0)
    && (forall i: nat, j: nat :: Live(tasks, i) && Live(tasks, j) && i != j ==> tasks[i].stack != tasks[j].stack)
    && (forall k: nat :: k < MAX_PAGES ==> (pages[k] != 0 <==> Used(tasks, k / STACK_PAGES)))
  }

  // ---------------------------------------------------------------- a free block always exists

  /** Live tasks among the first `n` slots, and the blocks they use. */
  function LiveCount(tasks: Pool, n: nat): nat
    requires n <= MAX_TASKS
  {
    if n == 0 then 0 else LiveCount(tasks, n - 1) + if Live(tasks, n - 1) then 1 else 0
  }

  function BlocksOf(tasks: Pool, n: nat): set<int>
    requires n <= MAX_TASKS
  {
    if n == 0 then {}
    else BlocksOf(tasks, n - 1) + if Live(tasks, n - 1) then {tasks[n - 1].stack / STACK_PAGES} else {}
  }

  lemma {:induction false} BlocksCount(tasks: Pool, n: nat)
    requires n <= MAX_TASKS
    ensures |BlocksOf(tasks, n)| <= LiveCount(tasks, n)
  {
    if n == 0 {
    } else {
      BlocksCount(tasks, n - 1);
    }
  }

  lemma {:induction false} BlockListed(tasks: Pool, n: nat, i: nat)
    requires i < n <= MAX_TASKS && Live(tasks, i)
    ensures tasks[i].stack / STACK_PAGES in BlocksOf(tasks, n)
  {
    if i == n - 1 {
    } else {
      BlockListed(tasks, n - 1, i);
    }
  }

  /** With slot `e` empty, at most the others below `n` are live. */
  lemma {:induction false} RoomLeft(tasks: Pool, n: nat, e: nat)
    requires 1 <= n <= MAX_TASKS && 1 <= e < MAX_TASKS && tasks[e].state.Empty?
    ensures LiveCount(tasks, n) <= n - 1 - if e < n then 1 else 0
  {
    if n > 1 { RoomLeft(tasks, n - 1, e); } else { assert LiveCount(tasks, 0) == 0; }
  }

  function Below(n: nat): set<int> { if n == 0 then {} else Below(n - 1) + {n - 1} }

  lemma {:induction false} BelowIs(n: nat)
    ensures |Below(n)| == n && forall b: int :: b in Below(n) <==> 0 <= b < n
  {
    if n == 0 {
    } else {
      BelowIs(n - 1);
    }
  }

  lemma SubsetCount(a: set<int>, b: set<int>)
    requires a <= b
    ensures |a| <= |b|
  {
    assert b == a + (b - a);
  }

  lemma {:induction false} Missing(used: set<int>, n: nat) returns (b: nat)
    requires |used| < n
    ensures b < n && b !in used
  {
    BelowIs(n);
    if Below(n) <= used { SubsetCount(Below(n), used); }
    b := MissingBelow(used, n);
  }

  lemma {:induction false} MissingBelow(used: set<int>, n: nat) returns (b: nat)
    requires !(Below(n) <= used)
    ensures b < n && b !in used
  {
    if n - 1 !in used { b := n - 1; } else { b := MissingBelow(used, n - 1); }
  }

  /** While a slot is empty, one of the 63 blocks is unused. */
  lemma UnusedBlock(tasks: Pool, pages: Bitmap, e: nat) returns (b: nat)
    requires Owned(tasks, pages) && 1 <= e < MAX_TASKS && tasks[e].state.Empty?
    ensures b < BLOCKS && !Used(tasks, b)
  {
    var used := BlocksOf(tasks, MAX_TASKS);
    BlocksCount(tasks, MAX_TASKS);
    RoomLeft(tasks, MAX_TASKS, e);
    b := Missing(used, BLOCKS);
    forall i: nat | Live(tasks, i)
      ensures tasks[i].stack != STACK_PAGES * b
    {
      BlockListed(tasks, MAX_TASKS, i);
    }
  }

  lemma BlockFree(tasks: Pool, pages: Bitmap, b: nat)
    requires Owned(tasks, pages) && STACK_PAGES * b + STACK_PAGES <= MAX_PAGES && !Used(tasks, b)
    ensures Free(pages, STACK_PAGES * b, STACK_PAGES)
  {
  }

  /** First fit finds a whole unused block among the first 63, so creating a task never fails for want of a stack. */
  lemma StackFound(tasks: Pool, pages: Bitmap, e: nat)
    requires Owned(tasks, pages) && 1 <= e < MAX_TASKS && tasks[e].state.Empty?
    ensures var r := FirstFit(pages, STACK_PAGES, 0);
      && 0 <= r && r + STACK_PAGES <= WINDOW && r % STACK_PAGES == 0
      && Free(pages, r, STACK_PAGES) && !Used(tasks, r / STACK_PAGES)
  {
    var b := UnusedBlock(tasks, pages, e);
    BlockFree(tasks, pages, b);
    var r := FirstFit(pages, STACK_PAGES, 0);
    assert 0 <= r <= STACK_PAGES * b;
    var c: nat := r / STACK_PAGES;
    assert pages[r] == 0;
    BlockFree(tasks, pages, c);
    assert !(STACK_PAGES * c < r);
  }

  // ---------------------------------------------------------------- steps

  lemma OwnedTaken(tasks: Pool, pages: Bitmap, e: nat, t: TaskData)
    requires Owned(tasks, pages) && 1 <= e < MAX_TASKS && tasks[e].state.Empty? && !t.state.Empty?
    requires t.stack == FirstFit(pages, STACK_PAGES, 0)
    ensures Owned(tasks[e := t], StackPages(pages, t.stack, 1))
  {
    StackFound(tasks, pages, e);
    var now := tasks[e := t];
    forall b: int
      ensures Used(now, b) <==> Used(tasks, b) || t.stack == STACK_PAGES * b
    {
      if i: nat :| Live(tasks, i) && tasks[i].stack == STACK_PAGES * b {
        assert Live(now, i) && now[i].stack == STACK_PAGES * b;
      }
      if t.stack == STACK_PAGES * b { assert Live(now, e) && now[e].stack == STACK_PAGES * b; }
    }
    forall i: nat | Live(tasks, i)
      ensures tasks[i].stack != t.stack
    {
      assert tasks[i].stack == STACK_PAGES * (tasks[i].stack / STACK_PAGES);
    }
  }

  lemma OwnedGiven(tasks: Pool, pages: Bitmap, e: nat)
    requires Owned(tasks, pages) && Live(tasks, e)
    ensures Owned(tasks[e := ZEROED], StackPages(pages, tasks[e].stack, 0))
  {
    var now, r := tasks[e := ZEROED], tasks[e].stack;
    forall b: int
      ensures Used(now, b) <==> Used(tasks, b) && r != STACK_PAGES * b
    {
      if i: nat :| Live(tasks, i) && tasks[i].stack == STACK_PAGES * b && i != e {
        assert Live(now, i) && now[i].stack == STACK_PAGES * b;
      }
    }
  }

  /** Only the liveness and the stacks of slots matter. */
  lemma OwnedSame(tasks: Pool, now: Pool, pages: Bitmap)
    requires Owned(tasks, pages)
    requires forall i: nat :: 1 <= i < MAX_TASKS ==>
      (Live(now, i) <==> Live(tasks, i)) && now[i].stack == tasks[i].stack
    ensures Owned(now, pages)
  {
  }

  /** What the reaper does to one member of its list after the other. */
  lemma {:induction false} OwnedReaped(tasks: Pool, pages: Bitmap, dead: seq<Slot>)
    requires Owned(tasks, pages) && NoDup(dead) && forall i :: i in dead ==> Live(tasks, i)
    ensures Owned(Zeroed(tasks, dead), StacksFreed(pages, tasks, dead))
  {
    if dead == [] {
      OwnedSame(tasks, Zeroed(tasks, dead), pages);
    } else {
      var rest, e := dead[..|dead| - 1], dead[|dead| - 1];
      OwnedReaped(tasks, pages, rest);
      assert e in dead && e !in rest;
      OwnedGiven(Zeroed(tasks, rest), StacksFreed(pages, tasks, rest), e);
      assert dead == rest + [e];
      assert Zeroed(tasks, rest)[e := ZEROED] == Zeroed(tasks, dead);
    }
  }

  lemma CreateOwned(s: Sched, entry: nat)
    requires Inv(s) && Owned(s.tasks, s.pages)
    ensures Owned(Create(s, entry).tasks, Create(s, entry).pages)
    ensures FreeSlot(s.tasks, 1) < MAX_TASKS ==> 0 <= FirstFit(s.pages, STACK_PAGES, 0) < WINDOW
  {
    var e := FreeSlot(s.tasks, 1);
    if e < MAX_TASKS {
      StackFound(s.tasks, s.pages, e);
      OwnedTaken(s.tasks, s.pages, e, Create(s, entry).tasks[e]);
    }
  }

  lemma ReapOwned(s: Sched)
    requires Inv(s) && Owned(s.tasks, s.pages)
    ensures Owned(Reap(s).tasks, Reap(s).pages)
  {
    var dead := Pick(s.zombie, Idle(s.tasks), true);
    PickNoDup(s.zombie, Idle(s.tasks), true);
    ReapTakesAll(s);
    forall i | i in dead
      ensures Live(s.tasks, i)
    {
      assert Placed(s, i);
    }
    OwnedReaped(s.tasks, s.pages, dead);
  }

  /** The other steps change neither liveness nor stacks. */
  lemma OtherOwned(s: Sched, e: Event)
    requires Inv(s) && Enabled(s, e) && (e.DoSleep? || e.DoExit? || e.DoIrq?) && Owned(s.tasks, s.pages)
    ensures Owned(Next(s, e).tasks, Next(s, e).pages)
  {
    var t := Next(s, e);
    if e.DoIrq? { IrqLives(s, e.frame, e.now); }
    OwnedSame(s.tasks, t.tasks, s.pages);
  }

  lemma IrqLives(s: Sched, frame: Frame, now: nat)
    requires Inv(s)
    ensures var t := Irq(s, frame, now);
      t.pages == s.pages && forall i: nat :: 1 <= i < MAX_TASKS ==>
        (Live(t.tasks, i) <==> Live(s.tasks, i)) && t.tasks[i].stack == s.tasks[i].stack
  {
    IrqKeeps(s, frame, now);
    var w := Wake(s, now);
    WakeLives(s, now);
    WakePlaces(s, now);
    SwitchLives(w, frame);
  }

  lemma WakeLives(s: Sched, now: nat)
    requires Inv(s)
    ensures forall i: Slot :: Wake(s, now).tasks[i].state.Empty? <==> s.tasks[i].state.Empty?
  {
    PickMembers(s.sleep, Due(s.tasks, now), true);
    forall i: Slot | i in s.sleep
      ensures !s.tasks[i].state.Empty?
    {
      assert Placed(s, i);
    }
  }

  lemma SwitchLives(w: Sched, frame: Frame)
    requires Places(w)
    ensures var t := SwitchIn(SwitchOut(w, frame));
      t.pages == w.pages && forall i: Slot :: t.tasks[i].state.Empty? <==> w.tasks[i].state.Empty?
  {
    var b := SwitchOut(w, frame);
    SwitchOutBetween(w, frame);
    if b.ready != [] {
      assert b.ready[0] in b.ready;
      assert Queued(b, b.ready[0]);
    }
  }

  lemma NextOwned(s: Sched, e: Event)
    requires Inv(s) && Enabled(s, e) && Owned(s.tasks, s.pages)
    ensures Owned(Next(s, e).tasks, Next(s, e).pages)
  {
    match e
    case DoCreate(entry) => CreateOwned(s, entry);
    case DoGc => ReapOwned(s);
    case DoSleep(_, _) => OtherOwned(s, e);
    case DoExit => OtherOwned(s, e);
    case DoIrq(_, _) => OtherOwned(s, e);
  }

  lemma InitOwned()
    ensures Owned(Init().tasks, Init().pages)
  {
  }

  /**
   * From boot, after any run: live tasks own disjoint stacks of three pages below heap page 189, exactly their
   * pages are marked, and a task that finds a slot also finds a stack.
   */
  lemma {:induction false} RunOwned(ss: seq<Sched>, es: seq<Event>, k: nat)
    requires IsRun(ss, es) && ss[0] == Init() && k <= |es|
    ensures Inv(ss[k]) && Owned(ss[k].tasks, ss[k].pages)
    ensures FreeSlot(ss[k].tasks, 1) < MAX_TASKS ==> 0 <= FirstFit(ss[k].pages, STACK_PAGES, 0) < WINDOW
  {
    InitInv();
    RunInv(ss, es, k);
    if k == 0 {
      InitOwned();
    } else {
      RunOwned(ss, es, k - 1);
      NextOwned(ss[k - 1], es[k - 1]);
    }
    CreateOwned(ss[k], 0);
  }

  /** The frame built on a stack is aligned and ends where the stack ends. */
  lemma FrameAligned(heap: HeapBase, stack: nat)
    ensures 4096 * stack <= FrameTop(stack) && FrameTop(stack) + FRAME_SIZE == 4096 * (stack + STACK_PAGES)
    ensures (heap + FrameTop(stack)) % 16 == 0
  {
    var q := heap / 4096;
    assert heap == 4096 * q;
    MultipleOf16(heap + FrameTop(stack), 256 * q + 256 * stack + 717);
  }

  lemma MultipleOf16(x: int, y: int)
    requires x == 16 * y
    ensures x % 16 == 0
  {
  }

  /** It lies outside every other live task's stack. */
  lemma FrameOutside(tasks: Pool, pages: Bitmap, i: nat, j: nat)
    requires Owned(tasks, pages) && Live(tasks, i) && Live(tasks, j) && i != j
    ensures var a, other := FrameTop(tasks[i].stack), tasks[j].stack;
      a + FRAME_SIZE <= 4096 * other || 4096 * (other + STACK_PAGES) <= a
  {
    var own, other := tasks[i].stack, tasks[j].stack;
    assert own == STACK_PAGES * (own / STACK_PAGES) && other == STACK_PAGES * (other / STACK_PAGES);
  }

  /** The three pages of a live task's stack are mapped to themselves. */
  lemma StackMapped(heap: HeapBase, tasks: Pool, pages: Bitmap, flat: Flat, i: nat, j: nat)
    requires Owned(tasks, pages) && Agree(heap, pages, flat) && Live(tasks, i) && j < STACK_PAGES
    ensures 0 <= tasks[i].stack && tasks[i].stack + j < MAX_PAGES
    ensures var k: nat := tasks[i].stack + j; flat[HeapPage(heap, k)] == HeapDesc(heap, k)
  {
    var k: nat := tasks[i].stack + j;
    assert tasks[i].stack == STACK_PAGES * (k / STACK_PAGES);
    assert Used(tasks, k / STACK_PAGES);
  }

  // ---------------------------------------------------------------- conservation of pages

  /** Marked pages among the first `n`. */
  function MarkedCount(pages: Bitmap, n: nat): nat
    requires n <= MAX_PAGES
  {
    if n == 0 then 0 else MarkedCount(pages, n - 1) + if pages[n - 1] != 0 then 1 else 0
  }

  /** Used blocks among the first `n`. */
  ghost function UsedCount(tasks: Pool, n: nat): nat {
    if n == 0 then 0 else UsedCount(tasks, n - 1) + if Used(tasks, n - 1) then 1 else 0
  }

  lemma {:induction false} MarkedIsUsed(tasks: Pool, pages: Bitmap, b: nat)
    requires Owned(tasks, pages) && STACK_PAGES * b <= MAX_PAGES
    ensures MarkedCount(pages, STACK_PAGES * b) == STACK_PAGES * UsedCount(tasks, b)
  {
    if b == 0 {
    } else {
      MarkedIsUsed(tasks, pages, b - 1);
      var k: nat := STACK_PAGES * (b - 1);
      assert k / STACK_PAGES == (k + 1) / STACK_PAGES == (k + 2) / STACK_PAGES == b - 1;
      assert MarkedCount(pages, k + 1) == MarkedCount(pages, k) + if Used(tasks, b - 1) then 1 else 0;
      assert MarkedCount(pages, k + 2) == MarkedCount(pages, k + 1) + if Used(tasks, b - 1) then 1 else 0;
      assert MarkedCount(pages, k + 3) == MarkedCount(pages, k + 2) + if Used(tasks, b - 1) then 1 else 0;
    }
  }

  lemma {:induction false} NoneBeyond(tasks: Pool, pages: Bitmap, n: nat)
    requires Owned(tasks, pages) && WINDOW <= n <= MAX_PAGES
    ensures MarkedCount(pages, n) == MarkedCount(pages, WINDOW)
  {
    if n == WINDOW {
    } else {
      NoneBeyond(tasks, pages, n - 1);
      assert pages[n - 1] == 0;
    }
  }

  lemma {:induction false} BlockSource(tasks: Pool, n: nat, b: int) returns (i: nat)
    requires n <= MAX_TASKS && b in BlocksOf(tasks, n)
    ensures i < n && Live(tasks, i) && tasks[i].stack / STACK_PAGES == b
  {
    if Live(tasks, n - 1) && tasks[n - 1].stack / STACK_PAGES == b { i := n - 1; }
    else { i := BlockSource(tasks, n - 1, b); }
  }

  /** Distinct stacks are distinct blocks. */
  lemma BlockNew(tasks: Pool, pages: Bitmap, n: nat)
    requires Owned(tasks, pages) && n < MAX_TASKS && Live(tasks, n)
    ensures tasks[n].stack / STACK_PAGES !in BlocksOf(tasks, n)
  {
    if tasks[n].stack / STACK_PAGES in BlocksOf(tasks, n) {
      var i := BlockSource(tasks, n, tasks[n].stack / STACK_PAGES);
      assert false;
    }
  }

  lemma {:induction false} BlocksExact(tasks: Pool, pages: Bitmap, n: nat)
    requires Owned(tasks, pages) && n <= MAX_TASKS
    ensures |BlocksOf(tasks, n)| == LiveCount(tasks, n)
  {
    if n == 0 {
    } else {
      BlocksExact(tasks, pages, n - 1);
      if Live(tasks, n - 1) { BlockNew(tasks, pages, n - 1); }
    }
  }

  lemma UsedIsListed(tasks: Pool, pages: Bitmap, b: nat)
    requires Owned(tasks, pages)
    ensures Used(tasks, b) <==> b in BlocksOf(tasks, MAX_TASKS)
  {
    if i: nat :| Live(tasks, i) && tasks[i].stack == STACK_PAGES * b { BlockListed(tasks, MAX_TASKS, i); }
    if b in BlocksOf(tasks, MAX_TASKS) { var i := BlockSource(tasks, MAX_TASKS, b); }
  }

  lemma {:induction false} UsedCountIs(tasks: Pool, all: set<int>, n: nat)
    requires forall b: nat :: Used(tasks, b) <==> b in all
    ensures UsedCount(tasks, n) == |all * Below(n)|
  {
    if n == 0 {
      assert all * Below(0) == {};
    } else {
      UsedCountIs(tasks, all, n - 1);
      OneMore(all, n);
    }
  }

  lemma OneMore(all: set<int>, n: nat)
    requires n > 0
    ensures |all * Below(n)| == |all * Below(n - 1)| + if n - 1 in all then 1 else 0
  {
    BelowIs(n - 1);
    var prior := all * Below(n - 1);
    assert n - 1 !in prior;
    assert all * Below(n) == if n - 1 in all then prior + {n - 1} else prior;
  }

  /** Pages are conserved: exactly three are marked for each live task. */
  lemma ThreePerTask(tasks: Pool, pages: Bitmap)
    requires Owned(tasks, pages)
    ensures MarkedCount(pages, MAX_PAGES) == STACK_PAGES * LiveCount(tasks, MAX_TASKS)
  {
    var all := BlocksOf(tasks, MAX_TASKS);
    NoneBeyond(tasks, pages, MAX_PAGES);
    MarkedIsUsed(tasks, pages, BLOCKS);
    forall b: nat
      ensures Used(tasks, b) <==> b in all
    {
      UsedIsListed(tasks, pages, b);
    }
    UsedCountIs(tasks, all, BLOCKS);
    BlocksExact(tasks, pages, MAX_TASKS);
    BelowIs(BLOCKS);
    forall b | b in all
      ensures b in Below(BLOCKS)
    {
      var i := BlockSource(tasks, MAX_TASKS, b);
    }
    assert all * Below(BLOCKS) == all;
  }

  // ---------------------------------------------------------------- tables for stacks

  /** Tables still to be drawn for the whole window that stacks can use. */
  ghost function Reserve(heap: HeapBase, v: View): nat { v.TablesFor(HeapPage(heap, 0), WINDOW) }

  /** However few tables exist at boot, the stacks of any run need at most four more. */
  lemma ReserveBound(heap: HeapBase, v: View)
    ensures Reserve(heap, v) <= 4
  {
    TablesBound(v, HeapPage(heap, 0), WINDOW);
  }

  lemma {:induction false} TouchedHas(base: Page, n: nat, u: Unit, k: nat)
    requires k < n
    ensures SlotOf(PageAt(base, k), u) in Touched(base, n, u)
  {
    if k == n - 1 {
    } else {
      TouchedHas(base, n - 1, u, k);
    }
  }

  lemma {:induction false} TouchedWithin(heap: HeapBase, r: nat, n: nat, u: Unit)
    requires r + n <= WINDOW
    ensures Touched(HeapPage(heap, r), n, u) <= Touched(HeapPage(heap, 0), WINDOW, u)
  {
    if n == 0 {
    } else {
      TouchedWithin(heap, r, n - 1, u);
      PageAtIs(HeapPage(heap, r), n - 1);
      PageAtIs(HeapPage(heap, 0), r + n - 1);
      TouchedHas(HeapPage(heap, 0), WINDOW, u, r + n - 1);
    }
  }

  lemma DrawnParts(all: set<nat>, part: set<nat>, drawn: set<nat>)
    requires part <= all
    ensures |all - drawn| == |all - (drawn + part)| + |part - drawn|
  {
    assert all - drawn == (all - (drawn + part)) + (part - drawn);
    assert (all - (drawn + part)) * (part - drawn) == {};
  }

  /** Mapping a stack draws its tables out of the reserve, so the reserve is never overdrawn. */
  lemma ReserveDrawn(heap: HeapBase, v: View, r: nat, pa: u64)
    requires |v.flat| == PAGES && r + STACK_PAGES <= WINDOW
    ensures var first := HeapPage(heap, r);
      Reserve(heap, v)
      == Reserve(heap, v.MappedRegion(first, STACK_PAGES, pa, HEAP_FLAGS)) + v.TablesFor(first, STACK_PAGES)
  {
    var first, base := HeapPage(heap, r), HeapPage(heap, 0);
    MappedRegionIs(v, first, STACK_PAGES, pa, HEAP_FLAGS);
    TouchedWithin(heap, r, STACK_PAGES, GB1);
    TouchedWithin(heap, r, STACK_PAGES, MB2);
    DrawnParts(Touched(base, WINDOW, GB1), Touched(first, STACK_PAGES, GB1), v.l2);
    DrawnParts(Touched(base, WINDOW, MB2), Touched(first, STACK_PAGES, MB2), v.l3);
    TablesForIs(v, base, WINDOW);
    TablesForIs(v, first, STACK_PAGES);
    TablesForIs(v.MappedRegion(first, STACK_PAGES, pa, HEAP_FLAGS), base, WINDOW);
  }
}
