/** What becomes of a task after the event that creates it, puts it to sleep or ends it, over whole runs. */
module TaskLife {
  import opened HeapPages
  import opened Tasks
  import opened SchedInvariant
  import opened SchedRuns
  import opened Stacks
  import opened StepEffects

  lemma {:induction false} RunGood(ss: seq<Sched>, es: seq<Event>, k: nat)
    requires IsRun(ss, es) && Good(ss[0]) && k <= |es|
    ensures Good(ss[k])
  {
    if k == 0 {
    } else {
      RunGood(ss, es, k - 1);
      GoodNext(ss[k - 1], es[k - 1]);
    }
  }

  /** From boot, every step of every run has the effect of its event. */
  lemma RunEffects(ss: seq<Sched>, es: seq<Event>, k: nat)
    requires IsRun(ss, es) && ss[0] == Init() && k < |es|
    ensures Effect(ss[k], es[k], ss[k + 1])
  {
    InitGood();
    RunGood(ss, es, k);
    NextEffect(ss[k], es[k]);
  }

  // ---------------------------------------------------------------- creation

  lemma {:induction false} IrqsTail(es: seq<Event>)
    requires es != []
    ensures Irqs(es) == Irqs(es[1..]) + if es[0].DoIrq? then 1 else 0
  {
    if |es| == 1 {
      assert es[..0] == [] && es[1..] == [];
    } else {
      IrqsTail(es[..|es| - 1]);
      assert es[..|es| - 1][1..] == es[1..][..|es| - 2];
    }
  }

  /** A created task is last in the ready queue, in the lowest empty slot, with its frame built. */
  lemma JustCreated(s: Sched, entry: nat, i: Slot)
    requires Good(s) && LowestEmpty(s.tasks, i)
    ensures var t := Next(s, DoCreate(entry)); TaskIn(s, entry, t, i)
  {
    NextEffect(s, DoCreate(entry));
  }

  lemma TailIsRun(ss: seq<Sched>, es: seq<Event>)
    requires IsRun(ss, es) && es != []
    ensures IsRun(ss[1..], es[1..])
  {
  }

  /** A task that waits for its turn exists. */
  lemma WaiterLives(ss: seq<Sched>, es: seq<Event>, k: nat, m: nat)
    requires IsRun(ss, es) && Good(ss[0]) && k < |ss[0].ready| && m < |es|
    requires es[|es| - 1].DoIrq? && Irqs(es) == k + 1
    ensures !ss[m].tasks[ss[0].ready[k]].state.Empty?
  {
    var x := ss[0].ready[k];
    WaitsInLine(ss, es, k, m);
    assert Good(ss[m]) by { RunGood(ss, es, m); }
    assert Placed(ss[m], x);
  }

  /** The task at place `k` of the ready queue goes on with the frame and the stack it has while it waits. */
  lemma WaiterStarts(ss: seq<Sched>, es: seq<Event>, k: nat)
    requires IsRun(ss, es) && Good(ss[0]) && k < |ss[0].ready|
    requires es != [] && es[|es| - 1].DoIrq? && Irqs(es) == k + 1
    ensures var x, t := ss[0].ready[k], ss[|es|];
      t.current == x && Resumed(t) == ss[0].tasks[x].frame && t.tasks[x].stack == ss[0].tasks[x].stack
    ensures forall m :: 0 <= m < |es| ==> ss[m].current != ss[0].ready[k]
  {
    BoundedWaiting(ss, es, k);
    forall m | 0 <= m < |es|
      ensures !ss[m].tasks[ss[0].ready[k]].state.Empty?
    {
      WaiterLives(ss, es, k, m);
    }
    ParkedResumes(ss, es, ss[0].ready[k], 0, |es| - 1);
  }

  /** Task `i` is last to run, in a frame built for `entry` at the top of its stack. */
  predicate LastToRun(s: Sched, i: Slot, entry: nat, n: nat) {
    && |s.ready| == n + 1 && s.ready[n] == i
    && s.tasks[i].frame == Built(4096 * s.tasks[i].stack + 12288 - 816, entry)
  }

  /** Task `i` has the core, and goes on in a frame built for `entry` at the top of its stack. */
  predicate StartsIn(s: Sched, i: Slot, entry: nat) {
    s.current == i && Resumed(s) == Built(4096 * s.tasks[i].stack + 12288 - 816, entry)
  }

  /** Not current in any of these states. */
  ghost predicate OffCore(ss: seq<Sched>, i: Slot) { forall m :: 0 <= m < |ss| ==> ss[m].current != i }

  lemma LastStarts(ss: seq<Sched>, es: seq<Event>, i: Slot, entry: nat, n: nat)
    requires IsRun(ss, es) && Good(ss[0]) && LastToRun(ss[0], i, entry, n)
    requires es != [] && es[|es| - 1].DoIrq? && Irqs(es) == n + 1
    ensures StartsIn(ss[|es|], i, entry) && OffCore(ss[..|es|], i)
  {
    WaiterStarts(ss, es, n);
  }

  lemma CreatedLast(s: Sched, entry: nat, i: Slot)
    requires Good(s) && LowestEmpty(s.tasks, i)
    ensures LastToRun(Next(s, DoCreate(entry)), i, entry, |s.ready|)
  {
    JustCreated(s, entry, i);
  }

  lemma AfterCreate(ss: seq<Sched>, es: seq<Event>, i: Slot)
    requires IsRun(ss, es) && Good(ss[0]) && LowestEmpty(ss[0].tasks, i) && es != [] && es[0].DoCreate?
    ensures Good(ss[1]) && LastToRun(ss[1], i, es[0].entry, |ss[0].ready|)
  {
    CreatedLast(ss[0], es[0].entry, i);
    RunGood(ss, es, 1);
  }

  lemma SecondStarts(ss: seq<Sched>, es: seq<Event>, i: Slot, entry: nat, n: nat)
    requires |ss| == |es| + 1 > 2 && IsRun(ss[1..], es[1..]) && Good(ss[1]) && LastToRun(ss[1], i, entry, n)
    requires es[|es| - 1].DoIrq? && Irqs(es[1..]) == n + 1
    ensures StartsIn(ss[|es|], i, entry) && OffCore(ss[1..|es|], i)
  {
    var tail, rest := ss[1..], es[1..];
    LastStarts(tail, rest, i, entry, n);
    assert tail[..|rest|] == ss[1..|es|];
  }

  /**
   * A created task gets the core at exactly the scheduling interrupt that comes after one for each task ready
   * before it, and then it starts at its entry, in the frame at the top of its stack.
   */
  lemma CreatedStarts(ss: seq<Sched>, es: seq<Event>, i: Slot)
    requires IsRun(ss, es) && Good(ss[0]) && LowestEmpty(ss[0].tasks, i)
    requires |es| > 1 && es[0].DoCreate? && es[|es| - 1].DoIrq? && Irqs(es) == |ss[0].ready| + 1
    ensures StartsIn(ss[|es|], i, es[0].entry) && OffCore(ss[1..|es|], i)
  {
    assert IsRun(ss[1..], es[1..]) by { TailIsRun(ss, es); }
    assert Good(ss[1]) && LastToRun(ss[1], i, es[0].entry, |ss[0].ready|) by { AfterCreate(ss, es, i); }
    assert Irqs(es[1..]) == |ss[0].ready| + 1 by { IrqsTail(es); }
    SecondStarts(ss, es, i, es[0].entry, |ss[0].ready|);
  }

  // ---------------------------------------------------------------- sleep

  /** After `msleep(ms)` at time `at`, the first interrupt at or after `at + ms` makes the caller ready or current. */
  lemma SleeperReturns(ss: seq<Sched>, es: seq<Event>, j: nat, m: nat)
    requires IsRun(ss, es) && Good(ss[0]) && j < m < |es| && es[j].DoSleep? && es[m].DoIrq?
    requires es[m].now >= es[j].at + es[j].ms
    requires forall a :: j < a < m && es[a].DoIrq? ==> es[a].now < es[j].at + es[j].ms
    ensures ss[j].current in ss[m + 1].ready || ss[m + 1].current == ss[j].current
  {
    var x := ss[j].current;
    assert Good(ss[j]) by { RunGood(ss, es, j); }
    NextEffect(ss[j], es[j]);
    SleepLinks(ss, es);
    AsleepUntil(ss, es, x, j + 1, m);
    assert Good(ss[m]) by { RunGood(ss, es, m); }
    WokenOnTime(ss[m], es[m].frame, es[m].now, x);
  }

  // ---------------------------------------------------------------- exit

  /** After `task_exit` no scheduling interrupt gives the core to the task before its slot has been cleared. */
  lemma ExitEnds(ss: seq<Sched>, es: seq<Event>, j: nat, m: nat)
    requires IsRun(ss, es) && Good(ss[0]) && j < m < |es| && es[j].DoExit? && es[m].DoIrq?
    requires forall i :: j < i <= m ==> !ss[i].tasks[ss[j].current].state.Empty?
    ensures ss[m + 1].current != ss[j].current
  {
    assert Good(ss[j]) by { RunGood(ss, es, j); }
    NextEffect(ss[j], es[j]);
    ExitedNeverRuns(ss, es, ss[j].current, j + 1, m);
  }

  /** Until an interrupt comes, a zombie stays current. */
  lemma ZombieStays(s: Sched, e: Event)
    requires Good(s) && Enabled(s, e) && !e.DoIrq? && s.tasks[s.current].state.Zombie?
    ensures var t := Next(s, e); t.current == s.current && t.tasks[s.current] == s.tasks[s.current]
  {
    NextEffect(s, e);
    if s.current != IDLE { assert Placed(s, s.current); }
  }

  lemma {:induction false} ZombieCurrent(ss: seq<Sched>, es: seq<Event>, j: nat, m: nat)
    requires IsRun(ss, es) && Good(ss[0]) && j <= m <= |es| && ss[j].tasks[ss[j].current].state.Zombie?
    requires forall a :: j <= a < m ==> !es[a].DoIrq?
    ensures ss[m].current == ss[j].current && ss[m].tasks[ss[j].current] == ss[j].tasks[ss[j].current]
    decreases m - j
  {
    if j == m {
    } else {
      ZombieCurrent(ss, es, j, m - 1);
      assert Good(ss[m - 1]) by { RunGood(ss, es, m - 1); }
      ZombieStays(ss[m - 1], es[m - 1]);
    }
  }

  /** The first scheduling interrupt after `task_exit` takes the task off its core for good and asks for its reaping. */
  lemma ExitQueued(ss: seq<Sched>, es: seq<Event>, j: nat, m: nat)
    requires IsRun(ss, es) && Good(ss[0]) && j < m < |es| && es[j].DoExit? && es[m].DoIrq?
    requires forall a :: j < a < m ==> !es[a].DoIrq?
    ensures var x, t := ss[j].current, ss[m + 1];
      x in t.zombie && t.gc && t.current != x && t.tasks[x].core == NOBODY && t.tasks[x].stack == ss[j].tasks[x].stack
  {
    var x := ss[j].current;
    assert Good(ss[j]) by { RunGood(ss, es, j); }
    NextEffect(ss[j], es[j]);
    ZombieCurrent(ss, es, j + 1, m);
    assert Good(ss[m]) by { RunGood(ss, es, m); }
    ExitedIrq(ss[m], es[m].frame, es[m].now, x);
    NextEffect(ss[m], es[m]);
  }

  /** Until it is reaped, a zombie stays queued, with its stack. */
  lemma ZombieWaits(s: Sched, e: Event, x: Slot)
    requires Good(s) && Enabled(s, e) && !e.DoGc? && x in s.zombie
    ensures var t := Next(s, e); x in t.zombie && t.tasks[x].stack == s.tasks[x].stack
  {
    assert Placed(s, x);
    NextEffect(s, e);
  }

  lemma {:induction false} ZombieKept(ss: seq<Sched>, es: seq<Event>, x: Slot, m: nat, n: nat)
    requires IsRun(ss, es) && Good(ss[0]) && m <= n <= |es| && x in ss[m].zombie
    requires forall a :: m <= a < n ==> !es[a].DoGc?
    ensures x in ss[n].zombie && ss[n].tasks[x].stack == ss[m].tasks[x].stack
    decreases n - m
  {
    if m == n {
    } else {
      ZombieKept(ss, es, x, m, n - 1);
      assert Good(ss[n - 1]) by { RunGood(ss, es, n - 1); }
      ZombieWaits(ss[n - 1], es[n - 1], x);
    }
  }

  /**
   * The first GC interrupt after that clears the slot and frees the three pages of the stack: whatever exits comes
   * back to the pool.
   */
  lemma ExitCleared(ss: seq<Sched>, es: seq<Event>, j: nat, m: nat, n: nat)
    requires IsRun(ss, es) && Good(ss[0]) && j < m < n < |es| && es[j].DoExit? && es[m].DoIrq? && es[n].DoGc?
    requires forall a :: j < a < m ==> !es[a].DoIrq?
    requires forall a :: m < a < n ==> !es[a].DoGc?
    ensures var x, r, t := ss[j].current, ss[j].tasks[ss[j].current].stack, ss[n + 1];
      && t.tasks[x] == TaskData(NoFrame, 0, 0, Empty, 0, -1)
      && 0 <= r && r + 3 <= MAX_PAGES && forall k :: r <= k < r + 3 ==> t.pages[k] == 0
  {
    var x := ss[j].current;
    ExitQueued(ss, es, j, m);
    ZombieKept(ss, es, x, m + 1, n);
    assert Good(ss[n]) by { RunGood(ss, es, n); }
    assert Placed(ss[n], x);
    assert Live(ss[n].tasks, x);
    NextEffect(ss[n], es[n]);
    forall k | ss[n].tasks[x].stack <= k < ss[n].tasks[x].stack + 3
      ensures DeadPage(ss[n], k)
    {
    }
  }
}
