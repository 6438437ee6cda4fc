/** The scheduler in memory: pool, intrusive queues and draining loops, proved against the transition system. */
module Scheduler {
  import opened Words
  import opened HeapPages
  import opened Tasks
  import opened SchedInvariant
  import opened SchedRuns
  import opened TaskQueue
  import opened Draining
  import opened Stacks
  import opened StepEffects
  import opened StackMemory

  /** Four lists threaded through the links, without repetition and apart from each other. */
  ghost predicate Lists(links: Links, a: seq<Slot>, b: seq<Slot>, c: seq<Slot>, d: seq<Slot>) {
    && Linked(links, a) && Linked(links, b) && Linked(links, c) && Linked(links, d)
    && NoDup(a) && NoDup(b) && NoDup(c) && NoDup(d)
    && Apart(a, b) && Apart(a, c) && Apart(a, d) && Apart(b, c) && Apart(b, d) && Apart(c, d)
  }

  predicate Outside(i: Slot, a: seq<Slot>, b: seq<Slot>, c: seq<Slot>, d: seq<Slot>) {
    i !in a && i !in b && i !in c && i !in d
  }

  lemma AppendFirst(links: Links, a: seq<Slot>, b: seq<Slot>, c: seq<Slot>, d: seq<Slot>, i: Slot)
    requires Lists(links, a, b, c, d) && Outside(i, a, b, c, d)
    ensures Lists(Appended(links, a, i), a + [i], b, c, d)
  {
    AppendedLinked(links, a, i);
    AppendedApart(links, a, i, b);
    AppendedApart(links, a, i, c);
    AppendedApart(links, a, i, d);
  }

  lemma RemoveFirst(links: Links, a: seq<Slot>, b: seq<Slot>, c: seq<Slot>, d: seq<Slot>)
    requires Lists(links, a, b, c, d) && a != []
    ensures Lists(Removed(links, a), a[1..], b, c, d) && Outside(a[0], a[1..], b, c, d)
  {
    RemovedLinked(links, a);
    RemovedApart(links, a, b);
    RemovedApart(links, a, c);
    RemovedApart(links, a, d);
  }

  lemma AppendSecond(links: Links, a: seq<Slot>, b: seq<Slot>, c: seq<Slot>, d: seq<Slot>, i: Slot)
    requires Lists(links, a, b, c, d) && Outside(i, a, b, c, d)
    ensures Lists(Appended(links, b, i), a, b + [i], c, d)
  {
    AppendedLinked(links, b, i);
    AppendedApart(links, b, i, a);
    AppendedApart(links, b, i, c);
    AppendedApart(links, b, i, d);
  }

  lemma AppendThird(links: Links, a: seq<Slot>, b: seq<Slot>, c: seq<Slot>, d: seq<Slot>, i: Slot)
    requires Lists(links, a, b, c, d) && Outside(i, a, b, c, d)
    ensures Lists(Appended(links, c, i), a, b, c + [i], d)
  {
    AppendedLinked(links, c, i);
    AppendedApart(links, c, i, a);
    AppendedApart(links, c, i, b);
    AppendedApart(links, c, i, d);
  }

  lemma AppendFourth(links: Links, a: seq<Slot>, b: seq<Slot>, c: seq<Slot>, d: seq<Slot>, i: Slot)
    requires Lists(links, a, b, c, d) && Outside(i, a, b, c, d)
    ensures Lists(Appended(links, d, i), a, b, c, d + [i])
  {
    AppendedLinked(links, d, i);
    AppendedApart(links, d, i, a);
    AppendedApart(links, d, i, b);
    AppendedApart(links, d, i, c);
  }

  lemma RemoveSecond(links: Links, a: seq<Slot>, b: seq<Slot>, c: seq<Slot>, d: seq<Slot>)
    requires Lists(links, a, b, c, d) && b != []
    ensures Lists(Removed(links, b), a, b[1..], c, d) && Outside(b[0], a, b[1..], c, d)
  {
    RemovedLinked(links, b);
    RemovedApart(links, b, a);
    RemovedApart(links, b, c);
    RemovedApart(links, b, d);
  }

  lemma RemoveThird(links: Links, a: seq<Slot>, b: seq<Slot>, c: seq<Slot>, d: seq<Slot>)
    requires Lists(links, a, b, c, d) && c != []
    ensures Lists(Removed(links, c), a, b, c[1..], d) && Outside(c[0], a, b, c[1..], d)
  {
    RemovedLinked(links, c);
    RemovedApart(links, c, a);
    RemovedApart(links, c, b);
    RemovedApart(links, c, d);
  }

  lemma SpareToThird(links: Links, a: seq<Slot>, b: seq<Slot>, d: seq<Slot>)
    requires Lists(links, a, b, [], d)
    ensures Lists(links, a, b, d, [])
  {
  }

  lemma SpareToSecond(links: Links, a: seq<Slot>, c: seq<Slot>, d: seq<Slot>)
    requires Lists(links, a, [], c, d)
    ensures Lists(links, a, d, c, [])
  {
  }

  /** Empty slots are in no queue. */
  ghost predicate EmptyOutside(s: Sched) {
    forall i: Slot :: s.tasks[i].state.Empty? ==> Outside(i, s.ready, s.sleep, s.zombie, [])
  }

  /** Zombies have their stacks, so they can be freed. */
  ghost predicate ZombiesLive(s: Sched) { forall k :: 0 <= k < |s.zombie| ==> Live(s.tasks, s.zombie[k]) }

  /** The stack of task `i` is allocated. */
  ghost predicate StackMarked(s: Sched, i: Slot) {
    var r := s.tasks[i].stack;
    0 <= r && r + STACK_PAGES <= MAX_PAGES && forall k :: r <= k < r + STACK_PAGES ==> s.pages[k] != 0
  }

  /** A current task that the switch will queue is not queued yet. */
  ghost predicate SwitchFit(s: Sched) {
    s.tasks[s.current].state.Running? || s.tasks[s.current].state.Zombie? ==> Loose(s)
  }

  lemma PlacesFit(s: Sched)
    requires Places(s)
    ensures SwitchFit(s)
  {
    if s.current != IDLE { assert Placed(s, s.current); }
  }

  lemma WokenFit(s: Sched, now: nat)
    requires Good(s)
    ensures SwitchFit(Wake(s, now))
  {
    WakePlaces(s, now);
    PlacesFit(Wake(s, now));
  }

  lemma EmptiesOutside(s: Sched)
    requires Good(s)
    ensures EmptyOutside(s)
  {
    forall i: Slot | s.tasks[i].state.Empty?
      ensures Outside(i, s.ready, s.sleep, s.zombie, [])
    {
      assert 1 <= i < MAX_TASKS ==> Placed(s, i);
    }
  }

  lemma ZombiesAreLive(s: Sched)
    requires Good(s)
    ensures ZombiesLive(s)
  {
    forall k | 0 <= k < |s.zombie|
      ensures Live(s.tasks, s.zombie[k])
    {
      assert s.zombie[k] in s.zombie;
      assert Placed(s, s.zombie[k]);
    }
  }

  lemma ReapHeadOwned(s: Sched)
    requires s.zombie != [] && NoDup(s.zombie) && ZombiesLive(s) && Owned(s.tasks, s.pages)
    ensures ZombiesLive(ReapHead(s)) && Owned(ReapHead(s).tasks, ReapHead(s).pages)
    ensures StackMarked(s, s.zombie[0])
  {
    var i := s.zombie[0];
    OwnedGiven(s.tasks, s.pages, i);
    var r := s.tasks[i].stack;
    forall k | r <= k < r + STACK_PAGES
      ensures s.pages[k] != 0
    {
      assert Live(s.tasks, i) && s.tasks[i].stack == STACK_PAGES * (k / STACK_PAGES);
    }
  }

  /** The current task is in no queue. */
  predicate Loose(s: Sched) { s.current !in s.ready && s.current !in s.sleep && s.current !in s.zombie }

  const SCHEDULER_YIELD: nat := 8
  const SCHEDULER_GC: nat := 9
  const CNTP_INTID: nat := 30

  class Kernel {
    const tasks: array<TaskData>   // task_pool and the idle task, without their `next` fields
    const next: array<Ref>         // the `next` fields
    const readyQ: Queue
    const sleepQ: Queue
    const zombieQ: Queue
    const memory: Memory
    var current: Slot              // tpidr_el1
    var nextTaskId: nat
    var gcPending: bool            // the pending GC interrupt of the core
    ghost var model: Sched

    /** The memory holds state `model`, and a further list apart from the queues. */
    ghost predicate RepWith(kept: seq<Slot>)
      reads this, tasks, next, readyQ, sleepQ, zombieQ
    {
      && tasks.Length == next.Length == MAX_TASKS + 1
      && readyQ != sleepQ && readyQ != zombieQ && sleepQ != zombieQ
      && tasks[..] == model.tasks
      && readyQ.Holds(model.ready) && sleepQ.Holds(model.sleep) && zombieQ.Holds(model.zombie)
      && Lists(next[..], model.ready, model.sleep, model.zombie, kept)
      && current == model.current && nextTaskId == model.nextId && gcPending == model.gc
    }

    ghost predicate Rep()
      reads this, tasks, next, readyQ, sleepQ, zombieQ
    {
      RepWith([])
    }

    /** The objects hold a reachable state, and the allocator its stacks. */
    ghost predicate Valid()
      reads this, tasks, next, readyQ, sleepQ, zombieQ,
        memory, memory.allocator, memory.allocator.pages, memory.allocator.mmu, memory.allocator.mmu.mem
    {
      Rep() && memory.Holds(model.pages) && Good(model)
    }

    /** In every reachable state the stack of a live task is mapped, page by page, to itself. */
    lemma StackOfLive(i: nat, j: nat)
      requires Valid() && Live(model.tasks, i) && j < STACK_PAGES
      ensures 0 <= model.tasks[i].stack && model.tasks[i].stack + j < MAX_PAGES
      ensures var heap, k: nat := memory.allocator.heap, model.tasks[i].stack + j;
        memory.allocator.mmu.KernelFlat()[HeapPage(heap, k)] == HeapDesc(heap, k)
    {
      StackMapped(memory.allocator.heap, model.tasks, model.pages, memory.allocator.mmu.KernelFlat(), i, j);
    }

    /** `init_sched` on the scheduling core: zeroed tasks, and the idle task current. */
    constructor (memory: Memory)
      requires memory.Holds(Init().pages)
      ensures Valid() && model == Init() && this.memory == memory
      ensures fresh(tasks) && fresh(next) && fresh(readyQ) && fresh(sleepQ) && fresh(zombieQ)
    {
      this.memory := memory;
      tasks := new TaskData[MAX_TASKS + 1](i => ZEROED);
      next := new Ref[MAX_TASKS + 1](i => -1);
      readyQ := new Queue();
      sleepQ := new Queue();
      zombieQ := new Queue();
      current, nextTaskId, gcPending, model := IDLE, 0, false, Init();
      new;
      tasks[IDLE] := tasks[IDLE].(state := Running);
      assert tasks[..] == Init().tasks;
      assert Good(model) by { InitGood(); }
    }

    /** The current task is queued with its wake-up time. */
    method QueueSleeper(ms: nat, now: nat)
      requires Rep() && Loose(model)
      modifies this`model, sleepQ, tasks, next
      ensures Rep() && model == Tasks.Sleep(old(model), now, ms)
    {
      AppendSecond(next[..], model.ready, model.sleep, model.zombie, [], current);
      tasks[current] := tasks[current].(wake := now + ms, state := Sleeping);
      sleepQ.Enqueue(next, current, model.sleep);
      model := Tasks.Sleep(model, now, ms);
    }

    /** The locked part of `msleep`. */
    method Sleep(ms: nat, now: nat)
      requires Valid() && model.current != IDLE && model.tasks[model.current].state.Running?
      modifies this`model, sleepQ, tasks, next
      ensures Valid() && model == Next(old(model), DoSleep(now, ms)) && Slept(old(model), now, ms, model)
    {
      assert Loose(model) by { PlacesFit(model); }
      assert Good(Next(model, DoSleep(now, ms))) by { GoodNext(model, DoSleep(now, ms)); }
      assert Slept(model, now, ms, Next(model, DoSleep(now, ms))) by { NextEffect(model, DoSleep(now, ms)); }
      QueueSleeper(ms, now);
    }

    /** The current task becomes a zombie; it leaves its core at the next interrupt. */
    method MarkZombie()
      requires Rep()
      modifies this`model, tasks
      ensures Rep() && model == Tasks.Exit(old(model))
    {
      tasks[current] := tasks[current].(state := Zombie);
      model := Tasks.Exit(model);
    }

    /** The locked part of `task_exit`. */
    method Exit()
      requires Valid() && model.current != IDLE && model.tasks[model.current].state.Running?
      modifies this`model, tasks
      ensures Valid() && model == Next(old(model), DoExit) && Exited(old(model), model)
    {
      assert Good(Next(model, DoExit)) by { GoodNext(model, DoExit); }
      assert Exited(model, Next(model, DoExit)) by { NextEffect(model, DoExit); }
      MarkZombie();
    }

    /** The body of the loop of `sched_check_tasks`, for a task taken from the sleep queue. */
    method WakeOne(now: nat, sleeping: Queue, ghost kept: seq<Slot>) returns (more: bool, ghost rest: seq<Slot>)
      requires RepWith(kept) && sleeping.Holds(kept)
      requires sleeping != readyQ && sleeping != sleepQ && sleeping != zombieQ
      modifies this`model, readyQ, sleepQ, sleeping, tasks, next
      ensures RepWith(rest) && sleeping.Holds(rest) && more == (old(model).sleep != [])
      ensures if more then model == WakeHead(old(model), now) && rest == WakeKept(old(model), kept, now)
              else model == old(model) && rest == kept
    {
      ghost var s := model;
      rest := kept;
      if s.sleep != [] { RemoveSecond(next[..], s.ready, s.sleep, s.zombie, kept); }
      var t := sleepQ.Dequeue(next, s.sleep);
      more := t != -1;
      if more {
        if now >= tasks[t].wake {
          AppendFirst(next[..], s.ready, s.sleep[1..], s.zombie, kept, t);
          tasks[t] := tasks[t].(state := Ready);
          readyQ.Enqueue(next, t, s.ready);
        } else {
          AppendFourth(next[..], s.ready, s.sleep[1..], s.zombie, kept, t);
          sleeping.Enqueue(next, t, kept);
          rest := kept + [t];
        }
        model := WakeHead(s, now);
      }
    }

    /** `sched_check_tasks` */
    method CheckTasks(now: nat)
      requires Rep()
      modifies this`model, readyQ, sleepQ, tasks, next
      ensures Rep() && model == Wake(old(model), now)
    {
      ghost var done := WakeAll(model, [], now);
      assert done == Wake(model, now) by { WakeAllIs(model, now); }
      var sleeping := new Queue();
      ghost var kept := [];
      var more := true;
      while more
        invariant RepWith(kept) && sleeping.Holds(kept) && fresh(sleeping)
        invariant WakeAll(model, kept, now) == done
        invariant !more ==> model.sleep == []
        decreases |model.sleep|, more
      {
        more, kept := WakeOne(now, sleeping, kept);
      }
      TakeOverSleep(sleeping, kept);
    }

    /** `sleep_q = sleeping` */
    method TakeOverSleep(sleeping: Queue, ghost kept: seq<Slot>)
      requires RepWith(kept) && model.sleep == [] && sleeping.Holds(kept)
      modifies this`model, sleepQ
      ensures Rep() && model == old(model).(sleep := kept)
    {
      SpareToSecond(next[..], model.ready, model.zombie, kept);
      sleepQ.head, sleepQ.tail := sleeping.head, sleeping.tail;
      model := model.(sleep := kept);
    }

    /** The first half of `schedule_task`. */
    method RequeueCurrent(frame: Frame)
      requires Rep() && (tasks[current].state.Running? || tasks[current].state.Zombie? ==> Loose(model))
      modifies this`model, readyQ, zombieQ, tasks, next
      ensures Rep() && model == SwitchOut(old(model), frame)
    {
      ghost var s := model;
      tasks[current] := tasks[current].(frame := frame);
      match tasks[current].state {
        case Zombie =>
          AppendThird(next[..], s.ready, s.sleep, s.zombie, [], current);
          zombieQ.Enqueue(next, current, s.zombie);
        case Running =>
          if current != IDLE {
            AppendFirst(next[..], s.ready, s.sleep, s.zombie, [], current);
            tasks[current] := tasks[current].(state := Ready);
            readyQ.Enqueue(next, current, s.ready);
          }
        case _ =>
      }
      model := SwitchOut(s, frame);
    }

    /** The second half: dequeue the next task, or take the idle task, and make it current. */
    method Dispatch()
      requires Rep()
      modifies this`model, this`current, this`gcPending, readyQ, tasks, next
      ensures Rep() && model == SwitchIn(old(model))
    {
      ghost var s := model;
      if s.ready != [] { RemoveFirst(next[..], s.ready, s.sleep, s.zombie, []); }
      var t := readyQ.Dequeue(next, s.ready);
      var chosen: Slot := if t == -1 then IDLE else t;
      if tasks[current].state == Zombie {
        gcPending := true;
      }
      if current != chosen {
        tasks[current] := tasks[current].(core := NOBODY);
      }
      tasks[chosen] := tasks[chosen].(state := Running, core := CORE);
      current := chosen;
      model := SwitchIn(s);
    }

    /** The search loop of `create_task`. */
    method FindSlot() returns (i: nat)
      requires Rep()
      ensures i == FreeSlot(model.tasks, 1)
      ensures EmptyOutside(model) && i < MAX_TASKS ==> Outside(i, model.ready, model.sleep, model.zombie, [])
    {
      i := 1;
      while i < MAX_TASKS && tasks[i].state != Empty
        invariant 1 <= i <= MAX_TASKS && FreeSlot(model.tasks, 1) == FreeSlot(model.tasks, i)
      {
        i := i + 1;
      }
    }

    /** The slot that was found, filled in and queued. */
    method Enrol(i: Slot, stack: int, entry: nat)
      requires Rep() && i == FreeSlot(model.tasks, 1) < MAX_TASKS && stack == FirstFit(model.pages, STACK_PAGES, 0)
      requires Outside(i, model.ready, model.sleep, model.zombie, [])
      modifies this`model, this`nextTaskId, readyQ, tasks, next
      ensures Rep() && model == Create(old(model), entry)
    {
      assert Lists(Appended(next[..], model.ready, i), model.ready + [i], model.sleep, model.zombie, []) by {
        AppendFirst(next[..], model.ready, model.sleep, model.zombie, [], i);
      }
      nextTaskId := (nextTaskId + 1) % TWO_32;
      tasks[i] := tasks[i].(id := nextTaskId, stack := stack, state := Ready, core := NOBODY,
                            frame := Built(FrameTop(stack), entry));
      readyQ.Enqueue(next, i, model.ready);
      model := Create(model, entry);
    }

    /** The stack for the task in slot `i`. */
    method TakeStack(i: nat) returns (r: int)
      requires Rep() && memory.Holds(model.pages) && Owned(model.tasks, model.pages)
      requires 1 <= i < MAX_TASKS && model.tasks[i].state.Empty?
      modifies memory.allocator.pages, memory.allocator.mmu`poolPtr,
        memory.allocator.mmu`tree, memory.allocator.mmu`tlb, memory.allocator.mmu.mem
      ensures Rep() && r == FirstFit(model.pages, STACK_PAGES, 0) && memory.Holds(StackPages(model.pages, r, 1))
    {
      r := memory.AllocateStack(model.tasks, model.pages, i);
    }

    /** The rest of `create_task`, for the slot that was found. */
    method CreateIn(i: Slot, entry: nat)
      requires Rep() && memory.Holds(model.pages) && Owned(model.tasks, model.pages)
      requires i == FreeSlot(model.tasks, 1) < MAX_TASKS && Outside(i, model.ready, model.sleep, model.zombie, [])
      modifies this`model, this`nextTaskId, readyQ, tasks, next, memory.allocator.pages, memory.allocator.mmu`poolPtr,
        memory.allocator.mmu`tree, memory.allocator.mmu`tlb, memory.allocator.mmu.mem
      ensures Rep() && memory.Holds(model.pages) && model == Create(old(model), entry)
    {
      var stack := TakeStack(i);
      Enrol(i, stack, entry);
    }

    /** The locked part of `create_task`. */
    method CreateFound(entry: nat)
      requires Rep() && memory.Holds(model.pages) && Owned(model.tasks, model.pages) && EmptyOutside(model)
      modifies this`model, this`nextTaskId, readyQ, tasks, next, memory.allocator.pages, memory.allocator.mmu`poolPtr,
        memory.allocator.mmu`tree, memory.allocator.mmu`tlb, memory.allocator.mmu.mem
      ensures Rep() && memory.Holds(model.pages) && model == Create(old(model), entry)
    {
      var i := FindSlot();
      if i < MAX_TASKS {
        CreateIn(i, entry);
      }
    }

    /** `create_task` */
    method CreateTask(entry: nat)
      requires Valid()
      modifies this`model, this`nextTaskId, readyQ, tasks, next, memory.allocator.pages, memory.allocator.mmu`poolPtr,
        memory.allocator.mmu`tree, memory.allocator.mmu`tlb, memory.allocator.mmu.mem
      ensures Valid() && model == Next(old(model), DoCreate(entry)) && Created(old(model), entry, model)
    {
      assert EmptyOutside(model) by { EmptiesOutside(model); }
      assert Good(Next(model, DoCreate(entry))) by { GoodNext(model, DoCreate(entry)); }
      assert Created(model, entry, Next(model, DoCreate(entry))) by { NextEffect(model, DoCreate(entry)); }
      CreateFound(entry);
    }

    /** `task_dequeue(&zombie_q)` */
    method TakeZombie(ghost kept: seq<Slot>) returns (t: Ref)
      requires RepWith(kept)
      modifies this`model, zombieQ, next
      ensures RepWith(kept) && t == First(old(model).zombie)
      ensures t == -1 ==> model == old(model)
      ensures t != -1 ==> model == old(model).(zombie := old(model).zombie[1..])
      ensures t != -1 ==> Outside(t, model.ready, model.sleep, model.zombie, kept)
    {
      ghost var s := model;
      if s.zombie != [] { RemoveThird(next[..], s.ready, s.sleep, s.zombie, kept); }
      t := zombieQ.Dequeue(next, s.zombie);
      if t != -1 { model := s.(zombie := s.zombie[1..]); }
    }

    /** A zombie that a core still runs is put on the list of those kept. */
    method KeepZombie(t: Slot, zombies: Queue, ghost kept: seq<Slot>)
      requires RepWith(kept) && zombies.Holds(kept) && Outside(t, model.ready, model.sleep, model.zombie, kept)
      requires zombies != readyQ && zombies != sleepQ && zombies != zombieQ
      modifies zombies, next
      ensures RepWith(kept + [t]) && zombies.Holds(kept + [t])
    {
      AppendFourth(next[..], model.ready, model.sleep, model.zombie, kept, t);
      zombies.Enqueue(next, t, kept);
    }

    /** `mm_free_pages` of a stack. */
    method GiveStack(r: int, ghost kept: seq<Slot>)
      requires RepWith(kept) && memory.Holds(model.pages)
      requires 0 <= r && r + STACK_PAGES <= MAX_PAGES && forall k :: r <= k < r + STACK_PAGES ==> model.pages[k] != 0
      modifies memory.allocator.pages, memory.allocator.mmu`tree, memory.allocator.mmu`tlb, memory.allocator.mmu.mem
      ensures RepWith(kept) && memory.Holds(StackPages(model.pages, r, 0))
    {
      memory.FreeStack(r, model.pages);
    }

    /** `mm_free_pages` of the stack of `t`, and `mem_zero` of `t`. */
    method FreeTask(t: Slot, ghost kept: seq<Slot>)
      requires RepWith(kept) && memory.Holds(model.pages)
      requires StackMarked(model, t)
      modifies this`model, tasks, memory.allocator.pages, memory.allocator.mmu`tree, memory.allocator.mmu`tlb,
        memory.allocator.mmu.mem
      ensures RepWith(kept) && memory.Holds(model.pages)
      ensures model == Freed(old(model), t)
    {
      GiveStack(tasks[t].stack, kept);
      tasks[t] := ZEROED;
      model := Freed(model, t);
    }

    /** A zombie that was dequeued is freed, unless a core still runs it. */
    method ReapTaken(t: Slot, zombies: Queue, ghost kept: seq<Slot>) returns (ghost rest: seq<Slot>)
      requires RepWith(kept) && zombies.Holds(kept) && memory.Holds(model.pages)
      requires StackMarked(model, t) && Outside(t, model.ready, model.sleep, model.zombie, kept)
      requires zombies != readyQ && zombies != sleepQ && zombies != zombieQ
      modifies this`model, zombies, tasks, next, memory.allocator.pages,
        memory.allocator.mmu`tree, memory.allocator.mmu`tlb, memory.allocator.mmu.mem
      ensures RepWith(rest) && zombies.Holds(rest) && memory.Holds(model.pages)
      ensures if old(model).tasks[t].core == NOBODY
        then model == Freed(old(model), t) && rest == kept
        else model == old(model) && rest == kept + [t]
    {
      rest := kept;
      if tasks[t].core == NOBODY {
        FreeTask(t, kept);
      } else {
        KeepZombie(t, zombies, kept);
        rest := kept + [t];
      }
    }

    /** The body of the loop of `reaper_service`. */
    method ReapOne(zombies: Queue, ghost kept: seq<Slot>) returns (more: bool, ghost rest: seq<Slot>)
      requires RepWith(kept) && zombies.Holds(kept) && memory.Holds(model.pages)
      requires model.zombie != [] ==> StackMarked(model, model.zombie[0])
      requires zombies != readyQ && zombies != sleepQ && zombies != zombieQ
      modifies this`model, zombieQ, zombies, tasks, next, memory.allocator.pages,
        memory.allocator.mmu`tree, memory.allocator.mmu`tlb, memory.allocator.mmu.mem
      ensures RepWith(rest) && zombies.Holds(rest) && more == (old(model).zombie != []) && memory.Holds(model.pages)
      ensures if more then model == ReapHead(old(model)) && rest == ReapKept(old(model), kept)
              else model == old(model) && rest == kept
      ensures more ==> |model.zombie| == |old(model).zombie| - 1
    {
      rest := kept;
      var t := TakeZombie(kept);
      more := t != -1;
      if more {
        rest := ReapTaken(t, zombies, kept);
      }
    }

    /** The loop of `reaper_service`. */
    method ReapLoop(zombies: Queue) returns (ghost kept: seq<Slot>)
      requires Rep() && zombies.Holds([]) && memory.Holds(model.pages)
      requires Owned(model.tasks, model.pages) && ZombiesLive(model)
      requires zombies != readyQ && zombies != sleepQ && zombies != zombieQ
      modifies this`model, zombieQ, zombies, tasks, next, memory.allocator.pages,
        memory.allocator.mmu`tree, memory.allocator.mmu`tlb, memory.allocator.mmu.mem
      ensures RepWith(kept) && zombies.Holds(kept) && memory.Holds(model.pages)
      ensures model.zombie == [] && model.(zombie := kept) == ReapAll(old(model), [])
    {
      ghost var done := ReapAll(model, []);
      kept := [];
      var more := true;
      while more
        invariant RepWith(kept) && zombies.Holds(kept) && memory.Holds(model.pages)
        invariant Owned(model.tasks, model.pages) && ZombiesLive(model)
        invariant ReapAll(model, kept) == done
        invariant !more ==> model.zombie == []
        decreases |model.zombie|, more
      {
        if model.zombie != [] { ReapHeadOwned(model); }
        more, kept := ReapOne(zombies, kept);
      }
    }

    /** `reaper_service`, after its interrupt was acknowledged. */
    method ReaperService()
      requires Rep() && memory.Holds(model.pages) && Owned(model.tasks, model.pages) && ZombiesLive(model)
      requires !model.gc
      modifies this`model, zombieQ, tasks, next, memory.allocator.pages,
        memory.allocator.mmu`tree, memory.allocator.mmu`tlb, memory.allocator.mmu.mem
      ensures Rep() && memory.Holds(model.pages) && model == Reap(old(model))
    {
      ReapAllIs(model);
      var zombies := NewQueue();
      ghost var kept := ReapLoop(zombies);
      TakeOverZombies(zombies, kept);
    }

    /** `queue_t zombies = {ZERO, ZERO}` */
    method NewQueue() returns (q: Queue)
      requires Rep() && memory.Holds(model.pages)
      ensures fresh(q) && q.Holds([]) && Rep() && memory.Holds(model.pages)
    {
      q := new Queue();
    }

    /** `zombie_q = zombies` */
    method TakeOverZombies(zombies: Queue, ghost kept: seq<Slot>)
      requires RepWith(kept) && model.zombie == [] && zombies.Holds(kept) && memory.Holds(model.pages)
      modifies this`model, zombieQ
      ensures Rep() && model == old(model).(zombie := kept) && memory.Holds(model.pages)
    {
      SpareToThird(next[..], model.ready, model.sleep, kept);
      zombieQ.head, zombieQ.tail := zombies.head, zombies.tail;
      model := model.(zombie := kept);
    }

    /** `sched_check_tasks`, `schedule_task`, and the frame of the chosen task. */
    method Schedule(frame: Frame, now: nat) returns (nextFrame: Frame)
      requires Rep() && SwitchFit(Wake(model, now))
      modifies this`model, this`current, this`gcPending, readyQ, sleepQ, zombieQ, tasks, next
      ensures Rep() && model == Irq(old(model), frame, now) && nextFrame == Resumed(model)
      ensures model.pages == old(model).pages
    {
      CheckTasks(now);
      RequeueCurrent(frame);
      Dispatch();
      nextFrame := tasks[current].frame;
    }

    /** The same, beside the allocator, which it leaves alone. */
    method ScheduleBeside(frame: Frame, now: nat) returns (nextFrame: Frame)
      requires Rep() && memory.Holds(model.pages) && SwitchFit(Wake(model, now))
      modifies this`model, this`current, this`gcPending, readyQ, sleepQ, zombieQ, tasks, next
      ensures Rep() && memory.Holds(model.pages)
      ensures model == Irq(old(model), frame, now) && nextFrame == Resumed(model)
    {
      nextFrame := Schedule(frame, now);
    }

    /** The timer or yield branch of `kernel_irq`. */
    method OnSchedule(frame: Frame, now: nat) returns (nextFrame: Frame)
      requires Valid()
      modifies this`model, this`current, this`gcPending, readyQ, sleepQ, zombieQ, tasks, next
      ensures Valid() && model == Next(old(model), DoIrq(frame, now)) && nextFrame == Resumed(model)
      ensures Switched(old(model), frame, now, model)
    {
      assert SwitchFit(Wake(model, now)) by { WokenFit(model, now); }
      assert Good(Next(model, DoIrq(frame, now))) by { GoodNext(model, DoIrq(frame, now)); }
      assert Switched(model, frame, now, Next(model, DoIrq(frame, now))) by { NextEffect(model, DoIrq(frame, now)); }
      nextFrame := ScheduleBeside(frame, now);
    }

    /** Reading the interrupt number clears the pending interrupt. */
    method Acknowledge()
      requires Rep() && memory.Holds(model.pages)
      modifies this`model, this`gcPending
      ensures Rep() && memory.Holds(model.pages) && model == old(model).(gc := false)
    {
      gcPending, model := false, model.(gc := false);
    }

    /** The GC branch of `kernel_irq`. */
    method OnGc()
      requires Valid() && model.gc
      modifies this`model, this`gcPending, zombieQ, tasks, next, memory.allocator.pages,
        memory.allocator.mmu`tree, memory.allocator.mmu`tlb, memory.allocator.mmu.mem
      ensures Valid() && model == Next(old(model), DoGc) && Reaped(old(model), model)
    {
      assert ZombiesLive(model) by { ZombiesAreLive(model); }
      assert Good(Next(model, DoGc)) by { GoodNext(model, DoGc); }
      assert Reaped(model, Next(model, DoGc)) by { NextEffect(model, DoGc); }
      Acknowledge();
      ReaperService();
    }

    /** `kernel_irq` for the scheduler's interrupts; any other leaves the scheduler and the frame alone. */
    method KernelIrq(frame: Frame, interruptId: nat, now: nat) returns (nextFrame: Frame)
      requires Valid() && (interruptId == 9 ==> model.gc)
      modifies this`model, this`current, this`gcPending, readyQ, sleepQ, zombieQ, tasks, next, memory.allocator.pages,
        memory.allocator.mmu`tree, memory.allocator.mmu`tlb, memory.allocator.mmu.mem
      ensures Valid()
      ensures interruptId == 30 || interruptId == 8 ==>
        && model == Next(old(model), DoIrq(frame, now)) && nextFrame == Resumed(model)
        && Switched(old(model), frame, now, model)
      ensures interruptId == 9 ==>
        model == Next(old(model), DoGc) && nextFrame == frame && Reaped(old(model), model)
      ensures interruptId !in {30, 8, 9} ==> model == old(model) && nextFrame == frame
    {
      nextFrame := frame;
      if interruptId != 0 {
        if interruptId == CNTP_INTID || interruptId == SCHEDULER_YIELD {
          nextFrame := OnSchedule(frame, now);
        } else if interruptId == SCHEDULER_GC {
          OnGc();
        }
      }
    }
  }
}
