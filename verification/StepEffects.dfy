/** What each event does to the scheduler, said without its transition functions: the only state that fits. */
module StepEffects {
  import opened Words
  import opened HeapPages
  import opened Tasks
  import opened SchedInvariant
  import opened SchedRuns
  import opened Draining
  import opened Stacks

  /** What holds of every state that is reached. */
  ghost predicate Good(s: Sched) { Inv(s) && Owned(s.tasks, s.pages) }

  lemma InitGood()
    ensures Good(Init())
  {
    InitInv();
    InitOwned();
  }

  lemma GoodNext(s: Sched, e: Event)
    requires Good(s) && Enabled(s, e)
    ensures Good(Next(s, e))
  {
    NextInv(s, e);
    NextOwned(s, e);
  }

  // ---------------------------------------------------------------- the effects

  predicate LowestEmpty(tasks: Pool, i: Slot) {
    1 <= i < MAX_TASKS && tasks[i].state.Empty? && forall j :: 1 <= j < i ==> !tasks[j].state.Empty?
  }

  predicate NoneEmpty(tasks: Pool) { forall j :: 1 <= j < MAX_TASKS ==> !tasks[j].state.Empty? }

  predicate ThreeFree(pages: Bitmap, r: nat) {
    r + 3 <= MAX_PAGES && pages[r] == 0 && pages[r + 1] == 0 && pages[r + 2] == 0
  }

  /** The lowest three free pages in a row. */
  ghost predicate LowestFree(pages: Bitmap, r: int) {
    0 <= r && ThreeFree(pages, r) && forall j: nat :: j < r ==> !ThreeFree(pages, j)
  }

  /** Slot `i` of `t` holds a new task: at its entry, on a stack of three newly marked pages, last to run. */
  ghost predicate TaskIn(s: Sched, entry: nat, t: Sched, i: Slot) {
    var r := t.tasks[i].stack;
    && LowestEmpty(s.tasks, i) && LowestFree(s.pages, r)
    && t.ready == s.ready + [i]
    && t.nextId == (s.nextId + 1) % TWO_32
    && t.tasks[i] == TaskData(Built(4096 * r + 12288 - 816, entry), t.nextId, 0xFF, Ready, s.tasks[i].wake, r)
    && (forall j: Slot :: j != i ==> t.tasks[j] == s.tasks[j])
    && (forall k :: 0 <= k < MAX_PAGES ==> t.pages[k] == if r <= k < r + 3 then 1 else s.pages[k])
    && t.sleep == s.sleep && t.zombie == s.zombie && t.current == s.current && t.gc == s.gc
  }

  /** A task is created in the lowest empty slot; with none, nothing happens. */
  ghost predicate Created(s: Sched, entry: nat, t: Sched) {
    if NoneEmpty(s.tasks) then t == s else exists i: Slot :: TaskIn(s, entry, t, i)
  }

  /** The current task is put to sleep until `at + ms`. */
  ghost predicate Slept(s: Sched, at: nat, ms: nat, t: Sched) {
    && t.sleep == s.sleep + [s.current]
    && (forall i: Slot ::
          t.tasks[i] == if i == s.current then s.tasks[i].(wake := at + ms, state := Sleeping) else s.tasks[i])
    && t.ready == s.ready && t.zombie == s.zombie && t.current == s.current
    && t.nextId == s.nextId && t.pages == s.pages && t.gc == s.gc
  }

  /** The current task becomes a zombie, and stays current. */
  ghost predicate Exited(s: Sched, t: Sched) {
    && (forall i: Slot :: t.tasks[i] == if i == s.current then s.tasks[i].(state := Zombie) else s.tasks[i])
    && t.ready == s.ready && t.sleep == s.sleep && t.zombie == s.zombie && t.current == s.current
    && t.nextId == s.nextId && t.pages == s.pages && t.gc == s.gc
  }

  /** The members of `q` whose wake time has, or has not, come; in the order of the queue. */
  function Sleepers(q: seq<Slot>, tasks: Pool, now: nat, due: bool): seq<Slot> {
    if q == [] then []
    else (if (tasks[q[0]].wake <= now) == due then [q[0]] else []) + Sleepers(q[1..], tasks, now, due)
  }

  /** Who waits for the core: the ready, then the sleepers now due, then the running task of the pool. */
  function Waiting(s: Sched, now: nat): seq<Slot> {
    s.ready + Sleepers(s.sleep, s.tasks, now, true)
    + if s.current != IDLE && s.tasks[s.current].state.Running? then [s.current] else []
  }

  /** Task `i` after an interrupt that makes `next` current. */
  function TaskAfter(s: Sched, frame: Frame, now: nat, next: Slot, i: Slot): TaskData {
    var x := s.tasks[i];
    TaskData(if i == s.current then frame else x.frame, x.id,
             if i == next then 0 else if i == s.current then 0xFF else x.core,
             if i == next then Running else if i in Waiting(s, now) then Ready else x.state, x.wake, x.stack)
  }

  /** The first that waits gets the core, or else the idle task; a current zombie is queued, its reaping pending. */
  ghost predicate Switched(s: Sched, frame: Frame, now: nat, t: Sched) {
    var line, exited := Waiting(s, now), s.tasks[s.current].state.Zombie?;
    && t.current == (if line == [] then IDLE else line[0])
    && t.ready == (if line == [] then [] else line[1..])
    && t.sleep == Sleepers(s.sleep, s.tasks, now, false)
    && t.zombie == s.zombie + (if exited then [s.current] else [])
    && t.gc == (s.gc || exited)
    && (forall i: Slot :: t.tasks[i] == TaskAfter(s, frame, now, t.current, i))
    && t.nextId == s.nextId && t.pages == s.pages
  }

  /** Page `k` belongs to the stack of a queued zombie. */
  ghost predicate DeadPage(s: Sched, k: int) {
    exists z: Slot :: z in s.zombie && s.tasks[z].stack <= k < s.tasks[z].stack + 3
  }

  /** Every queued zombie is cleared and its three stack pages are free again. */
  ghost predicate Reaped(s: Sched, t: Sched) {
    && t.zombie == [] && !t.gc
    && (forall i: Slot :: t.tasks[i] == if i in s.zombie then TaskData(NoFrame, 0, 0, Empty, 0, -1) else s.tasks[i])
    && (forall k :: 0 <= k < MAX_PAGES ==> t.pages[k] == if DeadPage(s, k) then 0 else s.pages[k])
    && t.ready == s.ready && t.sleep == s.sleep && t.current == s.current && t.nextId == s.nextId
  }

  ghost predicate Effect(s: Sched, e: Event, t: Sched) {
    match e
    case DoCreate(entry) => Created(s, entry, t)
    case DoSleep(at, ms) => Slept(s, at, ms, t)
    case DoExit => Exited(s, t)
    case DoIrq(frame, now) => Switched(s, frame, now, t)
    case DoGc => Reaped(s, t)
  }

  /** At the start nothing exists but the idle task, which runs. */
  lemma InitIs(i: Slot, k: nat)
    requires k < MAX_PAGES
    ensures var s := Init();
      && s.tasks[i] == TaskData(NoFrame, 0, 0, if i == IDLE then Running else Empty, 0, -1)
      && s.ready == [] && s.sleep == [] && s.zombie == [] && s.current == IDLE
      && s.nextId == 0 && s.pages[k] == 0 && !s.gc
  {
  }

  // ---------------------------------------------------------------- creation

  lemma SlotFound(tasks: Pool)
    ensures FreeSlot(tasks, 1) == MAX_TASKS <==> NoneEmpty(tasks)
    ensures FreeSlot(tasks, 1) < MAX_TASKS ==> LowestEmpty(tasks, FreeSlot(tasks, 1))
  {
  }

  lemma FirstFitIsLowest(pages: Bitmap)
    requires FirstFit(pages, STACK_PAGES, 0) >= 0
    ensures LowestFree(pages, FirstFit(pages, STACK_PAGES, 0))
  {
    var r := FirstFit(pages, STACK_PAGES, 0);
    forall j: nat | j < r
      ensures !ThreeFree(pages, j)
    {
      ThreeAreFree(pages, j);
    }
  }

  lemma ThreeAreFree(pages: Bitmap, r: nat)
    ensures ThreeFree(pages, r) <==> Free(pages, r, STACK_PAGES)
  {
  }

  lemma CreateFills(s: Sched, entry: nat, i: Slot, r: nat)
    requires i == FreeSlot(s.tasks, 1) && LowestEmpty(s.tasks, i)
    requires r == FirstFit(s.pages, STACK_PAGES, 0) && LowestFree(s.pages, r)
    ensures TaskIn(s, entry, Create(s, entry), i)
  {
    var t := Create(s, entry);
    assert t.pages == Marked(s.pages, r, STACK_PAGES, 1);
    assert t.tasks[i].stack == r;
  }

  lemma CreateEffect(s: Sched, entry: nat)
    requires Good(s)
    ensures Created(s, entry, Create(s, entry))
  {
    SlotFound(s.tasks);
    var i := FreeSlot(s.tasks, 1);
    if i < MAX_TASKS {
      var r := FirstFit(s.pages, STACK_PAGES, 0);
      assert r >= 0 by { StackFound(s.tasks, s.pages, i); }
      FirstFitIsLowest(s.pages);
      CreateFills(s, entry, i, r);
    }
  }

  // ---------------------------------------------------------------- the interrupt

  lemma {:induction false} SleepersPicked(q: seq<Slot>, tasks: Pool, now: nat, due: bool)
    ensures Sleepers(q, tasks, now, due) == Pick(q, Due(tasks, now), due)
  {
    if q == [] {
    } else {
      SleepersPicked(q[1..], tasks, now, due);
      PickHead(q, Due(tasks, now), due);
    }
  }

  lemma WakeEffect(s: Sched, now: nat)
    ensures var w, due := Wake(s, now), Sleepers(s.sleep, s.tasks, now, true);
      && w.ready == s.ready + due && w.sleep == Sleepers(s.sleep, s.tasks, now, false)
      && w == s.(tasks := w.tasks, ready := w.ready, sleep := w.sleep)
      && forall i: Slot :: w.tasks[i] == if i in due then s.tasks[i].(state := Ready) else s.tasks[i]
  {
    SleepersPicked(s.sleep, s.tasks, now, true);
    SleepersPicked(s.sleep, s.tasks, now, false);
  }

  /** After the first half of a switch the ready queue is the line of those that wait. */
  lemma LineEffect(s: Sched, frame: Frame, now: nat)
    requires Inv(s)
    ensures var b, exited := SwitchOut(Wake(s, now), frame), s.tasks[s.current].state.Zombie?;
      && b.ready == Waiting(s, now) && b.sleep == Sleepers(s.sleep, s.tasks, now, false)
      && b.zombie == s.zombie + (if exited then [s.current] else [])
      && b == s.(tasks := b.tasks, ready := b.ready, sleep := b.sleep, zombie := b.zombie)
      && b.tasks[s.current].state.Zombie? == exited
  {
    WakeEffect(s, now);
    CurrentWoken(s, now);
    SleepersPicked(s.sleep, s.tasks, now, true);
    PickMembers(s.sleep, Due(s.tasks, now), true);
    if s.current != IDLE { assert Placed(s, s.current); }
  }

  lemma OutTasks(w: Sched, frame: Frame, i: Slot)
    ensures var c, x := w.current, w.tasks[i];
      SwitchOut(w, frame).tasks[i]
      == x.(frame := if i == c then frame else x.frame,
            state := if i == c && c != IDLE && x.state.Running? then Ready else x.state)
  {
  }

  lemma LineTasks(s: Sched, frame: Frame, now: nat, i: Slot)
    requires Inv(s)
    ensures var x := s.tasks[i];
      SwitchOut(Wake(s, now), frame).tasks[i] == x.(frame := if i == s.current then frame else x.frame,
                                                    state := if i in Waiting(s, now) then Ready else x.state)
  {
    OutTasks(Wake(s, now), frame, i);
    WakeEffect(s, now);
    CurrentWoken(s, now);
    if 1 <= i < MAX_TASKS { assert Placed(s, i); }
  }

  lemma TasksEffect(s: Sched, frame: Frame, now: nat, i: Slot)
    requires Inv(s)
    ensures var t := Irq(s, frame, now); t.tasks[i] == TaskAfter(s, frame, now, t.current, i)
  {
    LineEffect(s, frame, now);
    LineTasks(s, frame, now, i);
  }

  lemma SwitchEffect(s: Sched, frame: Frame, now: nat)
    requires Inv(s)
    ensures Switched(s, frame, now, Irq(s, frame, now))
  {
    LineEffect(s, frame, now);
    forall i: Slot
      ensures Irq(s, frame, now).tasks[i] == TaskAfter(s, frame, now, Irq(s, frame, now).current, i)
    {
      TasksEffect(s, frame, now, i);
    }
  }

  // ---------------------------------------------------------------- reaping

  /** Page `k` belongs to the stack of a task in `dead`. */
  ghost predicate InStacks(tasks: Pool, dead: seq<Slot>, k: int) {
    exists z: Slot :: z in dead && tasks[z].stack <= k < tasks[z].stack + 3
  }

  lemma {:induction false} StacksFreedAt(pages: Bitmap, tasks: Pool, dead: seq<Slot>, k: nat)
    requires k < MAX_PAGES && forall z :: z in dead ==> 0 <= tasks[z].stack <= MAX_PAGES - STACK_PAGES
    ensures StacksFreed(pages, tasks, dead)[k] == if InStacks(tasks, dead, k) then 0 else pages[k]
  {
    if dead == [] {
    } else {
      var rest, e := dead[..|dead| - 1], dead[|dead| - 1];
      assert dead == rest + [e] && e in dead;
      StacksFreedAt(pages, tasks, rest, k);
      assert InStacks(tasks, dead, k) <==> InStacks(tasks, rest, k) || tasks[e].stack <= k < tasks[e].stack + 3;
    }
  }

  lemma ReapEffect(s: Sched)
    requires Good(s)
    ensures Reaped(s, Reap(s))
  {
    var dead := Pick(s.zombie, Idle(s.tasks), true);
    ReapTakesAll(s);
    ReapFrees(s);
    forall z | z in dead
      ensures 0 <= s.tasks[z].stack <= MAX_PAGES - STACK_PAGES
    {
      assert Placed(s, z);
      assert Live(s.tasks, z);
    }
    forall k | 0 <= k < MAX_PAGES
      ensures Reap(s).pages[k] == if DeadPage(s, k) then 0 else s.pages[k]
    {
      StacksFreedAt(s.pages, s.tasks, dead, k);
      assert InStacks(s.tasks, dead, k) <==> DeadPage(s, k);
    }
  }

  // ---------------------------------------------------------------- all events

  lemma NextEffect(s: Sched, e: Event)
    requires Good(s) && Enabled(s, e)
    ensures Effect(s, e, Next(s, e))
  {
    match e
    case DoCreate(entry) => CreateEffect(s, entry);
    case DoSleep(_, _) =>
    case DoExit =>
    case DoIrq(frame, now) => SwitchEffect(s, frame, now);
    case DoGc => ReapEffect(s);
  }

  lemma CreatedOnce(s: Sched, entry: nat, t: Sched, u: Sched)
    requires Created(s, entry, t) && Created(s, entry, u)
    ensures t == u
  {
    if !NoneEmpty(s.tasks) {
      var i: Slot :| TaskIn(s, entry, t, i);
      var j: Slot :| TaskIn(s, entry, u, j);
      assert i == j;
      assert t.tasks[i].stack == u.tasks[i].stack;
      assert t.tasks == u.tasks && t.pages == u.pages;
    }
  }

  /** No two states fit: an event has exactly one effect. */
  lemma EffectOnce(s: Sched, e: Event, t: Sched, u: Sched)
    requires Effect(s, e, t) && Effect(s, e, u)
    ensures t == u
  {
    if e.DoCreate? {
      CreatedOnce(s, e.entry, t, u);
    } else {
      assert t.tasks == u.tasks && t.pages == u.pages;
    }
  }

  /** So the transition functions compute what the events do, and nothing else. */
  lemma NextIsEffect(s: Sched, e: Event, t: Sched)
    requires Good(s) && Enabled(s, e)
    ensures t == Next(s, e) <==> Effect(s, e, t)
  {
    NextEffect(s, e);
    if Effect(s, e, t) { EffectOnce(s, e, t, Next(s, e)); }
  }
}
