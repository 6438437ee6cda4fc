/**
 * The task scheduler of the kernel as a transition system on values: the pool, the three queues, the current
 * task of the scheduling core, and the pages that stacks take. Each locked section and each interrupt is a step.
 */
module Tasks {
  import opened Words
  import opened HeapPages

  const MAX_TASKS: nat := 64
  const IDLE: nat := 64          // the idle task of the core, kept after the pool
  const STACK_PAGES: nat := 3
  const FRAME_SIZE: nat := 816   // sizeof(trap_frame_t)
  const CORE: nat := 0
  const NOBODY: nat := 0xFF

  datatype State = Empty | Ready | Running | Sleeping | Zombie

  /**
   * A trap frame: none, the one `create_task` builds, by its offset from the beginning of the heap, or one an
   * exception entry pushed.
   */
  datatype Frame = NoFrame | Built(offset: int, entry: nat) | Pushed(address: nat)

  /** `task_t`; `stack` is the index of the first heap page of the stack, -1 for the null pointer. */
  datatype TaskData = TaskData(frame: Frame, id: nat, core: nat, state: State, wake: nat, stack: int)

  const ZEROED := TaskData(NoFrame, 0, 0, Empty, 0, -1)

  /** Slots 1 to 63 of `task_pool`, and the idle task; slot 0 is never used. */
  type Pool = t: seq<TaskData> | |t| == MAX_TASKS + 1 witness seq(MAX_TASKS + 1, i => ZEROED)

  type Slot = i: nat | i <= IDLE

  /** One truth value for each slot. */
  type Table = t: seq<bool> | |t| == MAX_TASKS + 1 witness seq(MAX_TASKS + 1, i => false)

  datatype Sched = Sched(tasks: Pool, ready: seq<Slot>, sleep: seq<Slot>, zombie: seq<Slot>, current: Slot,
                         nextId: nat, pages: Bitmap, gc: bool)

  // ---------------------------------------------------------------- steps

  /** The lowest empty slot from `i` on, or MAX_TASKS. */
  function FreeSlot(tasks: Pool, i: nat): (r: nat)
    requires i <= MAX_TASKS
    ensures i <= r <= MAX_TASKS && (r < MAX_TASKS ==> tasks[r].state.Empty?)
    ensures forall j :: i <= j < r ==> !tasks[j].state.Empty?
    decreases MAX_TASKS - i
  {
    if i == MAX_TASKS || tasks[i].state.Empty? then i else FreeSlot(tasks, i + 1)
  }

  function StackPages(pages: Bitmap, r: int, v: u8): (p: Bitmap) {
    if 0 <= r && r + STACK_PAGES <= |pages| then Marked(pages, r, STACK_PAGES, v) else pages
  }

  /** Where `create_task` builds the frame, `stack + TASK_STACK_SIZE - sizeof(trap_frame_t)`. */
  function FrameTop(stack: int): int { 4096 * stack + 12 * 1024 - FRAME_SIZE }

  /** `create_task` */
  function Create(s: Sched, entry: nat): Sched {
    var i := FreeSlot(s.tasks, 1);
    if i == MAX_TASKS then s
    else
      var r := FirstFit(s.pages, STACK_PAGES, 0);
      var id := (s.nextId + 1) % TWO_32;
      s.(tasks := s.tasks[i := TaskData(Built(FrameTop(r), entry), id, NOBODY, Ready, s.tasks[i].wake, r)],
         ready := s.ready + [i], nextId := id, pages := StackPages(s.pages, r, 1))
  }

  /** The locked part of `msleep`. */
  function Sleep(s: Sched, now: nat, ms: nat): Sched
  {
    s.(tasks := s.tasks[s.current := s.tasks[s.current].(wake := now + ms, state := Sleeping)],
       sleep := s.sleep + [s.current])
  }

  /** The locked part of `task_exit`. */
  function Exit(s: Sched): Sched
  {
    s.(tasks := s.tasks[s.current := s.tasks[s.current].(state := Zombie)])
  }

  /** The members of `q` whose table entry is `b`, in the order of `q`. */
  function Pick(q: seq<Slot>, table: Table, b: bool): seq<Slot> {
    if q == [] then []
    else
      var i := q[|q| - 1];
      Pick(q[..|q| - 1], table, b) + (if table[i] == b then [i] else [])
  }

  /** Which tasks are due at time `now`. */
  function Due(tasks: Pool, now: nat): Table {
    seq(MAX_TASKS + 1, i requires 0 <= i <= MAX_TASKS => now >= tasks[i].wake)
  }

  function Woken(tasks: Pool, due: seq<Slot>): Pool {
    seq(MAX_TASKS + 1, i requires 0 <= i <= MAX_TASKS => if i in due then tasks[i].(state := Ready) else tasks[i])
  }

  /** `sched_check_tasks` */
  function Wake(s: Sched, now: nat): Sched {
    var table := Due(s.tasks, now);
    var due := Pick(s.sleep, table, true);
    s.(tasks := Woken(s.tasks, due), ready := s.ready + due, sleep := Pick(s.sleep, table, false))
  }

  /** The first half of `schedule_task`: the current task's frame is recorded and the task queued by its state. */
  function SwitchOut(s: Sched, frame: Frame): Sched
  {
    var c := s.current;
    var t := s.tasks[c].(frame := frame);
    if t.state.Zombie? then s.(tasks := s.tasks[c := t], zombie := s.zombie + [c])
    else if t.state.Running? && c != IDLE then s.(tasks := s.tasks[c := t.(state := Ready)], ready := s.ready + [c])
    else s.(tasks := s.tasks[c := t])
  }

  /** The second half: the head of the ready queue, or else the idle task, becomes current. */
  function SwitchIn(s: Sched): (t: Sched)
  {
    var c := s.current;
    var next := if s.ready == [] then IDLE else s.ready[0];
    var tasks := if c != next then s.tasks[c := s.tasks[c].(core := NOBODY)] else s.tasks;
    s.(tasks := tasks[next := tasks[next].(state := Running, core := CORE)],
       ready := if s.ready == [] then [] else s.ready[1..],
       current := next,
       gc := s.gc || s.tasks[c].state.Zombie?)
  }

  /** The interrupt of the timer or of a yield: wake what is due, then switch. */
  function Irq(s: Sched, frame: Frame, now: nat): Sched { SwitchIn(SwitchOut(Wake(s, now), frame)) }

  /** Which tasks no core is still running. */
  function Idle(tasks: Pool): Table {
    seq(MAX_TASKS + 1, i requires 0 <= i <= MAX_TASKS => tasks[i].core == NOBODY)
  }

  function Zeroed(tasks: Pool, dead: seq<Slot>): Pool {
    seq(MAX_TASKS + 1, i requires 0 <= i <= MAX_TASKS => if i in dead then ZEROED else tasks[i])
  }

  /** The stacks of the tasks in `dead` given back, one after the other. */
  function StacksFreed(pages: Bitmap, tasks: Pool, dead: seq<Slot>): Bitmap {
    if dead == [] then pages
    else
      var i := dead[|dead| - 1];
      var p := StacksFreed(pages, tasks, dead[..|dead| - 1]);
      StackPages(p, tasks[i].stack, 0)
  }

  /** The GC interrupt: `reaper_service`. */
  function Reap(s: Sched): Sched {
    var table := Idle(s.tasks);
    var dead := Pick(s.zombie, table, true);
    s.(tasks := Zeroed(s.tasks, dead), zombie := Pick(s.zombie, table, false),
       pages := StacksFreed(s.pages, s.tasks, dead), gc := false)
  }

  /** `init_sched`, on a zeroed pool with no stack allocated. */
  function Init(): Sched {
    Sched(seq(MAX_TASKS, i => ZEROED) + [ZEROED.(state := Running)], [], [], [], IDLE, 0, seq(MAX_PAGES, i => 0), false)
  }

  // ---------------------------------------------------------------- events and runs

  datatype Event =
    | DoCreate(entry: nat)
    | DoSleep(at: nat, ms: nat)
    | DoExit
    | DoIrq(frame: Frame, now: nat)
    | DoGc

  /** `msleep` and `task_exit` are called by a running task of the pool; the GC interrupt needs its SGI. */
  predicate Enabled(s: Sched, e: Event) {
    && ((e.DoSleep? || e.DoExit?) ==> s.current < IDLE && s.tasks[s.current].state.Running?)
    && (e.DoGc? ==> s.gc)
  }

  function Next(s: Sched, e: Event): Sched
    requires Enabled(s, e)
  {
    match e
    case DoCreate(entry) => Create(s, entry)
    case DoSleep(at, ms) => Sleep(s, at, ms)
    case DoExit => Exit(s)
    case DoIrq(frame, now) => Irq(s, frame, now)
    case DoGc => Reap(s)
  }

  /** `ss` are the states of a run of `es` from `ss[0]`. */
  ghost predicate IsRun(ss: seq<Sched>, es: seq<Event>) {
    && |ss| == |es| + 1
    && forall k :: 0 <= k < |es| ==> Enabled(ss[k], es[k]) && ss[k + 1] == Next(ss[k], es[k])
  }
}
