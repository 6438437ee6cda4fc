/** Guarantees over whole runs of the scheduler: waiting, resumption, sleeping, and exit. */
module SchedRuns {
  import opened Tasks
  import opened SchedInvariant

  // ---------------------------------------------------------------- bounded waiting

  /** Scheduling interrupts among the events. */
  function Irqs(es: seq<Event>): nat {
    if es == [] then 0 else Irqs(es[..|es| - 1]) + if es[|es| - 1].DoIrq? then 1 else 0
  }

  /** An interrupt moves the waiting task at place `k` one place forward; nothing else moves it. */
  ghost predicate Moves(s: Sched, e: Event, t: Sched, k: nat)
    requires k < |s.ready|
  {
    if !e.DoIrq? then k < |t.ready| && t.ready[k] == s.ready[k]
    else if k == 0 then t.current == s.ready[0]
    else k - 1 < |t.ready| && t.ready[k - 1] == s.ready[k]
  }

  ghost predicate QueueLink(s: Sched, e: Event, t: Sched) { forall k: nat :: k < |s.ready| ==> Moves(s, e, t, k) }

  lemma {:induction false} Advances(ss: seq<Sched>, es: seq<Event>, k: nat, m: nat)
    requires |ss| == |es| + 1 && forall i :: 0 <= i < |es| ==> QueueLink(ss[i], es[i], ss[i + 1])
    requires k < |ss[0].ready| && m <= |es| && Irqs(es[..m]) <= k
    ensures var p := k - Irqs(es[..m]); p < |ss[m].ready| && ss[m].ready[p] == ss[0].ready[k]
  {
    if m == 0 {
    } else {
      assert es[..m][..m - 1] == es[..m - 1];
      Advances(ss, es, k, m - 1);
      assert QueueLink(ss[m - 1], es[m - 1], ss[m]);
      assert Moves(ss[m - 1], es[m - 1], ss[m], k - Irqs(es[..m - 1]));
    }
  }

  /** A task that is waiting is not current. */
  ghost predicate WaitersOff(s: Sched) { forall k :: 0 <= k < |s.ready| ==> s.ready[k] != s.current }

  lemma WaitingNotCurrent(s: Sched)
    requires Inv(s)
    ensures WaitersOff(s)
  {
    forall k | 0 <= k < |s.ready|
      ensures s.ready[k] != s.current
    {
      assert s.ready[k] in s.ready;
      assert Placed(s, s.ready[k]);
    }
  }

  lemma {:induction false} IrqsGrow(es: seq<Event>, m: nat)
    requires m <= |es|
    ensures Irqs(es[..m]) <= Irqs(es)
  {
    if m < |es| {
      assert es[..|es| - 1][..m] == es[..m];
      IrqsGrow(es[..|es| - 1], m);
    } else {
      assert es[..m] == es;
    }
  }

  lemma AllMove(s: Sched, e: Event)
    requires Enabled(s, e)
    ensures QueueLink(s, e, Next(s, e))
  {
  }

  lemma QueueLinks(ss: seq<Sched>, es: seq<Event>)
    requires IsRun(ss, es) && Inv(ss[0])
    ensures forall i :: 0 <= i < |es| ==> QueueLink(ss[i], es[i], ss[i + 1]) && WaitersOff(ss[i])
  {
    forall i | 0 <= i < |es|
      ensures QueueLink(ss[i], es[i], ss[i + 1]) && WaitersOff(ss[i])
    {
      RunInv(ss, es, i);
      AllMove(ss[i], es[i]);
      WaitingNotCurrent(ss[i]);
    }
  }

  lemma DispatchedInTurn(ss: seq<Sched>, es: seq<Event>, k: nat)
    requires |ss| == |es| + 1
    requires forall i :: 0 <= i < |es| ==> QueueLink(ss[i], es[i], ss[i + 1]) && WaitersOff(ss[i])
    requires k < |ss[0].ready| && es != [] && es[|es| - 1].DoIrq? && Irqs(es) == k + 1
    ensures ss[|es|].current == ss[0].ready[k]
    ensures forall m :: 0 <= m < |es| ==> ss[m].current != ss[0].ready[k]
  {
    var n := |es| - 1;
    Advances(ss, es, k, n);
    assert QueueLink(ss[n], es[n], ss[n + 1]);
    assert Moves(ss[n], es[n], ss[n + 1], 0);
    forall m | 0 <= m < |es|
      ensures ss[m].current != ss[0].ready[k]
    {
      assert es[..n][..m] == es[..m];
      IrqsGrow(es[..n], m);
      Advances(ss, es, k, m);
      assert WaitersOff(ss[m]);
    }
  }

  /**
   * The task at place `k` of the ready queue becomes current at exactly the (k+1)-th scheduling interrupt from
   * now, whatever creates, wake-ups, sleeps and exits come between.
   */
  lemma BoundedWaiting(ss: seq<Sched>, es: seq<Event>, k: nat)
    requires IsRun(ss, es) && Inv(ss[0]) && k < |ss[0].ready|
    requires es != [] && es[|es| - 1].DoIrq? && Irqs(es) == k + 1
    ensures ss[|es|].current == ss[0].ready[k]
    ensures forall m :: 0 <= m < |es| ==> ss[m].current != ss[0].ready[k]
  {
    QueueLinks(ss, es);
    DispatchedInTurn(ss, es, k);
  }

  lemma TurnsLeft(es: seq<Event>, k: nat, m: nat)
    requires m < |es| && es[|es| - 1].DoIrq? && Irqs(es) == k + 1
    ensures Irqs(es[..m]) <= k
  {
    var n := |es| - 1;
    assert es[..n][..m] == es[..m];
    IrqsGrow(es[..n], m);
  }

  /** Until then it stays in the queue. */
  lemma WaitsInLine(ss: seq<Sched>, es: seq<Event>, k: nat, m: nat)
    requires IsRun(ss, es) && Inv(ss[0]) && k < |ss[0].ready| && m < |es|
    requires es[|es| - 1].DoIrq? && Irqs(es) == k + 1
    ensures ss[0].ready[k] in ss[m].ready
  {
    TurnsLeft(es, k, m);
    QueueLinks(ss, es);
    Advances(ss, es, k, m);
  }

  predicate Same(t: TaskData, s: TaskData) {
    t.frame == s.frame && t.wake == s.wake && t.stack == s.stack && t.id == s.id
  }

  lemma WakeKeeps(s: Sched, now: nat)
    ensures var t := Wake(s, now);
      && t.sleep == Pick(s.sleep, Due(s.tasks, now), false) && t.current == s.current
      && forall i: Slot :: Same(t.tasks[i], s.tasks[i])
  {
  }

  /** What an interrupt leaves alone, and what it makes of the sleep queue. */
  lemma IrqKeeps(s: Sched, frame: Frame, now: nat)
    ensures var t := Irq(s, frame, now);
      && t.sleep == Pick(s.sleep, Due(s.tasks, now), false)
      && forall i: Slot :: Same(t.tasks[i], s.tasks[i].(frame := if i == s.current then frame else s.tasks[i].frame))
  {
    var w := Wake(s, now);
    WakeKeeps(s, now);
    SwitchedKeeps(w, frame);
  }

  lemma SwitchedKeeps(w: Sched, frame: Frame)
    ensures var t := SwitchIn(SwitchOut(w, frame));
      && t.sleep == w.sleep
      && forall i: Slot :: Same(t.tasks[i], w.tasks[i].(frame := if i == w.current then frame else w.tasks[i].frame))
  {
  }

  /** The idle task is dispatched exactly when, after wake-ups and with the running task requeued, none is ready. */
  lemma IdleOnlyWhenNoneReady(s: Sched, frame: Frame, now: nat)
    requires Inv(s)
    ensures Irq(s, frame, now).current == IDLE
      <==> (Wake(s, now).ready == [] && (s.current == IDLE || !s.tasks[s.current].state.Running?))
  {
    var w := Wake(s, now);
    assert Places(w) by { WakePlaces(s, now); }
    CurrentWoken(s, now);
    IdleOnly(w, frame);
  }

  lemma CurrentWoken(s: Sched, now: nat)
    requires Inv(s)
    ensures Wake(s, now).current == s.current
    ensures Wake(s, now).tasks[s.current].state.Running? <==> s.tasks[s.current].state.Running?
  {
    PickMembers(s.sleep, Due(s.tasks, now), true);
    if s.current != IDLE { assert Placed(s, s.current); }
  }

  lemma IdleOnly(w: Sched, frame: Frame)
    requires Places(w)
    ensures SwitchIn(SwitchOut(w, frame)).current == IDLE
      <==> (w.ready == [] && (w.current == IDLE || !w.tasks[w.current].state.Running?))
  {
    if w.ready != [] { assert w.ready[0] in w.ready; }
  }

  // ---------------------------------------------------------------- resumption

  /** Only its own switch-out, its creation and its reaping touch the frame of a task. */
  ghost predicate FrameLink(s: Sched, e: Event, t: Sched) {
    forall x: Slot :: !s.tasks[x].state.Empty? && !t.tasks[x].state.Empty? && (e.DoIrq? ==> s.current != x) ==>
      t.tasks[x].frame == s.tasks[x].frame && t.tasks[x].stack == s.tasks[x].stack
  }

  lemma FrameStep(s: Sched, e: Event)
    requires Inv(s) && Enabled(s, e)
    ensures FrameLink(s, e, Next(s, e))
  {
    match e
    case DoIrq(frame, now) => IrqKeeps(s, frame, now);
    case DoGc => ReapFrees(s);
    case DoCreate(_) =>
    case DoSleep(_, _) =>
    case DoExit =>
  }

  /** A dispatched task exists. */
  lemma DispatchedIsLive(s: Sched)
    requires Inv(s)
    ensures !s.tasks[s.current].state.Empty?
  {
    if s.current != IDLE { assert Placed(s, s.current); }
  }

  lemma FrameLinks(ss: seq<Sched>, es: seq<Event>)
    requires IsRun(ss, es) && Inv(ss[0])
    ensures forall i :: 0 <= i < |es| ==> FrameLink(ss[i], es[i], ss[i + 1])
  {
    forall i | 0 <= i < |es|
      ensures FrameLink(ss[i], es[i], ss[i + 1])
    {
      RunInv(ss, es, i);
      FrameStep(ss[i], es[i]);
    }
  }

  /** From state `j` to state `m` the task is neither current nor gone. */
  ghost predicate Parked(ss: seq<Sched>, x: Slot, j: nat, m: nat)
    requires m < |ss|
  {
    forall i :: j <= i <= m ==> ss[i].current != x && !ss[i].tasks[x].state.Empty?
  }

  lemma {:induction false} ParkedFrame(ss: seq<Sched>, es: seq<Event>, x: Slot, j: nat, m: nat)
    requires |ss| == |es| + 1 && forall i :: 0 <= i < |es| ==> FrameLink(ss[i], es[i], ss[i + 1])
    requires j <= m <= |es| && Parked(ss, x, j, m)
    ensures ss[m].tasks[x].frame == ss[j].tasks[x].frame && ss[m].tasks[x].stack == ss[j].tasks[x].stack
    decreases m - j
  {
    if j == m {
    } else {
      ParkedFrame(ss, es, x, j, m - 1);
      assert FrameLink(ss[m - 1], es[m - 1], ss[m]);
    }
  }

  /** The frame that the interrupt handler returns. */
  function Resumed(s: Sched): Frame { s.tasks[s.current].frame }

  /** A switch-out records the frame of the interrupted task; if the same task goes on, it is the one returned. */
  lemma FrameRecorded(s: Sched, frame: Frame, now: nat)
    ensures Irq(s, frame, now).tasks[s.current].frame == frame
  {
  }

  /** A parked task that the next interrupt puts on the core gets the frame and the stack it was parked with. */
  lemma ParkedResumes(ss: seq<Sched>, es: seq<Event>, x: Slot, j: nat, m: nat)
    requires IsRun(ss, es) && Inv(ss[0]) && j <= m < |es| && es[m].DoIrq?
    requires Parked(ss, x, j, m) && ss[m + 1].current == x
    ensures Resumed(ss[m + 1]) == ss[j].tasks[x].frame && ss[m + 1].tasks[x].stack == ss[j].tasks[x].stack
  {
    FrameLinks(ss, es);
    ParkedFrame(ss, es, x, j, m);
    assert Inv(ss[m + 1]) by { RunInv(ss, es, m + 1); }
    DispatchedIsLive(ss[m + 1]);
    assert FrameLink(ss[m], es[m], ss[m + 1]);
  }

  /**
   * A task that interrupt `j` took off the core and that interrupt `m` is the first to put back continues
   * with exactly the frame that the exception entry of interrupt `j` had pushed.
   */
  lemma ResumesWhereStopped(ss: seq<Sched>, es: seq<Event>, x: Slot, j: nat, m: nat)
    requires IsRun(ss, es) && Inv(ss[0]) && j < m < |es| && es[j].DoIrq? && es[m].DoIrq?
    requires ss[j].current == x && Parked(ss, x, j + 1, m) && ss[m + 1].current == x
    ensures Resumed(ss[m + 1]) == es[j].frame
  {
    ParkedResumes(ss, es, x, j + 1, m);
    assert ss[j + 1] == Next(ss[j], es[j]);
    FrameRecorded(ss[j], es[j].frame, es[j].now);
  }

  /** A task that has never run starts in the frame that its creation built: its entry, on top of its stack. */
  lemma StartsAtEntry(ss: seq<Sched>, es: seq<Event>, x: Slot, j: nat, m: nat)
    requires IsRun(ss, es) && Inv(ss[0]) && j < m < |es| && es[j].DoCreate? && es[m].DoIrq?
    requires x == FreeSlot(ss[j].tasks, 1) < MAX_TASKS && Parked(ss, x, j + 1, m) && ss[m + 1].current == x
    ensures Resumed(ss[m + 1]) == Built(FrameTop(ss[m + 1].tasks[x].stack), es[j].entry)
  {
    ParkedResumes(ss, es, x, j + 1, m);
    assert ss[j + 1] == Create(ss[j], es[j].entry);
  }

  // ---------------------------------------------------------------- sleeping

  /** A scheduling interrupt leaves nobody asleep who is due. */
  lemma NoneDueAsleep(s: Sched, frame: Frame, now: nat)
    requires Inv(s)
    ensures forall i: Slot :: i in Irq(s, frame, now).sleep ==> Irq(s, frame, now).tasks[i].wake > now
  {
    IrqKeeps(s, frame, now);
    PickMembers(s.sleep, Due(s.tasks, now), false);
  }

  /** A sleeper stays asleep, and off the core, until an interrupt at or after its wake time. */
  ghost predicate SleepLink(s: Sched, e: Event, t: Sched) {
    forall x: Slot :: x in s.sleep ==>
      (e.DoIrq? && e.now >= s.tasks[x].wake)
      || (x in t.sleep && t.tasks[x].wake == s.tasks[x].wake && (e.DoIrq? ==> t.current != x))
  }

  lemma AsleepIsOff(s: Sched, x: Slot)
    requires Inv(s) && x in s.sleep && s.tasks[s.current].state.Running?
    ensures s.current != x
  {
    assert Placed(s, x);
  }

  lemma SleepIrq(s: Sched, frame: Frame, now: nat, x: Slot)
    requires Inv(s) && x in s.sleep && now < s.tasks[x].wake
    ensures var t := Irq(s, frame, now); x in t.sleep && t.tasks[x].wake == s.tasks[x].wake && t.current != x
  {
    IrqKeeps(s, frame, now);
    PickMember(s.sleep, Due(s.tasks, now), false, x);
    assert Inv(Irq(s, frame, now)) by { IrqInv(s, frame, now); }
    AsleepIsOff(Irq(s, frame, now), x);
  }

  lemma SleepStep(s: Sched, e: Event)
    requires Inv(s) && Enabled(s, e)
    ensures SleepLink(s, e, Next(s, e))
  {
    forall x: Slot | x in s.sleep && !(e.DoIrq? && e.now >= s.tasks[x].wake)
      ensures var t := Next(s, e);
        x in t.sleep && t.tasks[x].wake == s.tasks[x].wake && (e.DoIrq? ==> t.current != x)
    {
      assert Placed(s, x);
      match e
      case DoIrq(frame, now) => SleepIrq(s, frame, now, x);
      case DoGc => ReapFrees(s);
      case DoCreate(_) =>
      case DoSleep(_, _) => AsleepIsOff(s, x);
      case DoExit =>
    }
  }

  lemma SleepLinks(ss: seq<Sched>, es: seq<Event>)
    requires IsRun(ss, es) && Inv(ss[0])
    ensures forall i :: 0 <= i < |es| ==> SleepLink(ss[i], es[i], ss[i + 1])
  {
    forall i | 0 <= i < |es|
      ensures SleepLink(ss[i], es[i], ss[i + 1])
    {
      RunInv(ss, es, i);
      SleepStep(ss[i], es[i]);
    }
  }

  /** The clock that scheduling interrupts read never goes back. */
  ghost predicate Monotone(es: seq<Event>) {
    forall a, b :: 0 <= a < b < |es| && es[a].DoIrq? && es[b].DoIrq? ==> es[a].now <= es[b].now
  }

  ghost predicate Passed(es: seq<Event>, j: nat, m: nat, w: nat) {
    exists a :: j <= a < m && a < |es| && es[a].DoIrq? && es[a].now >= w
  }

  lemma {:induction false} AsleepUntil(ss: seq<Sched>, es: seq<Event>, x: Slot, j: nat, m: nat)
    requires |ss| == |es| + 1 && forall i :: 0 <= i < |es| ==> SleepLink(ss[i], es[i], ss[i + 1])
    requires j <= m <= |es| && x in ss[j].sleep
    ensures Passed(es, j, m, ss[j].tasks[x].wake)
      || (x in ss[m].sleep && ss[m].tasks[x].wake == ss[j].tasks[x].wake)
    decreases m - j
  {
    if j == m {
    } else {
      AsleepUntil(ss, es, x, j, m - 1);
      assert SleepLink(ss[m - 1], es[m - 1], ss[m]);
    }
  }

  /** A sleeping task is put back on the core only at a time not before its wake time. */
  lemma NeverWokenEarly(ss: seq<Sched>, es: seq<Event>, x: Slot, j: nat, m: nat)
    requires IsRun(ss, es) && Inv(ss[0]) && Monotone(es) && j <= m < |es| && x in ss[j].sleep
    requires es[m].DoIrq? && ss[m + 1].current == x
    ensures es[m].now >= ss[j].tasks[x].wake
  {
    SleepLinks(ss, es);
    AsleepUntil(ss, es, x, j, m);
    assert SleepLink(ss[m], es[m], ss[m + 1]);
  }

  /** `msleep(ms)` at time `at`: the caller runs again no earlier than `at + ms`. */
  lemma SleepsLongEnough(ss: seq<Sched>, es: seq<Event>, j: nat, m: nat)
    requires IsRun(ss, es) && Inv(ss[0]) && Monotone(es) && j < m < |es| && es[j].DoSleep?
    requires es[m].DoIrq? && ss[m + 1].current == ss[j].current
    ensures es[m].now >= es[j].at + es[j].ms
  {
    var x := ss[j].current;
    assert ss[j + 1] == Sleep(ss[j], es[j].at, es[j].ms);
    assert x in ss[j + 1].sleep && ss[j + 1].tasks[x].wake == es[j].at + es[j].ms;
    NeverWokenEarly(ss, es, x, j + 1, m);
  }

  /** An interrupt at or after its wake time puts a sleeper into the ready queue or on the core. */
  lemma WokenOnTime(s: Sched, frame: Frame, now: nat, x: Slot)
    requires Inv(s) && x in s.sleep && now >= s.tasks[x].wake
    ensures var t := Irq(s, frame, now); x in t.ready || t.current == x
  {
    assert Placed(s, x);
    PickMembers(s.sleep, Due(s.tasks, now), true);
    IrqInv(s, frame, now);
    assert Placed(Irq(s, frame, now), x);
  }

  // ---------------------------------------------------------------- exit

  /** A task that has exited never gets the core back: it stays a zombie until its slot is cleared. */
  lemma ExitedStep(s: Sched, e: Event, x: Slot)
    requires Inv(s) && Enabled(s, e) && s.tasks[x].state.Zombie?
    ensures Next(s, e).tasks[x].state.Zombie? || (e.DoGc? && x in s.zombie && Next(s, e).tasks[x] == ZEROED)
  {
    assert Placed(s, x);
    match e
    case DoIrq(frame, now) => ExitedIrq(s, frame, now, x);
    case DoGc => ReapFrees(s);
    case DoCreate(_) =>
    case DoSleep(_, _) =>
    case DoExit =>
  }

  ghost predicate ExitLink(s: Sched, e: Event, t: Sched) {
    forall x: Slot :: s.tasks[x].state.Zombie? ==>
      (t.tasks[x].state.Zombie? || t.tasks[x].state.Empty?) && (e.DoIrq? ==> t.current != x)
  }

  lemma ExitLinks(ss: seq<Sched>, es: seq<Event>)
    requires IsRun(ss, es) && Inv(ss[0])
    ensures forall i :: 0 <= i < |es| ==> ExitLink(ss[i], es[i], ss[i + 1])
  {
    forall i | 0 <= i < |es|
      ensures ExitLink(ss[i], es[i], ss[i + 1])
    {
      RunInv(ss, es, i);
      forall x: Slot | ss[i].tasks[x].state.Zombie?
        ensures ss[i + 1].tasks[x].state.Zombie? || ss[i + 1].tasks[x].state.Empty?
        ensures es[i].DoIrq? ==> ss[i + 1].current != x
      {
        ExitedStep(ss[i], es[i], x);
        if es[i].DoIrq? { ExitedIrq(ss[i], es[i].frame, es[i].now, x); }
      }
    }
  }

  lemma {:induction false} StaysZombie(ss: seq<Sched>, es: seq<Event>, x: Slot, j: nat, m: nat)
    requires |ss| == |es| + 1 && forall i :: 0 <= i < |es| ==> ExitLink(ss[i], es[i], ss[i + 1])
    requires j <= m <= |es| && ss[j].tasks[x].state.Zombie?
    requires forall i :: j <= i <= m ==> !ss[i].tasks[x].state.Empty?
    ensures ss[m].tasks[x].state.Zombie?
    decreases m - j
  {
    if j == m {
    } else {
      StaysZombie(ss, es, x, j, m - 1);
      assert ExitLink(ss[m - 1], es[m - 1], ss[m]);
    }
  }

  /** Over every run: once a task has exited, no interrupt dispatches it before its slot has been cleared. */
  lemma ExitedNeverRuns(ss: seq<Sched>, es: seq<Event>, x: Slot, j: nat, m: nat)
    requires IsRun(ss, es) && Inv(ss[0]) && j <= m < |es| && es[m].DoIrq? && ss[j].tasks[x].state.Zombie?
    requires forall i :: j <= i <= m ==> !ss[i].tasks[x].state.Empty?
    ensures ss[m].tasks[x].state.Zombie? && ss[m + 1].current != x
  {
    ExitLinks(ss, es);
    StaysZombie(ss, es, x, j, m);
    assert ExitLink(ss[m], es[m], ss[m + 1]);
  }

  /** The interrupt after an exit queues the zombie, off every core, and leaves its reaping pending. */
  lemma ExitedIrq(s: Sched, frame: Frame, now: nat, x: Slot)
    requires Inv(s) && s.tasks[x].state.Zombie?
    ensures var t := Irq(s, frame, now);
      && t.tasks[x].state.Zombie? && t.tasks[x].core == NOBODY
      && t.current != x && x in t.zombie && t.gc
  {
    assert Placed(s, x);
    WakeKeepsZombie(s, now, x);
    WakePlaces(s, now);
    ZombieSwitched(Wake(s, now), frame, x);
    var t := Irq(s, frame, now);
    assert Inv(t) by { IrqInv(s, frame, now); }
    assert Placed(t, x);
  }

  lemma WakeKeepsZombie(s: Sched, now: nat, x: Slot)
    requires Inv(s) && s.tasks[x].state.Zombie?
    ensures Wake(s, now).tasks[x].state.Zombie?
  {
    PickMember(s.sleep, Due(s.tasks, now), true, x);
    assert Placed(s, x);
  }

  lemma ZombieSwitched(w: Sched, frame: Frame, x: Slot)
    requires Places(w) && w.tasks[x].state.Zombie?
    ensures SwitchIn(SwitchOut(w, frame)).tasks[x].state.Zombie?
  {
    assert Placed(w, x);
    var b := SwitchOut(w, frame);
    SwitchOutBetween(w, frame);
    assert Queued(b, x);
    if b.ready != [] { assert b.ready[0] in b.ready; }
  }
}
