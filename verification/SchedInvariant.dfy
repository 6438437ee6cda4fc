/** What every step of the scheduler keeps: each slot in exactly one place, its state matching the place. */
module SchedInvariant {
  import opened Tasks

  // ---------------------------------------------------------------- stable selection

  predicate NoDup(q: seq<Slot>) { forall a, b :: 0 <= a < b < |q| ==> q[a] != q[b] }

  lemma {:induction false} PickMember(q: seq<Slot>, table: Table, b: bool, i: Slot)
    ensures i in Pick(q, table, b) <==> i in q && table[i] == b
  {
    if q == [] {
    } else {
      PickMember(q[..|q| - 1], table, b, i);
      assert q == q[..|q| - 1] + [q[|q| - 1]];
    }
  }

  lemma PickMembers(q: seq<Slot>, table: Table, b: bool)
    ensures forall i: Slot :: i in Pick(q, table, b) <==> i in q && table[i] == b
  {
  }

  lemma {:induction false} PickNoDup(q: seq<Slot>, table: Table, b: bool)
    requires NoDup(q)
    ensures NoDup(Pick(q, table, b))
  {
    if q == [] {
    } else {
      PickNoDup(q[..|q| - 1], table, b);
      PickMember(q[..|q| - 1], table, b, q[|q| - 1]);
    }
  }

  /** Stability: a picked member comes after exactly the picked members that were before it. */
  lemma {:induction false} PickAt(q: seq<Slot>, table: Table, b: bool, k: nat)
    requires k < |q| && table[q[k]] == b
    ensures |Pick(q[..k], table, b)| < |Pick(q, table, b)|
    ensures Pick(q, table, b)[|Pick(q[..k], table, b)|] == q[k]
  {
    var p := q[..|q| - 1];
    if k == |p| {
    } else {
      assert p[..k] == q[..k];
      PickAt(p, table, b, k);
    }
  }

  /** Nothing is lost: the two picks split the queue. */
  lemma {:induction false} PickSplits(q: seq<Slot>, table: Table)
    ensures |Pick(q, table, true)| + |Pick(q, table, false)| == |q|
  {
    if q == [] {
    } else {
      PickSplits(q[..|q| - 1], table);
    }
  }

  // ---------------------------------------------------------------- the invariant

  /** Slot `i` of the pool is where its state says. */
  predicate Placed(s: Sched, i: Slot) {
    var t := s.tasks[i];
    && (i in s.ready <==> t.state.Ready?)
    && (i in s.sleep <==> t.state.Sleeping?)
    && (i in s.zombie <==> t.state.Zombie? && i != s.current)
    && (t.state.Running? ==> i == s.current)
    && (t.state.Empty? ==> i != s.current)
    && (!t.state.Empty? ==> t.core == if i == s.current then CORE else NOBODY)
  }

  predicate InPool(q: seq<Slot>) { forall i :: i in q ==> 1 <= i < MAX_TASKS }

  ghost predicate Places(s: Sched) {
    && NoDup(s.ready) && NoDup(s.sleep) && NoDup(s.zombie)
    && InPool(s.ready) && InPool(s.sleep) && InPool(s.zombie)
    && (forall i :: 1 <= i < MAX_TASKS ==> Placed(s, i))
    && s.tasks[0].state.Empty? && s.current != 0
    && s.tasks[IDLE].state.Running?
    && (s.current == IDLE ==> s.tasks[IDLE].core == CORE)
  }

  /** The current task is out of the ready queue, as it is between interrupts. */
  predicate Settled(s: Sched) { s.current != IDLE ==> !s.tasks[s.current].state.Ready? }

  /** Zombies are only queued with a GC interrupt pending. */
  predicate GcPending(s: Sched) { s.zombie != [] ==> s.gc }

  ghost predicate Inv(s: Sched) { Places(s) && Settled(s) && GcPending(s) }

  lemma InitInv()
    ensures Inv(Init())
  {
  }

  lemma CreateInv(s: Sched, entry: nat)
    requires Inv(s)
    ensures Inv(Create(s, entry))
  {
    var i, t := FreeSlot(s.tasks, 1), Create(s, entry);
    if i < MAX_TASKS {
      assert Placed(s, i);
      forall j | 1 <= j < MAX_TASKS
        ensures Placed(t, j)
      {
        assert Placed(s, j);
      }
    }
  }

  lemma SleepInv(s: Sched, now: nat, ms: nat)
    requires Inv(s) && s.current != IDLE && s.tasks[s.current].state.Running?
    ensures Inv(Sleep(s, now, ms))
  {
    var t := Sleep(s, now, ms);
    assert Placed(s, s.current);
    forall j | 1 <= j < MAX_TASKS
      ensures Placed(t, j)
    {
      assert Placed(s, j);
    }
  }

  lemma ExitInv(s: Sched)
    requires Inv(s) && s.current != IDLE && s.tasks[s.current].state.Running?
    ensures Inv(Exit(s))
  {
    var t := Exit(s);
    assert Placed(s, s.current);
    forall j | 1 <= j < MAX_TASKS
      ensures Placed(t, j)
    {
      assert Placed(s, j);
    }
  }

  /** The middle of an interrupt: a due current task is ready and queued, though still current. */
  lemma WakePlaces(s: Sched, now: nat)
    requires Inv(s)
    ensures Places(Wake(s, now)) && GcPending(Wake(s, now))
  {
    var t, table := Wake(s, now), Due(s.tasks, now);
    PickMembers(s.sleep, table, true);
    PickMembers(s.sleep, table, false);
    PickNoDup(s.sleep, table, true);
    PickNoDup(s.sleep, table, false);
    assert Placed(s, 1) && Placed(s, MAX_TASKS - 1);
    forall j | 1 <= j < MAX_TASKS
      ensures Placed(t, j)
    {
      assert Placed(s, j);
    }
    var due := Pick(s.sleep, table, true);
    forall a, b | 0 <= a < b < |t.ready|
      ensures t.ready[a] != t.ready[b]
    {
      if a < |s.ready| <= b { assert t.ready[b] in due && Placed(s, t.ready[b]); }
    }
  }

  /** After the first half of a switch the current task is queued, if it is not idle. */
  ghost predicate Between(s: Sched) {
    && NoDup(s.ready) && NoDup(s.sleep) && NoDup(s.zombie)
    && InPool(s.ready) && InPool(s.sleep) && InPool(s.zombie)
    && (forall i :: 1 <= i < MAX_TASKS ==> Queued(s, i))
    && s.tasks[0].state.Empty? && s.current != 0
    && s.tasks[IDLE].state.Running?
  }

  predicate Queued(s: Sched, i: Slot) {
    var t := s.tasks[i];
    && (i in s.ready <==> t.state.Ready?)
    && (i in s.sleep <==> t.state.Sleeping?)
    && (i in s.zombie <==> t.state.Zombie?)
    && !t.state.Running?
    && (t.state.Empty? ==> i != s.current)
    && (!t.state.Empty? && i != s.current ==> t.core == NOBODY)
  }

  lemma SwitchOutBetween(s: Sched, frame: Frame)
    requires Places(s)
    ensures Between(SwitchOut(s, frame))
    ensures var c := s.tasks[s.current].state; SwitchOut(s, frame).zombie != s.zombie ==> c.Zombie?
    ensures SwitchOut(s, frame).tasks[s.current].state.Zombie? <==> s.tasks[s.current].state.Zombie?
  {
    var t := SwitchOut(s, frame);
    if s.current != IDLE { assert Placed(s, s.current); }
    forall j | 1 <= j < MAX_TASKS
      ensures Queued(t, j)
    {
      assert Placed(s, j);
    }
  }

  lemma SwitchInInv(s: Sched)
    requires Between(s) && (s.zombie != [] ==> s.gc || s.tasks[s.current].state.Zombie?)
    ensures Inv(SwitchIn(s))
  {
    var t := SwitchIn(s);
    if s.ready != [] {
      HeadGone(s.ready);
      assert Queued(s, s.ready[0]);
    }
    forall j | 1 <= j < MAX_TASKS
      ensures Placed(t, j)
    {
      assert Queued(s, j);
    }
  }

  lemma HeadGone(q: seq<Slot>)
    requires NoDup(q) && InPool(q) && q != []
    ensures forall j :: j in q[1..] <==> j in q && j != q[0]
    ensures NoDup(q[1..]) && InPool(q[1..]) && 1 <= q[0] < MAX_TASKS
  {
    assert q[0] in q;
  }

  lemma IrqInv(s: Sched, frame: Frame, now: nat)
    requires Inv(s)
    ensures Inv(Irq(s, frame, now))
  {
    WakePlaces(s, now);
    SwitchOutBetween(Wake(s, now), frame);
    SwitchInInv(SwitchOut(Wake(s, now), frame));
  }

  lemma SomeMember(q: seq<Slot>)
    ensures q == [] || exists i :: i in q
  {
    if q != [] { assert q[0] in q; }
  }

  /** A GC interrupt finds every zombie off its core, so it empties the queue, and never frees the current task. */
  lemma ReapTakesAll(s: Sched)
    requires Inv(s)
    ensures Reap(s).zombie == []
    ensures forall i: Slot :: i in Pick(s.zombie, Idle(s.tasks), true) <==> i in s.zombie
  {
    var table := Idle(s.tasks);
    PickMembers(s.zombie, table, true);
    PickMembers(s.zombie, table, false);
    forall i | i in s.zombie
      ensures table[i]
    {
      assert Placed(s, i);
    }
    SomeMember(Reap(s).zombie);
  }

  lemma ReapFrees(s: Sched)
    requires Inv(s)
    ensures var t := Reap(s);
      && t.zombie == [] && t.current == s.current && t.current !in s.zombie
      && forall i: Slot :: t.tasks[i] == if i in s.zombie then ZEROED else s.tasks[i]
  {
    ReapTakesAll(s);
    if s.current != IDLE { assert Placed(s, s.current); }
  }

  lemma ReapInv(s: Sched)
    requires Inv(s)
    ensures Inv(Reap(s))
  {
    var t := Reap(s);
    ReapFrees(s);
    forall j | 1 <= j < MAX_TASKS
      ensures Placed(t, j)
    {
      assert Placed(s, j);
    }
  }

  lemma NextInv(s: Sched, e: Event)
    requires Inv(s) && Enabled(s, e)
    ensures Inv(Next(s, e))
  {
    match e
    case DoCreate(entry) => CreateInv(s, entry);
    case DoSleep(at, ms) => SleepInv(s, at, ms);
    case DoExit => ExitInv(s);
    case DoIrq(frame, now) => IrqInv(s, frame, now);
    case DoGc => ReapInv(s);
  }

  /** Over every run: each slot in exactly one place, its state matching it, and zombies always about to be reaped. */
  lemma {:induction false} RunInv(ss: seq<Sched>, es: seq<Event>, k: nat)
    requires IsRun(ss, es) && Inv(ss[0]) && k <= |es|
    ensures Inv(ss[k])
  {
    if k == 0 {
    } else {
      RunInv(ss, es, k - 1);
      NextInv(ss[k - 1], es[k - 1]);
    }
  }
}
