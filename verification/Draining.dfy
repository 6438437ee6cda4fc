/** The draining loops of the scheduler, one member at a time, and what they come to. */
module Draining {
  import opened HeapPages
  import opened Tasks
  import opened SchedInvariant

  lemma {:induction false} PickConcat(p: seq<Slot>, q: seq<Slot>, table: Table, b: bool)
    ensures Pick(p + q, table, b) == Pick(p, table, b) + Pick(q, table, b)
    decreases |q|
  {
    if q == [] {
      assert p + q == p;
    } else {
      assert (p + q)[..|p + q| - 1] == p + q[..|q| - 1];
      PickConcat(p, q[..|q| - 1], table, b);
    }
  }

  lemma PickHead(q: seq<Slot>, table: Table, b: bool)
    requires q != []
    ensures Pick(q, table, b) == (if table[q[0]] == b then [q[0]] else []) + Pick(q[1..], table, b)
  {
    assert q == [q[0]] + q[1..];
    assert [q[0]][..0] == [];
    PickConcat([q[0]], q[1..], table, b);
  }

  // ---------------------------------------------------------------- waking

  /** The first sleeper leaves the queue: to the ready queue if it is due, else to the list of those kept. */
  function WakeHead(s: Sched, now: nat): Sched
    requires s.sleep != []
  {
    var i, rest := s.sleep[0], s.(sleep := s.sleep[1..]);
    if now >= s.tasks[i].wake then rest.(tasks := s.tasks[i := s.tasks[i].(state := Ready)], ready := s.ready + [i])
    else rest
  }

  function WakeKept(s: Sched, kept: seq<Slot>, now: nat): seq<Slot>
    requires s.sleep != []
  {
    if now >= s.tasks[s.sleep[0]].wake then kept else kept + [s.sleep[0]]
  }

  function WakeAll(s: Sched, kept: seq<Slot>, now: nat): Sched
    decreases |s.sleep|
  {
    if s.sleep == [] then s.(sleep := kept) else WakeAll(WakeHead(s, now), WakeKept(s, kept, now), now)
  }

  lemma WokenHead(tasks: Pool, i: Slot, due: seq<Slot>)
    ensures Woken(tasks[i := tasks[i].(state := Ready)], due) == Woken(tasks, [i] + due)
  {
  }

  lemma SameDue(tasks: Pool, i: Slot, now: nat)
    ensures Due(tasks[i := tasks[i].(state := Ready)], now) == Due(tasks, now)
  {
  }

  /** What draining the rest of the sleep queue comes to. */
  ghost predicate WakeDone(s: Sched, kept: seq<Slot>, now: nat, t: Sched) {
    var table := Due(s.tasks, now);
    && t == s.(tasks := t.tasks, ready := t.ready, sleep := t.sleep)
    && t.tasks == Woken(s.tasks, Pick(s.sleep, table, true))
    && t.ready == s.ready + Pick(s.sleep, table, true)
    && t.sleep == kept + Pick(s.sleep, table, false)
  }

  lemma Regroup(a: seq<Slot>, i: Slot, b: seq<Slot>)
    ensures (a + [i]) + b == a + ([i] + b)
  {
  }

  lemma WakeDoneDue(s: Sched, kept: seq<Slot>, now: nat, t: Sched)
    requires s.sleep != [] && now >= s.tasks[s.sleep[0]].wake && WakeDone(WakeHead(s, now), kept, now, t)
    ensures WakeDone(s, kept, now, t)
  {
    var i, rest, table := s.sleep[0], s.sleep[1..], Due(s.tasks, now);
    var due := Pick(rest, table, true);
    assert Pick(s.sleep, table, true) == [i] + due by { PickHead(s.sleep, table, true); }
    assert Pick(s.sleep, table, false) == Pick(rest, table, false) by { PickHead(s.sleep, table, false); }
    assert Due(WakeHead(s, now).tasks, now) == table by { SameDue(s.tasks, i, now); }
    assert Woken(WakeHead(s, now).tasks, due) == Woken(s.tasks, [i] + due) by { WokenHead(s.tasks, i, due); }
    Regroup(s.ready, i, due);
  }

  lemma WakeDoneLater(s: Sched, kept: seq<Slot>, now: nat, t: Sched)
    requires s.sleep != [] && now < s.tasks[s.sleep[0]].wake
    requires WakeDone(WakeHead(s, now), kept + [s.sleep[0]], now, t)
    ensures WakeDone(s, kept, now, t)
  {
    var i, rest, table := s.sleep[0], s.sleep[1..], Due(s.tasks, now);
    assert Pick(s.sleep, table, true) == Pick(rest, table, true) by { PickHead(s.sleep, table, true); }
    assert Pick(s.sleep, table, false) == [i] + Pick(rest, table, false) by { PickHead(s.sleep, table, false); }
    Regroup(kept, i, Pick(rest, table, false));
  }

  lemma {:induction false} WakeAllDone(s: Sched, kept: seq<Slot>, now: nat)
    ensures WakeDone(s, kept, now, WakeAll(s, kept, now))
    decreases |s.sleep|
  {
    if s.sleep == [] {
      assert Woken(s.tasks, []) == s.tasks;
    } else {
      WakeAllDone(WakeHead(s, now), WakeKept(s, kept, now), now);
      if now >= s.tasks[s.sleep[0]].wake { WakeDoneDue(s, kept, now, WakeAll(s, kept, now)); }
      else { WakeDoneLater(s, kept, now, WakeAll(s, kept, now)); }
    }
  }

  /** Rethreading one sleeper after the other is the stable partition by wake time. */
  lemma WakeAllIs(s: Sched, now: nat)
    ensures WakeAll(s, [], now) == Wake(s, now)
  {
    WakeAllDone(s, [], now);
  }

  // ---------------------------------------------------------------- reaping

  /** Task `i` cleared, its stack given back. */
  function Freed(s: Sched, i: Slot): Sched {
    s.(tasks := s.tasks[i := ZEROED], pages := StackPages(s.pages, s.tasks[i].stack, 0))
  }

  /** The first zombie leaves the queue: cleared, with its stack, if no core runs it, else to those kept. */
  function ReapHead(s: Sched): Sched
    requires s.zombie != []
  {
    var i, rest := s.zombie[0], s.(zombie := s.zombie[1..]);
    if s.tasks[i].core == NOBODY then Freed(rest, i) else rest
  }

  function ReapKept(s: Sched, kept: seq<Slot>): seq<Slot>
    requires s.zombie != []
  {
    if s.tasks[s.zombie[0]].core == NOBODY then kept else kept + [s.zombie[0]]
  }

  function ReapAll(s: Sched, kept: seq<Slot>): Sched
    decreases |s.zombie|
  {
    if s.zombie == [] then s.(zombie := kept) else ReapAll(ReapHead(s), ReapKept(s, kept))
  }

  ghost predicate ReapDone(s: Sched, kept: seq<Slot>, t: Sched) {
    var table := Idle(s.tasks);
    && t == s.(tasks := t.tasks, pages := t.pages, zombie := t.zombie)
    && t.tasks == Zeroed(s.tasks, Pick(s.zombie, table, true))
    && t.pages == StacksFreed(s.pages, s.tasks, Pick(s.zombie, table, true))
    && t.zombie == kept + Pick(s.zombie, table, false)
  }

  lemma ZeroedHead(tasks: Pool, i: Slot, dead: seq<Slot>)
    ensures Zeroed(tasks[i := ZEROED], dead) == Zeroed(tasks, [i] + dead)
  {
  }

  lemma {:induction false} FreedHead(pages: Bitmap, tasks: Pool, i: Slot, dead: seq<Slot>)
    requires i !in dead
    ensures StacksFreed(StackPages(pages, tasks[i].stack, 0), tasks[i := ZEROED], dead)
      == StacksFreed(pages, tasks, [i] + dead)
    decreases |dead|
  {
    if dead == [] {
      assert ([i] + dead)[..0] == [];
    } else {
      var rest := dead[..|dead| - 1];
      assert ([i] + dead)[..|dead|] == [i] + rest;
      assert dead[|dead| - 1] in dead && forall j :: j in rest ==> j in dead;
      FreedHead(pages, tasks, i, rest);
    }
  }

  /** Clearing one task leaves the verdict on the others. */
  lemma {:induction false} SamePick(q: seq<Slot>, tasks: Pool, i: Slot, b: bool)
    requires i !in q
    ensures Pick(q, Idle(tasks[i := ZEROED]), b) == Pick(q, Idle(tasks), b)
  {
    if q == [] {
    } else {
      assert q[|q| - 1] in q && forall j :: j in q[..|q| - 1] ==> j in q;
      SamePick(q[..|q| - 1], tasks, i, b);
    }
  }

  lemma ReapDoneFree(s: Sched, kept: seq<Slot>, t: Sched)
    requires s.zombie != [] && NoDup(s.zombie) && s.tasks[s.zombie[0]].core == NOBODY
    requires ReapDone(ReapHead(s), kept, t)
    ensures ReapDone(s, kept, t)
  {
    var i, rest, table := s.zombie[0], s.zombie[1..], Idle(s.tasks);
    var dead := Pick(rest, table, true);
    assert Pick(s.zombie, table, true) == [i] + dead by { PickHead(s.zombie, table, true); }
    assert Pick(s.zombie, table, false) == Pick(rest, table, false) by { PickHead(s.zombie, table, false); }
    assert Pick(rest, Idle(s.tasks[i := ZEROED]), true) == dead by { SamePick(rest, s.tasks, i, true); }
    assert Pick(rest, Idle(s.tasks[i := ZEROED]), false) == Pick(rest, table, false) by {
      SamePick(rest, s.tasks, i, false);
    }
    assert i !in dead by { PickMember(rest, table, true, i); }
    ZeroedHead(s.tasks, i, dead);
    FreedHead(s.pages, s.tasks, i, dead);
  }

  lemma ReapDoneKept(s: Sched, kept: seq<Slot>, t: Sched)
    requires s.zombie != [] && s.tasks[s.zombie[0]].core != NOBODY
    requires ReapDone(ReapHead(s), kept + [s.zombie[0]], t)
    ensures ReapDone(s, kept, t)
  {
    var i, rest, table := s.zombie[0], s.zombie[1..], Idle(s.tasks);
    assert Pick(s.zombie, table, true) == Pick(rest, table, true) by { PickHead(s.zombie, table, true); }
    assert Pick(s.zombie, table, false) == [i] + Pick(rest, table, false) by { PickHead(s.zombie, table, false); }
    Regroup(kept, i, Pick(rest, table, false));
  }

  lemma {:induction false} ReapAllDone(s: Sched, kept: seq<Slot>)
    requires NoDup(s.zombie)
    ensures ReapDone(s, kept, ReapAll(s, kept))
    decreases |s.zombie|
  {
    if s.zombie == [] {
      assert Zeroed(s.tasks, []) == s.tasks;
    } else {
      ReapAllDone(ReapHead(s), ReapKept(s, kept));
      if s.tasks[s.zombie[0]].core == NOBODY { ReapDoneFree(s, kept, ReapAll(s, kept)); }
      else { ReapDoneKept(s, kept, ReapAll(s, kept)); }
    }
  }

  /** Draining the zombie queue clears exactly the tasks off every core and keeps the rest in order. */
  lemma ReapAllIs(s: Sched)
    requires NoDup(s.zombie)
    ensures !s.gc ==> ReapAll(s, []) == Reap(s)
  {
    ReapAllDone(s, []);
  }
}
