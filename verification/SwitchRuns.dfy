/** What a world finds unchanged when the core comes back to it, over whole runs. */
module SwitchRuns {
  import opened Words
  import opened WorldSwitch

  /** Context `c` is that of a world which stopped in state `cpu`. */
  ghost predicate Holds(c: Context, cpu: Cpu) {
    && c.initialized && c.elr == cpu.pc && c.sys == cpu.sys && c.v == cpu.v && c.fpsr == cpu.fpsr
    && forall i :: 6 <= i < 31 ==> c.x[i] == cpu.x[i]
  }

  /** Everything but x0 to x5, SPSR and FPCR is as it was in `before`. */
  ghost predicate Continues(now: Cpu, before: Cpu) {
    && now.pc == before.pc && now.sys == before.sys && now.v == before.v && now.fpsr == before.fpsr
    && forall i :: 6 <= i < 31 ==> now.x[i] == before.x[i]
  }

  ghost predicate ArgumentsPass(now: Cpu, before: Cpu) { forall i :: 0 <= i < 6 ==> now.x[i] == before.x[i] }

  // ---------------------------------------------------------------- single switches

  predicate IsExit(m: Machine, e: Event) { IsYield(m, e) || IsPreempt(e) }

  /** A call records the caller. */
  lemma CallRecords(m: Machine, e: Event, entry: u64)
    requires IsCall(m, e)
    ensures Holds(Next(m, e, entry).ns, m.cpu) && Next(m, e, entry).ns.x == m.cpu.x && Next(m, e, entry).s == m.s
  {
  }

  /** A yield or a preemption records the secure OS. */
  lemma ExitRecords(m: Machine, e: Event, entry: u64)
    requires IsExit(m, e)
    ensures Holds(Next(m, e, entry).s, m.cpu) && Next(m, e, entry).ns == m.ns
  {
  }

  /** It brings back what the non-secure context holds. */
  lemma ExitSwitches(m: Machine, e: Event, entry: u64, caller: Cpu)
    requires IsExit(m, e) && Holds(m.ns, caller)
    ensures var n := Next(m, e, entry);
      && n.scrNs
      && Continues(n.cpu, caller) && n.cpu.spsr == EL1H
      && forall i :: 0 <= i < 6 ==> n.cpu.x[i] == if IsPreempt(e) && i == 1 then 6 else m.cpu.x[i]
  {
  }

  /** A call or a resume brings back what the secure context holds, with the kernel's x0 to x5. */
  lemma EntrySwitches(m: Machine, e: Event, entry: u64, stopped: Cpu)
    requires (IsCall(m, e) || IsResume(m, e)) && Holds(m.s, stopped)
    ensures var n := Next(m, e, entry);
      && n.s == m.s && !n.scrNs && Continues(n.cpu, stopped) && ArgumentsPass(n.cpu, m.cpu) && n.cpu.spsr == EL1H
  {
  }

  /** The very first call starts the secure OS at its entry point, its translation off, with all arguments. */
  lemma FirstEntry(m: Machine, e: Event, entry: u64)
    requires IsCall(m, e) && !m.s.initialized
    ensures var n := Next(m, e, entry);
      && !n.scrNs && n.cpu == m.cpu.(pc := entry, spsr := 5, sys := n.cpu.sys)
      && TranslationOff(n.cpu.sys, m.cpu.sys) && Holds(n.ns, m.cpu)
  {
  }

  /** A wake-up with an entry point starts the kernel there; nothing else of the core changes. */
  lemma WakeEnters(m: Machine, e: Event, entry: u64)
    requires IsWake(e)
    ensures Next(m, e, entry) == m.(cpu := m.cpu.(pc := e.entryPoint, spsr := 5), scrNs := true)
  {
  }

  /** What the firmware answers to a call that switches no world, in x1. */
  function Answer(id: nat, psci: u64): u64 {
    if id == 0x2000_0010 then 101
    else if id in {0x2000_00A0, 0x2000_00B0, 0x2000_00D0, 0x2000_00E0} then psci
    else 3
  }

  lemma FirmwareAnswers(m: Machine, e: Event, entry: u64)
    requires e.DoSmc? && CalledId(m) / 0x1_0000 == 0x2000 && CalledId(m) !in {0x2000_0020, 0x2000_0030}
    ensures Next(m, e, entry) == m.(cpu := m.cpu.(x := m.cpu.x[1 := Answer(CalledId(m), e.psci)]))
  {
  }

  /** Any other trap leaves the whole core as it was. */
  lemma OthersIgnored(m: Machine, e: Event, entry: u64)
    requires (e.DoSmc? && CalledId(m) / 0x1_0000 !in {0x1000, 0x2000})
      || (e.DoFiq? && e.interrupt !in {1, 1021} && (e.interrupt == 0 ==> e.entryPoint == 0))
    ensures Next(m, e, entry) == m
  {
  }

  lemma NsKept(m: Machine, e: Event, entry: u64)
    requires !IsCall(m, e)
    ensures Next(m, e, entry).ns == m.ns
  {
  }

  lemma SKept(m: Machine, e: Event, entry: u64)
    requires !IsExit(m, e)
    ensures Next(m, e, entry).s == m.s
  {
  }

  // ---------------------------------------------------------------- runs

  /** No event from `j` to `m` is a call. */
  ghost predicate NoCall(ms: seq<Machine>, es: seq<Event>, j: nat, m: nat)
    requires m <= |es| < |ms|
  {
    forall i :: j <= i < m ==> !IsCall(ms[i], es[i])
  }

  ghost predicate NoExit(ms: seq<Machine>, es: seq<Event>, j: nat, m: nat)
    requires m <= |es| < |ms|
  {
    forall i :: j <= i < m ==> !IsExit(ms[i], es[i])
  }

  lemma {:induction false} NsKeptAlong(ms: seq<Machine>, es: seq<Event>, entry: u64, j: nat, m: nat)
    requires IsRun(ms, es, entry) && j <= m <= |es| && NoCall(ms, es, j, m)
    ensures ms[m].ns == ms[j].ns
    decreases m - j
  {
    if j == m {
    } else {
      NsKeptAlong(ms, es, entry, j, m - 1);
      NsKept(ms[m - 1], es[m - 1], entry);
    }
  }

  lemma {:induction false} SKeptAlong(ms: seq<Machine>, es: seq<Event>, entry: u64, j: nat, m: nat)
    requires IsRun(ms, es, entry) && j <= m <= |es| && NoExit(ms, es, j, m)
    ensures ms[m].s == ms[j].s
    decreases m - j
  {
    if j == m {
    } else {
      SKeptAlong(ms, es, entry, j, m - 1);
      SKept(ms[m - 1], es[m - 1], entry);
    }
  }

  /**
   * However often the secure OS was preempted and resumed, and whatever either world did meanwhile: the yield
   * (or preemption) that returns to the kernel finds its x6 to x30, vectors, FPSR, system registers and program
   * counter exactly as at its last call, with x0 to x5 those of the secure OS.
   */
  lemma CallReturns(ms: seq<Machine>, es: seq<Event>, entry: u64, j: nat, m: nat)
    requires IsRun(ms, es, entry) && j < m < |es|
    requires IsCall(ms[j], es[j]) && NoCall(ms, es, j + 1, m) && IsExit(ms[m], es[m])
    ensures Continues(ms[m + 1].cpu, ms[j].cpu) && ms[m + 1].scrNs && ms[m + 1].cpu.spsr == EL1H
    ensures IsYield(ms[m], es[m]) ==> ArgumentsPass(ms[m + 1].cpu, ms[m].cpu)
    ensures IsPreempt(es[m]) ==> ms[m + 1].cpu.x[1] == 6
  {
    CallRecords(ms[j], es[j], entry);
    NsKeptAlong(ms, es, entry, j + 1, m);
    ExitSwitches(ms[m], es[m], entry, ms[j].cpu);
  }

  /** Some event before `k` is a call. */
  ghost predicate Called(ms: seq<Machine>, es: seq<Event>, k: nat)
    requires k <= |es| < |ms|
  {
    exists i :: 0 <= i < k && IsCall(ms[i], es[i])
  }

  lemma {:induction false} LatestCall(ms: seq<Machine>, es: seq<Event>, k: nat) returns (j: nat)
    requires k <= |es| < |ms| && Called(ms, es, k)
    ensures j < k && IsCall(ms[j], es[j]) && NoCall(ms, es, j + 1, k)
  {
    if IsCall(ms[k - 1], es[k - 1]) { j := k - 1; } else { j := LatestCall(ms, es, k - 1); }
  }

  /** From boot, the secure OS has only run, and its context only been saved, after some call. */
  lemma {:induction false} BootCalled(ms: seq<Machine>, es: seq<Event>, entry: u64, k: nat)
    requires IsRun(ms, es, entry) && ms[0].scrNs && !ms[0].s.initialized && k <= |es|
    ensures !ms[k].scrNs || ms[k].s.initialized ==> Called(ms, es, k)
  {
    if k == 0 {
    } else {
      BootCalled(ms, es, entry, k - 1);
      if Called(ms, es, k - 1) {
        var i :| 0 <= i < k - 1 && IsCall(ms[i], es[i]);
        assert 0 <= i < k && IsCall(ms[i], es[i]);
      } else if IsCall(ms[k - 1], es[k - 1]) {
        assert Called(ms, es, k);
      }
    }
  }

  /** From boot, every return to the kernel is the return of a call: the last one before it. */
  lemma EveryReturn(ms: seq<Machine>, es: seq<Event>, entry: u64, m: nat) returns (j: nat)
    requires IsRun(ms, es, entry) && ms[0].scrNs && !ms[0].s.initialized && m < |es| && IsExit(ms[m], es[m])
    ensures j < m && IsCall(ms[j], es[j]) && NoCall(ms, es, j + 1, m)
    ensures Continues(ms[m + 1].cpu, ms[j].cpu) && ms[m + 1].scrNs
  {
    BootCalled(ms, es, entry, m);
    j := LatestCall(ms, es, m);
    CallReturns(ms, es, entry, j, m);
  }

  /** Each entry to the secure OS, by a call or a resume, finds it as it was when it last yielded or was preempted. */
  lemma SecureContinues(ms: seq<Machine>, es: seq<Event>, entry: u64, j: nat, m: nat)
    requires IsRun(ms, es, entry) && j < m < |es|
    requires IsExit(ms[j], es[j]) && NoExit(ms, es, j + 1, m)
    requires IsEntry(ms[m], es[m])
    ensures Continues(ms[m + 1].cpu, ms[j].cpu) && ArgumentsPass(ms[m + 1].cpu, ms[m].cpu) && !ms[m + 1].scrNs
  {
    ExitRecords(ms[j], es[j], entry);
    SKeptAlong(ms, es, entry, j + 1, m);
    EntrySwitches(ms[m], es[m], entry, ms[j].cpu);
  }

  predicate IsEntry(m: Machine, e: Event) { IsCall(m, e) || IsResume(m, e) }

  /** Some event before `k` leaves the secure OS. */
  ghost predicate Left(ms: seq<Machine>, es: seq<Event>, k: nat)
    requires k <= |es| < |ms|
  {
    exists i :: 0 <= i < k && IsExit(ms[i], es[i])
  }

  /** From boot, the secure context is only initialised by leaving the secure OS. */
  lemma {:induction false} BootLeft(ms: seq<Machine>, es: seq<Event>, entry: u64, k: nat)
    requires IsRun(ms, es, entry) && !ms[0].s.initialized && k <= |es|
    ensures ms[k].s.initialized ==> Left(ms, es, k)
  {
    if k == 0 {
    } else {
      BootLeft(ms, es, entry, k - 1);
      if Left(ms, es, k - 1) {
        var i :| 0 <= i < k - 1 && IsExit(ms[i], es[i]);
        assert 0 <= i < k && IsExit(ms[i], es[i]);
      } else if IsExit(ms[k - 1], es[k - 1]) {
        assert Left(ms, es, k);
      } else {
        SKept(ms[k - 1], es[k - 1], entry);
      }
    }
  }

  lemma {:induction false} LatestExit(ms: seq<Machine>, es: seq<Event>, k: nat) returns (j: nat)
    requires k <= |es| < |ms| && Left(ms, es, k)
    ensures j < k && IsExit(ms[j], es[j]) && NoExit(ms, es, j + 1, k)
  {
    if IsExit(ms[k - 1], es[k - 1]) { j := k - 1; } else { j := LatestExit(ms, es, k - 1); }
  }

  /** From boot, every entry to the secure OS is its first, at its entry point, or continues its latest exit. */
  lemma EveryEntry(ms: seq<Machine>, es: seq<Event>, entry: u64, m: nat) returns (j: int)
    requires IsRun(ms, es, entry) && !ms[0].s.initialized && m < |es| && IsEntry(ms[m], es[m])
    ensures j == -1 ==> IsCall(ms[m], es[m]) && ms[m + 1].cpu.pc == entry && ms[m + 1].cpu.x == ms[m].cpu.x
    ensures j == -1 ==> TranslationOff(ms[m + 1].cpu.sys, ms[m].cpu.sys)
    ensures j != -1 ==> 0 <= j < m && IsExit(ms[j], es[j]) && NoExit(ms, es, j + 1, m)
    ensures j != -1 ==> Continues(ms[m + 1].cpu, ms[j].cpu) && ArgumentsPass(ms[m + 1].cpu, ms[m].cpu)
    ensures !ms[m + 1].scrNs
  {
    if ms[m].s.initialized {
      BootLeft(ms, es, entry, m);
      j := LatestExit(ms, es, m);
      SecureContinues(ms, es, entry, j, m);
    } else {
      j := -1;
      FirstEntry(ms[m], es[m], entry);
    }
  }

  datatype World = NonSecure | Secure

  /** The world whose code runs, told from the switches alone. */
  function Running(ms: seq<Machine>, es: seq<Event>, k: nat): World
    requires k <= |es| < |ms|
  {
    if k == 0 then (if ms[0].scrNs then NonSecure else Secure)
    else if IsEntry(ms[k - 1], es[k - 1]) then Secure
    else if IsExit(ms[k - 1], es[k - 1]) || IsWake(es[k - 1]) then NonSecure
    else Running(ms, es, k - 1)
  }

  /** SCR_EL3.NS always says which world runs. */
  lemma {:induction false} ScrMatches(ms: seq<Machine>, es: seq<Event>, entry: u64, k: nat)
    requires IsRun(ms, es, entry) && k <= |es|
    ensures ms[k].scrNs <==> Running(ms, es, k) == NonSecure
  {
    if k == 0 {
    } else {
      ScrMatches(ms, es, entry, k - 1);
    }
  }

  // ---------------------------------------------------------------- FPCR

  /** Every trap hands the FPCR of the interrupted world to the world that continues. */
  lemma FpcrPassesThrough(m: Machine, e: Event, entry: u64)
    requires !e.Guest?
    ensures Next(m, e, entry).cpu.fpcr == m.cpu.fpcr
  {
  }

  /** The last step of guest code from `j` on and before `m`, or -1. */
  function LastGuest(es: seq<Event>, j: nat, m: nat): (i: int)
    requires j <= m <= |es|
    ensures i == -1 || (j <= i < m && es[i].Guest?)
    ensures forall k :: j <= k < m && i < k ==> !es[k].Guest?
  {
    if j == m then -1 else if es[m - 1].Guest? then m - 1 else LastGuest(es, j, m - 1)
  }

  /** Along a run FPCR is what guest code left last, whichever world it was. */
  lemma {:induction false} FpcrIsLast(ms: seq<Machine>, es: seq<Event>, entry: u64, j: nat, m: nat)
    requires IsRun(ms, es, entry) && j <= m <= |es|
    ensures var i := LastGuest(es, j, m); ms[m].cpu.fpcr == if i == -1 then ms[j].cpu.fpcr else es[i].to.fpcr
    decreases m - j
  {
    if j == m {
    } else {
      FpcrIsLast(ms, es, entry, j, m - 1);
      if !es[m - 1].Guest? { FpcrPassesThrough(ms[m - 1], es[m - 1], entry); }
    }
  }

  /** So a call preserves the caller's FPCR exactly when the last guest step since then left that value. */
  lemma FpcrPreserved(ms: seq<Machine>, es: seq<Event>, entry: u64, j: nat, m: nat)
    requires IsRun(ms, es, entry) && j < m < |es| && IsCall(ms[j], es[j]) && IsExit(ms[m], es[m])
    ensures var i := LastGuest(es, j + 1, m);
      ms[m + 1].cpu.fpcr == ms[j].cpu.fpcr <==> (i == -1 || es[i].to.fpcr == ms[j].cpu.fpcr)
  {
    FpcrPassesThrough(ms[j], es[j], entry);
    FpcrIsLast(ms, es, entry, j + 1, m);
    FpcrPassesThrough(ms[m], es[m], entry);
  }

  /** For every caller, and every state in which the secure OS then yields, the caller goes on with that FPCR. */
  lemma FpcrTaken(caller: Machine, last: Cpu, entry: u64) returns (ms: seq<Machine>, es: seq<Event>)
    requires caller.scrNs && IsCall(caller, DoSmc(0)) && last.x[0] % TWO_32 == SMC_YIELD
    ensures IsRun(ms, es, entry) && |es| == 3 && IsCall(ms[0], es[0]) && IsYield(ms[2], es[2])
    ensures ms[0] == caller && ms[3].cpu.fpcr == last.fpcr
  {
    es := [DoSmc(0), Guest(last), DoSmc(0)];
    var inside := Next(caller, es[0], entry);
    CallEnters(caller, es[0], entry);
    var leaving := inside.(cpu := last);
    ms := [caller, inside, leaving, Next(leaving, es[2], entry)];
    FpcrPassesThrough(leaving, es[2], entry);
  }

  lemma CallEnters(m: Machine, e: Event, entry: u64)
    requires IsCall(m, e)
    ensures !Next(m, e, entry).scrNs
  {
  }

  /** Registers at an SMC with function number `id`. */
  function AtSmc(id: u64, fpcr: u32): Cpu {
    Cpu(seq(31, i => if i == 0 then id else 0), seq(32, i => Vec(0, 0)), 0, fpcr, Sys(0, 0, 0, 0, 0, 0), 0, EL1H)
  }

  /** So FPCR is lost, for one, when a kernel with FPCR 0 asks for the version and the secure OS leaves 1 there. */
  lemma FpcrLost() returns (ms: seq<Machine>, es: seq<Event>)
    ensures IsRun(ms, es, 0) && |es| == 3 && IsCall(ms[0], es[0]) && IsYield(ms[2], es[2])
    ensures ms[0].cpu.fpcr == 0 && ms[3].cpu.fpcr == 1
  {
    var none := Context(seq(31, i => 0), Sys(0, 0, 0, 0, 0, 0), 0, false, seq(32, i => Vec(0, 0)), 0, 0);
    ms, es := FpcrTaken(Machine(AtSmc(0x1000_0010, 0), none, none, true), AtSmc(SMC_YIELD, 1), 0);
  }
}
