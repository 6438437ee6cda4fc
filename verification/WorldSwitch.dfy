/**
 * One core switching between the non-secure kernel and the secure OS: what the EL3 exception stubs and handlers
 * do to the registers, with arbitrary code of the running world between them.
 */
module WorldSwitch {
  import opened Words

  type u32 = x: int | 0 <= x < TWO_32

  type Regs = x: seq<u64> | |x| == 31 witness seq(31, i => 0)

  datatype Vec = Vec(lo: u64, hi: u64)

  type Vregs = v: seq<Vec> | |v| == 32 witness seq(32, i => Vec(0, 0))

  /** The EL1 system registers that `save_context` and `restore_context` move. */
  datatype Sys = Sys(sp: u64, vbar: u64, ttbr0: u64, ttbr1: u64, tcr: u64, sctlr: u64)

  /** `context_t` */
  datatype Context = Context(x: Regs, sys: Sys, elr: u64, initialized: bool, v: Vregs, fpsr: u32, fpcr: u32)

  /** `trap_frame_t`; `padding` is the word after `fpcr`, where the exception stub puts the FPCR. */
  datatype Frame = Frame(x: Regs, spsr: u64, elr: u64, v: Vregs, fpsr: u32, fpcr: u32, padding: u64)

  /** What EL3 keeps for a core: both contexts, the EL1 system registers, and SCR_EL3.NS. */
  datatype Core = Core(ns: Context, s: Context, sys: Sys, scrNs: bool)

  const EL1H: u64 := 5
  const PREEMPTED: u64 := 6
  const FIRMWARE: nat := 0x2000
  const SEEOS: nat := 0x1000
  const SMC_VERSION: nat := 0x2000_0010
  const SMC_YIELD: nat := 0x2000_0020
  const SMC_RESUME: nat := 0x2000_0030
  const VERSION: u64 := 101
  const NOT_SUPPORTED: u64 := 3
  const CORE_WAKE: nat := 0
  const CORE_SLEEP: nat := 1
  const HPI_NSG1: nat := 1021

  // ---------------------------------------------------------------- handlers

  /** Registers from `first` on taken from `take`, the others kept. */
  function Patch(keep: Regs, take: Regs, first: nat): (r: Regs)
    requires first <= 31
    ensures forall i :: 0 <= i < 31 ==> r[i] == if i < first then keep[i] else take[i]
  {
    keep[..first] + take[first..]
  }

  /** The interrupted world, saved into its context. */
  function Saved(c: Context, f: Frame, sys: Sys, first: nat): Context
    requires first <= 31
  {
    Context(Patch(c.x, f.x, first), sys, f.elr, true, f.v, f.fpsr, f.fpcr)
  }

  /** The frame from which a context continues: x0 to x5 pass through, SPSR is forced. */
  function Loaded(f: Frame, c: Context): Frame {
    Frame(Patch(f.x, c.x, 6), EL1H, c.elr, c.v, c.fpsr, c.fpcr, f.padding)
  }

  function Restored(sys: Sys, c: Context): Sys { if c.initialized then c.sys else sys }

  function MmuOff(sys: Sys): Sys {
    sys.(sctlr := sys.sctlr - sys.sctlr % 2, ttbr0 := 0, ttbr1 := 0, tcr := 0)
  }

  /** SCTLR.M is clear and nothing is left of the old tables; the other registers are as before. */
  predicate TranslationOff(now: Sys, before: Sys) {
    && now.sctlr % 2 == 0 && now.sctlr / 2 == before.sctlr / 2
    && now.ttbr0 == 0 && now.ttbr1 == 0 && now.tcr == 0
    && now.sp == before.sp && now.vbar == before.vbar
  }

  /** A call to the secure OS, in `el3_sync_lower`; `entry` is the address of `_seeos_entry`. */
  function Call(c: Core, f: Frame, entry: u64): (Core, Frame) {
    var ns := Saved(c.ns, f, c.sys, 0);
    if c.s.initialized then (Core(ns, c.s, Restored(c.sys, c.s), false), Loaded(f, c.s))
    else (Core(ns, c.s, MmuOff(c.sys), false), f.(spsr := EL1H, elr := entry))
  }

  function Yield(c: Core, f: Frame): (Core, Frame) {
    (Core(c.ns, Saved(c.s, f, c.sys, 6), Restored(c.sys, c.ns), true), Loaded(f, c.ns))
  }

  /** `el3_jump_to_kernel` */
  function Preempt(c: Core, f: Frame): (Core, Frame) {
    var (t, g) := Yield(c, f);
    (t, g.(x := g.x[1 := PREEMPTED]))
  }

  function Resume(c: Core, f: Frame): (Core, Frame) {
    (c.(sys := Restored(c.sys, c.s), scrNs := false), Loaded(f, c.s))
  }

  /** `el3_cpu_on`: nothing without an entry point, else the core goes on there, in the non-secure world. */
  function Wake(c: Core, f: Frame, entryPoint: u64): (Core, Frame) {
    if entryPoint == 0 then (c, f) else (c.(scrNs := true), f.(spsr := EL1H, elr := entryPoint))
  }

  /** `el3_fiq`, but for the sleep interrupt, from which it does not return. */
  function Fiq(c: Core, f: Frame, interrupt: nat, entryPoint: u64): (Core, Frame) {
    if interrupt == CORE_WAKE then Wake(c, f, entryPoint)
    else if interrupt == HPI_NSG1 then Preempt(c, f)
    else (c, f)
  }

  /** `el3_smc_handler`; `psci` is the result of a power call. */
  function Firmware(c: Core, f: Frame, id: nat, psci: u64): (Core, Frame) {
    if id == SMC_YIELD then Yield(c, f)
    else if id == SMC_RESUME then Resume(c, f)
    else (c, f.(x := f.x[1 := if id == SMC_VERSION then VERSION else if IsPsci(id) then psci else NOT_SUPPORTED]))
  }

  predicate IsPsci(id: nat) { id == 0x2000_00A0 || id == 0x2000_00B0 || id == 0x2000_00D0 || id == 0x2000_00E0 }

  function FunctionId(f: Frame): nat { f.x[0] % TWO_32 }

  /** `el3_sync_lower` for an SMC. */
  function Smc(c: Core, f: Frame, entry: u64, psci: u64): (Core, Frame) {
    var id := FunctionId(f);
    if id / 0x1_0000 == FIRMWARE then Firmware(c, f, id, psci)
    else if id / 0x1_0000 == SEEOS then Call(c, f, entry)
    else (c, f)
  }

  // ---------------------------------------------------------------- the whole core

  /** The registers that the running world sees. */
  datatype Cpu = Cpu(x: Regs, v: Vregs, fpsr: u32, fpcr: u32, sys: Sys, pc: u64, spsr: u64)

  datatype Machine = Machine(cpu: Cpu, ns: Context, s: Context, scrNs: bool)

  /** SAVE_CONTEXT: FPSR and FPCR are stored as two 64-bit words. */
  function Pushed(c: Cpu): Frame { Frame(c.x, c.spsr, c.pc, c.v, c.fpsr, 0, c.fpcr) }

  /** RESTORE_CONTEXT and the exception return. */
  function Popped(f: Frame, sys: Sys): Cpu { Cpu(f.x, f.v, f.fpsr, f.padding % TWO_32, sys, f.elr, f.spsr) }

  datatype Event =
    | Guest(to: Cpu)            // the running world executes: every register it sees may change
    | DoSmc(psci: u64)
    | DoFiq(interrupt: nat, entryPoint: u64)   // with the entry point that other cores have set

  function AfterTrap(m: Machine, r: (Core, Frame)): Machine { Machine(Popped(r.1, r.0.sys), r.0.ns, r.0.s, r.0.scrNs) }

  function Next(m: Machine, e: Event, entry: u64): Machine {
    var c := Core(m.ns, m.s, m.cpu.sys, m.scrNs);
    match e
    case Guest(to) => m.(cpu := to)
    case DoSmc(psci) => AfterTrap(m, Smc(c, Pushed(m.cpu), entry, psci))
    case DoFiq(interrupt, entryPoint) => AfterTrap(m, Fiq(c, Pushed(m.cpu), interrupt, entryPoint))
  }

  function CalledId(m: Machine): nat { m.cpu.x[0] % TWO_32 }

  predicate IsCall(m: Machine, e: Event) { e.DoSmc? && CalledId(m) / 0x1_0000 == SEEOS }

  predicate IsYield(m: Machine, e: Event) { e.DoSmc? && CalledId(m) == SMC_YIELD }

  predicate IsResume(m: Machine, e: Event) { e.DoSmc? && CalledId(m) == SMC_RESUME }

  predicate IsPreempt(e: Event) { e.DoFiq? && e.interrupt == HPI_NSG1 }

  predicate IsWake(e: Event) { e.DoFiq? && e.interrupt == CORE_WAKE && e.entryPoint != 0 }

  /**
   * The protocol: the kernel calls, and resumes what it has called before; the secure OS yields; the kernel's
   * interrupt is a FIQ only while the secure OS runs. A core that is sent to sleep takes no further step.
   */
  predicate Enabled(m: Machine, e: Event) {
    && (IsCall(m, e) ==> m.scrNs)
    && (IsResume(m, e) ==> m.scrNs && m.s.initialized)
    && (IsYield(m, e) || IsPreempt(e) ==> !m.scrNs)
    && (e.DoFiq? ==> e.interrupt != CORE_SLEEP)
  }

  ghost predicate IsRun(ms: seq<Machine>, es: seq<Event>, entry: u64) {
    && |ms| == |es| + 1
    && forall k :: 0 <= k < |es| ==> Enabled(ms[k], es[k]) && ms[k + 1] == Next(ms[k], es[k], entry)
  }
}
