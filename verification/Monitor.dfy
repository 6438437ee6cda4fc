/** The EL3 handlers as they work in memory: copies between the trap frame, the two contexts and the registers. */
module Monitor {
  import opened Words
  import opened WorldSwitch

  /** `trap_frame_t` on the EL3 stack. */
  class TrapFrame {
    const regs: array<u64>
    const vregs: array<Vec>
    var spsr: u64
    var elr: u64
    var fpsr: u32
    var fpcr: u32
    var padding: u64

    constructor (f: Frame)
      ensures Shape() && Value() == f && fresh(regs) && fresh(vregs)
    {
      regs := new u64[31](i requires 0 <= i < 31 => f.x[i]);
      vregs := new Vec[32](i requires 0 <= i < 32 => f.v[i]);
      spsr, elr, fpsr, fpcr, padding := f.spsr, f.elr, f.fpsr, f.fpcr, f.padding;
    }

    ghost predicate Shape() { regs.Length == 31 && vregs.Length == 32 }

    ghost function Value(): Frame
      requires Shape()
      reads this, regs, vregs
    {
      Frame(regs[..], spsr, elr, vregs[..], fpsr, fpcr, padding)
    }
  }

  /** The EL1 system registers and SCR_EL3.NS. */
  class SystemRegisters {
    var el1: Sys
    var scrNs: bool

    constructor (el1: Sys, scrNs: bool)
      ensures this.el1 == el1 && this.scrNs == scrNs
    {
      this.el1, this.scrNs := el1, scrNs;
    }
  }

  /** `context_t` */
  class SavedContext {
    const regs: array<u64>
    const vregs: array<Vec>
    var el1: Sys
    var elr: u64
    var initialized: bool
    var fpsr: u32
    var fpcr: u32

    /** Statically zero. */
    constructor ()
      ensures Shape() && !initialized && fresh(regs) && fresh(vregs)
    {
      regs := new u64[31](i => 0);
      vregs := new Vec[32](i => Vec(0, 0));
      el1, elr, initialized, fpsr, fpcr := Sys(0, 0, 0, 0, 0, 0), 0, false, 0, 0;
    }

    ghost predicate Shape() { regs.Length == 31 && vregs.Length == 32 }

    ghost function Value(): Context
      requires Shape()
      reads this, regs, vregs
    {
      Context(regs[..], el1, elr, initialized, vregs[..], fpsr, fpcr)
    }

    /** `save_context` */
    method Save(sys: SystemRegisters)
      requires Shape()
      modifies this
      ensures Value() == old(Value()).(sys := sys.el1, initialized := true)
    {
      el1, initialized := sys.el1, true;
    }

    /** `restore_context` */
    method Restore(sys: SystemRegisters)
      requires Shape()
      modifies sys
      ensures sys.el1 == Restored(old(sys.el1), Value()) && sys.scrNs == old(sys.scrNs)
    {
      if !initialized {
        return;
      }
      sys.el1 := el1;
    }

    /** The loops that move a frame into the context, from register `first` on. */
    method CopyFrom(frame: TrapFrame, first: nat)
      requires Shape() && frame.Shape() && first <= 31 && regs != frame.regs && vregs != frame.vregs
      modifies this, regs, vregs
      ensures Value() == old(Value()).(x := Patch(old(regs[..]), frame.regs[..], first), v := frame.vregs[..],
                                       fpsr := frame.fpsr, fpcr := frame.fpcr)
    {
      for i := first to 31
        modifies regs
        invariant forall k :: 0 <= k < 31 ==> regs[k] == if first <= k < i then frame.regs[k] else old(regs[k])
      {
        regs[i] := frame.regs[i];
      }
      assert regs[..] == Patch(old(regs[..]), frame.regs[..], first);
      for i := 0 to 32
        modifies vregs
        invariant forall k :: 0 <= k < i ==> vregs[k] == frame.vregs[k]
      {
        vregs[i] := Vec(frame.vregs[i].lo, frame.vregs[i].hi);
      }
      assert vregs[..] == frame.vregs[..];
      fpsr, fpcr := frame.fpsr, frame.fpcr;
    }

    /** The loops that move the context into a frame; x0 to x5 of the frame stay. */
    method CopyTo(frame: TrapFrame)
      requires Shape() && frame.Shape() && regs != frame.regs && vregs != frame.vregs
      modifies frame, frame.regs, frame.vregs
      ensures frame.Value() == old(frame.Value()).(x := Patch(old(frame.regs[..]), regs[..], 6), v := vregs[..],
                                                   fpsr := fpsr, fpcr := fpcr)
    {
      for i := 6 to 31
        modifies frame.regs
        invariant forall k :: 0 <= k < 31 ==> frame.regs[k] == if 6 <= k < i then regs[k] else old(frame.regs[k])
      {
        frame.regs[i] := regs[i];
      }
      assert frame.regs[..] == Patch(old(frame.regs[..]), regs[..], 6);
      for i := 0 to 32
        modifies frame.vregs
        invariant forall k :: 0 <= k < i ==> frame.vregs[k] == vregs[k]
      {
        frame.vregs[i] := Vec(vregs[i].lo, vregs[i].hi);
      }
      assert frame.vregs[..] == vregs[..];
      frame.fpsr, frame.fpcr := fpsr, fpcr;
    }
  }

  /** `cpus[core_id]`, with the registers of that core. */
  class CoreState {
    const ns: SavedContext
    const s: SavedContext
    const sys: SystemRegisters
    const entry: u64               // _seeos_entry

    constructor (sys: SystemRegisters, entry: u64)
      ensures Shape() && this.sys == sys && this.entry == entry && !s.initialized
      ensures fresh(ns) && fresh(s) && fresh(ns.regs) && fresh(ns.vregs) && fresh(s.regs) && fresh(s.vregs)
    {
      ns := new SavedContext();
      s := new SavedContext();
      this.sys, this.entry := sys, entry;
    }

    ghost predicate Shape() {
      ns.Shape() && s.Shape() && ns != s && ns.regs != s.regs && ns.vregs != s.vregs
    }

    ghost function Value(): Core
      requires Shape()
      reads ns, ns.regs, ns.vregs, s, s.regs, s.vregs, sys
    {
      Core(ns.Value(), s.Value(), sys.el1, sys.scrNs)
    }

    /** The frame is not one of the contexts. */
    ghost predicate Beside(frame: TrapFrame) {
      && frame.Shape()
      && frame.regs != ns.regs && frame.regs != s.regs && frame.vregs != ns.vregs && frame.vregs != s.vregs
    }

    /** The end of every switch: where to, with which status, in which world. */
    method Enter(frame: TrapFrame, c: SavedContext, toNs: bool)
      requires Shape() && Beside(frame) && (c == ns || c == s)
      modifies frame, frame.regs, frame.vregs, sys
      ensures frame.Value() == Loaded(old(frame.Value()), c.Value())
      ensures sys.el1 == Restored(old(sys.el1), c.Value()) && sys.scrNs == toNs
    {
      c.Restore(sys);
      c.CopyTo(frame);
      sys.scrNs := toNs;
      frame.spsr := EL1H;
      frame.elr := c.elr;
    }

    /** The SMC_YIELD case. */
    method Yield(frame: TrapFrame)
      requires Shape() && Beside(frame)
      modifies s, s.regs, s.vregs, sys, frame, frame.regs, frame.vregs
      ensures (Value(), frame.Value()) == WorldSwitch.Yield(old(Value()), old(frame.Value()))
    {
      s.Save(sys);
      s.CopyFrom(frame, 6);
      s.elr := frame.elr;
      Enter(frame, ns, true);
    }

    /** `el3_jump_to_kernel` */
    method JumpToKernel(frame: TrapFrame)
      requires Shape() && Beside(frame)
      modifies s, s.regs, s.vregs, sys, frame, frame.regs, frame.vregs
      ensures (Value(), frame.Value()) == Preempt(old(Value()), old(frame.Value()))
    {
      s.elr := frame.elr;
      s.Save(sys);
      s.CopyFrom(frame, 6);
      Enter(frame, ns, true);
      frame.regs[1] := PREEMPTED;
    }

    /** The SMC_RESUME case. */
    method Resume(frame: TrapFrame)
      requires Shape() && Beside(frame)
      modifies sys, frame, frame.regs, frame.vregs
      ensures (Value(), frame.Value()) == WorldSwitch.Resume(old(Value()), old(frame.Value()))
    {
      Enter(frame, s, false);
    }

    /** `disable_mmu_el1` */
    method DisableMmu()
      modifies sys
      ensures sys.el1 == MmuOff(old(sys.el1)) && TranslationOff(sys.el1, old(sys.el1)) && sys.scrNs == old(sys.scrNs)
    {
      sys.el1 := sys.el1.(sctlr := sys.el1.sctlr - sys.el1.sctlr % 2);
      sys.el1 := sys.el1.(ttbr0 := 0, ttbr1 := 0, tcr := 0);
    }

    /** The SEEOS case of `el3_sync_lower`. */
    method Call(frame: TrapFrame)
      requires Shape() && Beside(frame)
      modifies ns, ns.regs, ns.vregs, sys, frame, frame.regs, frame.vregs
      ensures (Value(), frame.Value()) == WorldSwitch.Call(old(Value()), old(frame.Value()), entry)
      ensures !s.initialized ==> frame.elr == entry && !sys.scrNs && TranslationOff(sys.el1, old(sys.el1))
    {
      ns.elr := frame.elr;
      ns.Save(sys);
      ns.CopyFrom(frame, 0);
      if s.initialized {
        Enter(frame, s, false);
      } else {
        DisableMmu();
        sys.scrNs := false;
        frame.spsr := EL1H;
        frame.elr := entry;
      }
    }

    /** `el3_sync_lower` for an SMC, with `el3_smc_handler`; `psci` is the result of a power call. */
    method SyncLower(frame: TrapFrame, psci: u64)
      requires Shape() && Beside(frame)
      modifies ns, ns.regs, ns.vregs, s, s.regs, s.vregs, sys, frame, frame.regs, frame.vregs
      ensures (Value(), frame.Value()) == Smc(old(Value()), old(frame.Value()), entry, psci)
    {
      var functionId := frame.regs[0] % TWO_32;
      var worldId := functionId / 0x1_0000;
      if worldId == FIRMWARE {
        if functionId == SMC_YIELD {
          Yield(frame);
        } else if functionId == SMC_RESUME {
          Resume(frame);
        } else if functionId == SMC_VERSION {
          frame.regs[1] := VERSION;
        } else if IsPsci(functionId) {
          frame.regs[1] := psci;
        } else {
          frame.regs[1] := NOT_SUPPORTED;
        }
      } else if worldId == SEEOS {
        Call(frame);
      }
    }

    /** `el3_cpu_on`, with the entry point that other cores have set. */
    method CpuOn(frame: TrapFrame, entryPoint: u64)
      requires Shape() && Beside(frame)
      modifies sys, frame
      ensures (Value(), frame.Value()) == Wake(old(Value()), old(frame.Value()), entryPoint)
    {
      if entryPoint != 0 {
        sys.scrNs := true;
        frame.spsr := EL1H;
        frame.elr := entryPoint;
      }
    }

    /** `el3_fiq`, but for the sleep interrupt, from which it does not return. */
    method HandleFiq(frame: TrapFrame, interruptId: nat, entryPoint: u64)
      requires Shape() && Beside(frame) && interruptId != CORE_SLEEP
      modifies s, s.regs, s.vregs, sys, frame, frame.regs, frame.vregs
      ensures (Value(), frame.Value()) == Fiq(old(Value()), old(frame.Value()), interruptId, entryPoint)
    {
      if interruptId == CORE_WAKE {
        CpuOn(frame, entryPoint);
      } else if interruptId == HPI_NSG1 {
        JumpToKernel(frame);
      }
    }
  }
}
