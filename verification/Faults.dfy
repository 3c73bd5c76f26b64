/** Which errors leave the CPU, and what a fault leaves behind. */
module FaultContainment {
  import opened Words
  import opened MemoryModel
  import opened MachineModel
  import opened StackLemmas

  /** The stack space an interrupt needs: 20 bytes, or 52 from the last window on. */
  function FrameBytes(wc: Word): nat {
    GLOBALS_BYTES + SpillBytes(wc)
  }

  /** An interrupt can be delivered or is off: no handler table, or a readable entry that is
      either zero or has room for its frame. */
  predicate CanDeliver(m: Machine, code: Byte) {
    || m.regs[IP] == 0
    || (InRange(m.mem, Vector(m, code), 4)
        && (WordAt(m.mem, Vector(m, code)) == 0 || m.regs[SP] + FrameBytes(m.regs[WC]) <= |m.mem|))
  }

  /** What a fault may have changed. */
  predicate FaultKeeps(m: Machine, n: Machine) {
    && n.running == m.running
    && n.regs[IP] == m.regs[IP]
  }

  lemma HandlerFits(m: Machine, handler: Word, code: Byte, g1: Word, g2: Word)
    ensures var s := EnterHandler(m, handler, code, g1, g2);
            && (s.out.Done? <==> m.regs[SP] + FrameBytes(m.regs[WC]) <= |m.mem|)
            && (!s.out.Done? ==> s.out.MemoryError? && FaultKeeps(m, s.m) && SameBelow(m.mem, s.m.mem, m.regs[SP]))
            && (s.out.Done? ==> s.out == Done(UpdateNone))
  {
    hide IncreaseWindow, PushAll, WordAt, SavedWindow;
    PushAllFits(m.mem, m.regs[SP], SavedGlobals(m));
    var (mem, r) := PushAll(m.mem, m.regs[SP], SavedGlobals(m));
    if r.Value? {
      IncreaseFits(Set(m.(mem := mem), SP, r.value));
    }
  }

  /** An interrupt succeeds exactly when it can be delivered at the PC it is raised for; if not,
      the error is a `MemoryError` and memory below the stack pointer is untouched. */
  lemma InterruptSucceeds(m: Machine, code: Byte, g1: Word, g2: Word)
    requires KnownInterrupt(code)
    ensures var s := Interrupt(m, code, g1, g2);
            && (s.out.Done? <==> CanDeliver(m, code))
            && (!s.out.Done? ==> s.out.MemoryError? && FaultKeeps(m, s.m) && SameBelow(m.mem, s.m.mem, m.regs[SP]))
            && (s.out.Done? ==> s.out == Done(UpdateNone))
  {
    hide EnterHandler, WordAt;
    var at := if ThrownByInstruction(code) then AdvancePC(m) else m;
    if InRange(at.mem, Vector(at, code), 4) {
      HandlerFits(at, WordAt(at.mem, Vector(at, code)), code, g1, g2);
    }
  }

  // ----- Calls

  /** A call goes in exactly when its target is a word of memory and the locals fit; a call that
      faults leaves every register and all memory below the stack pointer as they were. */
  lemma CallFaultLeavesState(m: Machine, address: Word)
    ensures var s := CallTo(m, address);
            && (s.out.Done? <==> InRange(m.mem, address, 4)
                                 && (Spills(m.regs[WC]) ==> m.regs[SP] + WINDOW_BYTES <= |m.mem|))
            && (!s.out.Done? ==> s.out.MemoryError? && s.m.regs == m.regs && s.m.running == m.running
                                 && SameBelow(m.mem, s.m.mem, m.regs[SP]))
  {
    hide IncreaseWindow, SavedWindow;
    IncreaseFits(m);
  }

  // ----- No instruction loses the handler table when it faults

  /** A pop that faults has not reached the last of its registers. */
  lemma {:induction false} PopFaultKeepsLast(m: Machine, sp: Word, rs: seq<Reg>)
    requires |rs| > 0 && Distinct(rs) && WC !in rs && SP !in rs
    ensures var s := PopAll(m, sp, rs);
            && s.m.running == m.running
            && (!s.out.Done? ==> s.out.MemoryError? && Get(s.m, rs[|rs| - 1]) == Get(m, rs[|rs| - 1]))
            && (s.out.Done? ==> s.out == Done(UpdateNone))
    decreases |rs|
  {
    hide WordAt;
    var top := Plus(sp, -4);
    if !InRange(m.mem, top, 4) || |rs| == 1 {
    } else {
      SetGet(m, rs[0], WordAt(m.mem, top));
      PopFaultKeepsLast(Set(m, rs[0], WordAt(m.mem, top)), top, rs[1..]);
    }
  }

  /** Popping windowed registers does not touch the globals other than SP. */
  lemma {:induction false} PopLocalsKeepsGlobals(m: Machine, sp: Word, rs: seq<Reg>)
    requires forall i :: 0 <= i < |rs| ==> rs[i] >= GLOBAL_REGISTERS
    ensures var s := PopAll(m, sp, rs);
            && s.m.running == m.running && s.m.regs[IP] == m.regs[IP]
            && (s.out.MemoryError? || s.out == Done(UpdateNone))
    decreases |rs|
  {
    hide WordAt;
    var top := Plus(sp, -4);
    if rs == [] || !InRange(m.mem, top, 4) {
    } else {
      SetGet(m, rs[0], WordAt(m.mem, top));
      PopLocalsKeepsGlobals(Set(m, rs[0], WordAt(m.mem, top)), top, rs[1..]);
    }
  }

  lemma LeaveOutcome(m: Machine)
    ensures var s := Leave(m);
            && s.m.running == m.running && s.m.regs[IP] == m.regs[IP]
            && (s.out.MemoryError? || s.out == Done(UpdateNone))
  {
    hide PopAll;
    var m1 := Set(m, PC, Get(m, LR));
    var m2 := Set(m1, SP, Get(m1, FP));
    var m3 := Set(m2, WC, Plus(m2.regs[WC], -1));
    PopLocalsKeepsGlobals(m3, m3.regs[SP], LOCALS_DOWNWARDS);
  }

  lemma RetiOutcome(m: Machine)
    ensures var s := Reti(m);
            && (s.out.MemoryError? || s.out == Done(UpdateNone))
            && (s.out.MemoryError? ==> FaultKeeps(m, s.m))
  {
    hide Leave, PopAll;
    LeaveOutcome(m);
    var m1 := Leave(m).m;
    PopFaultKeepsLast(m1, m1.regs[SP], GLOBALS_DOWNWARDS);
  }

  lemma ComputeOutcome(m: Machine, alu: Alu, inst: Instruction)
    ensures var s := Compute(m, alu, inst);
            && (s.out.Done? || s.out.MemoryError?)
            && (!s.out.Done? ==> FaultKeeps(m, s.m))
  {
    hide Interrupt;
    match alu(m.regs, inst)
    case DivisionByZero(dividend) => InterruptSucceeds(m, INTERRUPT_DIVISION, m.regs[PC], dividend);
    case _ =>
  }

  /** Whatever instruction faults, the handler table register is still the one it had. */
  lemma PerformOutcome(m: Machine, alu: Alu, inst: Instruction)
    ensures var s := Perform(m, alu, inst);
            && !s.out.Stopped?
            && (!s.out.Done? ==> FaultKeeps(m, s.m))
  {
    hide CallTo, Leave, Reti, Compute, Interrupt, Restart, WordAt;
    match OperationOf(inst.code)
    case OpCall => CallFaultLeavesState(m, Plus(m.regs[PC], SignedOffset(inst.data)));
    case OpCallr => CallFaultLeavesState(m, Get(m, inst.first));
    case OpRet => LeaveOutcome(m);
    case OpReti => RetiOutcome(m);
    case OpCompute => ComputeOutcome(m, alu, inst);
    case OpInt => InterruptSucceeds(m, INTERRUPT_SOFTWARE, inst.data, 0);
    case _ =>
  }

  // ----- The cycle

  /** The instruction of this cycle ends with an error, and which interrupt that asks for. */
  function Fault(m: Machine, alu: Alu): (Machine, int)
  {
    if !InRange(m.mem, m.regs[PC], 4) then (m, INTERRUPT_MEMORY)
    else
      var s := Perform(m, alu, Fetch(m));
      (s.m, match s.out case Done(_) => -1 case CodeError => INTERRUPT_INSTRUCTION case _ => INTERRUPT_MEMORY)
  }

  /** While running, the only error that leaves `next` is a `MemoryError`, and it leaves exactly
      when an instruction faults and its interrupt cannot be delivered from the state the fault
      left, whose handler table is the one the cycle began with. */
  lemma NextEscapes(m: Machine, alu: Alu)
    requires m.running
    ensures var (at, code) := Fault(m, alu);
            && (code != -1 ==> FaultKeeps(m, at))
            && (Next(m, alu).out.Done? || Next(m, alu).out.MemoryError?)
            && (Next(m, alu).out.MemoryError? <==> code != -1 && !CanDeliver(at, code))
  {
    hide Perform, Interrupt, Fetch, CanDeliver;
    var (at, code) := Fault(m, alu);
    if InRange(m.mem, m.regs[PC], 4) {
      PerformOutcome(m, alu, Fetch(m));
      var s := Perform(m, alu, Fetch(m));
      match s.out {
        case MemoryError(a) => InterruptSucceeds(s.m, INTERRUPT_MEMORY, s.m.regs[PC], a);
        case CodeError => InterruptSucceeds(s.m, INTERRUPT_INSTRUCTION, s.m.regs[PC], Fetch(m).code);
        case _ =>
      }
    } else {
      InterruptSucceeds(m, INTERRUPT_MEMORY, m.regs[PC], m.regs[PC]);
    }
  }

  /** With no handler table nothing escapes, for any memory, registers and instruction. */
  lemma NextContained(m: Machine, alu: Alu)
    requires m.running && m.regs[IP] == 0
    ensures Next(m, alu).out.Done?
  {
    hide Next, Fault;
    NextEscapes(m, alu);
  }

  /** So a whole `execute` with no handler table never throws while the program leaves the
      table off, however many cycles it is given. */
  lemma {:induction false} ExecuteContained(m: Machine, alu: Alu, cycles: nat)
    requires forall k: nat :: k <= cycles ==> Execute(m, alu, k).0.m.regs[IP] == 0
    ensures Execute(m, alu, cycles).0.out.Done?
    decreases cycles
  {
    hide Next;
    if !m.running || cycles == 0 {
    } else {
      assert Execute(m, alu, 0).0.m == m;
      NextContained(m, alu);
      var n := Next(m, alu).m;
      forall k: nat | k <= cycles - 1
        ensures Execute(n, alu, k).0.m.regs[IP] == 0
      {
        assert Execute(m, alu, k + 1) == Execute(n, alu, k);
      }
      ExecuteContained(n, alu, cycles - 1);
    }
  }
}
