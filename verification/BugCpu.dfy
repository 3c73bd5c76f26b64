/** The CPU of a bug as the object it is in the source (simpleworld/cpu.cpp over
    simpleworld/cpu/cpu.cpp): its `world` instruction, its interrupts and its cycle, each proved to
    do what `TimedActions` says. */
module BugCpuObject {
  import opened Options
  import opened Words
  import opened CpuObject
  import M = MachineModel
  import T = TimedActions

  class BugCpu {
    const cpu: Cpu
    var actionTime: Option<Time>
    var lastAction: Option<Time>
    /** The actions carried out so far. */
    ghost var done: seq<T.Deed>

    ghost predicate Valid() {
      cpu.Valid()
    }

    ghost function View(): T.Brain
      requires Valid()
      reads this, cpu, cpu.registers, cpu.memory
    {
      T.Brain(cpu.View(), actionTime, lastAction, done)
    }

    constructor (cpu: Cpu)
      requires cpu.Valid()
      ensures Valid() && this.cpu == cpu && View() == T.Brain(cpu.View(), None, None, [])
    {
      this.cpu := cpu;
      actionTime, lastAction, done := None, None, [];
    }

    /** The answer of the world is written to the registers, or the error decides the end. */
    method Finish(data: HalfWord, now: Time, r: T.Response)
      requires Valid() && (r.Answer? || r.Failure?)
      modifies this, cpu.registers
      ensures View() == T.Complete(old(View()), data, now, r)
    {
      ghost var deed := T.Deed(now, data, cpu.View().regs[M.G0]);
      if r.Answer? {
        if T.TellsWord(data) {
          cpu.SetReg(M.G1, r.g1);
        }
        if T.TellsPosition(data) {
          cpu.SetReg(M.G2, r.g2);
        }
        cpu.SetReg(M.G0, T.ACTION_SUCCESS);
      } else {
        cpu.SetReg(M.G0, T.ACTION_FAILURE);
      }
      lastAction := Some(now);
      actionTime := None;
      done := done + [deed];
    }

    method World(data: HalfWord, now: Time, durations: T.Durations, r: T.Response) returns (e: T.Ending)
      requires Valid()
      modifies this, cpu.registers
      ensures (View(), e) == T.World(old(View()), data, now, durations, r)
    {
      hide T.Complete, T.Duration;
      var known := T.Duration(durations, data);
      if actionTime.None? {
        if known.None? {
          return T.BadAction(data);
        }
        var date := Plus(now, known.value);
        if !T.Dates(date, now) {
          return T.Aborted;
        }
        actionTime := Some(date);
      }
      if actionTime.value > now {
        return T.Blocked;
      }
      var answer := if known.None? then T.Failure else r;
      match answer
      case Death => return T.Died;
      case Broken(a) => return T.Fault(M.MemoryError(a));
      case Refusal => return T.Aborted;
      case _ =>
        Finish(data, now, answer);
        return T.Ran(M.UpdatePC);
    }

    method Interrupt(code: Byte, g1: Word, g2: Word) returns (o: M.Outcome)
      requires Valid()
      modifies this, cpu.registers, cpu.memory
      ensures (View(), o) == T.BugInterrupt(old(View()), code, g1, g2)
    {
      hide M.Interrupt, M.Enabled;
      var enabled := cpu.InterruptEnabled(code);
      if enabled.OutOfRange? {
        return M.MemoryError(enabled.address);
      }
      if enabled.value && actionTime.Some? {
        actionTime := None;
        cpu.SetReg(M.G0, T.ACTION_INTERRUPTED);
        return M.Done(M.UpdateNone);
      }
      o := cpu.Interrupt(code, g1, g2);
    }

    method Perform(inst: M.Instruction) returns (o: M.Outcome)
      requires Valid()
      modifies this, cpu.registers, cpu.memory
      ensures (View(), o) == T.BugPerform(old(View()), cpu.alu, inst)
    {
      hide T.BugInterrupt, M.Perform;
      var operation := M.OperationOf(inst.code);
      if operation.OpInt? {
        o := Interrupt(M.INTERRUPT_SOFTWARE, inst.data, 0);
      } else if operation.OpCompute? && cpu.alu(cpu.registers[..], inst).DivisionByZero? {
        var dividend := cpu.alu(cpu.registers[..], inst).dividend;
        o := Interrupt(M.INTERRUPT_DIVISION, cpu.registers[M.PC], dividend);
      } else {
        o := cpu.Perform(inst);
        return;
      }
      if o.Done? {
        o := M.Done(M.UpdateInterrupt);
      }
    }

    /** The instruction at PC. */
    method Instruct(now: Time, durations: T.Durations, r: T.Response) returns (e: T.Ending, code: Byte)
      requires Valid()
      modifies this, cpu.registers, cpu.memory
      ensures (View(), e) == T.Instruct(old(View()), now, durations, cpu.alu, r) && code == T.CodeAt(old(View()).m)
    {
      hide T.World, T.BugPerform, M.Fetch;
      var fetched := cpu.FetchInstruction();
      if fetched.OutOfRange? {
        return T.Fault(M.MemoryError(fetched.address)), 0;
      }
      code := fetched.value.code;
      if code == T.WORLD {
        e := World(fetched.value.data, now, durations, r);
      } else {
        var o := Perform(fetched.value);
        e := if o.Done? then T.Ran(o.update) else T.Fault(o);
      }
    }

    /** One instruction; errors of the CPU and unknown actions become interrupts. */
    method Next(now: Time, durations: T.Durations, r: T.Response) returns (e: T.Ending)
      requires Valid()
      modifies this, cpu, cpu.registers, cpu.memory
      ensures (View(), e) == T.BugNext(old(View()), now, durations, cpu.alu, r)
    {
      hide T.Instruct, T.BugInterrupt, T.CodeAt;
      if !cpu.running {
        return T.Fault(M.Stopped);
      }
      var code;
      e, code := Instruct(now, durations, r);
      var o;
      match e {
        case Ran(update) =>
          match update {
            case UpdatePC => cpu.SetReg(M.PC, Plus(cpu.registers[M.PC], 4));
            case UpdateStop => cpu.running := false;
            case UpdateInterrupt =>
            case UpdateNone =>
          }
          return T.Ran(M.UpdateNone);
        case BadAction(data) =>
          o := Interrupt(M.INTERRUPT_WORLDACTION, cpu.registers[M.PC], data);
        case Fault(CodeError) =>
          o := Interrupt(M.INTERRUPT_INSTRUCTION, cpu.registers[M.PC], code);
        case Fault(MemoryError(address)) =>
          o := Interrupt(M.INTERRUPT_MEMORY, cpu.registers[M.PC], address);
        case _ =>
          return;
      }
      return if o.Done? then T.Ran(M.UpdateNone) else T.Fault(o);
    }

    /** The instructions of one cycle of the world. */
    method Execute(cycles: HalfWord, now: Time, durations: T.Durations, respond: nat -> T.Response)
      returns (e: T.Ending)
      requires Valid()
      modifies this, cpu, cpu.registers, cpu.memory
      ensures (View(), e) == T.BugExecute(old(View()), cycles, now, durations, cpu.alu, respond)
    {
      hide T.BugNext;
      var remaining: nat := cycles;
      while cpu.running && remaining > 0
        invariant T.BugExecute(old(View()), cycles, now, durations, cpu.alu, respond)
               == T.BugExecute(View(), remaining, now, durations, cpu.alu, respond)
        decreases remaining
      {
        e := Next(now, durations, respond(remaining));
        if !e.Ran? {
          return;
        }
        remaining := remaining - 1;
      }
      return T.Ran(M.UpdateNone);
    }
  }
}
