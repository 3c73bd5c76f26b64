/** The CPU as the object it is in the source: every operation updates the registers and the
    memory step by step, and is proved to do what `MachineModel` says, faults included. */
module CpuObject {
  import opened Words
  import opened MemoryModel
  import M = MachineModel

  type Reg = M.Reg
  type Machine = M.Machine

  class Cpu {
    const registers: array<Word>
    const memory: Memory
    const alu: M.Alu
    var running: bool

    ghost predicate Valid() {
      registers.Length >= M.TOTAL_REGISTERS
    }

    ghost function View(): Machine
      requires Valid()
      reads this, registers, memory
    {
      M.Machine(registers[..], memory.bytes, running)
    }

    /** A register memory that is too small is extended with zeros. */
    constructor (contents: seq<Word>, memory: Memory, alu: M.Alu)
      ensures Valid() && fresh(registers) && this.memory == memory && this.alu == alu
      ensures View().running && View().mem == memory.bytes
      ensures registers.Length == if |contents| < M.TOTAL_REGISTERS then M.TOTAL_REGISTERS else |contents|
      ensures forall i :: 0 <= i < registers.Length ==>
                View().regs[i] == if i < |contents| then contents[i] else 0
    {
      registers := new Word[if |contents| < M.TOTAL_REGISTERS then M.TOTAL_REGISTERS else |contents|]
        (i requires 0 <= i => if i < |contents| then contents[i] else 0);
      this.memory := memory;
      this.alu := alu;
      running := true;
    }

    method GetReg(reg: Reg) returns (w: Word)
      requires Valid()
      ensures w == M.Get(View(), reg)
    {
      var i: nat := reg;
      if reg >= M.GLOBAL_REGISTERS {
        var window := registers[M.WC];
        if window >= M.REGISTER_WINDOWS {
          window := M.REGISTER_WINDOWS - 1;
        }
        i := i + window * 8;
      }
      return registers[i];
    }

    method SetReg(reg: Reg, w: Word)
      requires Valid()
      modifies registers
      ensures View() == M.Set(old(View()), reg, w)
    {
      var i: nat := reg;
      if reg >= M.GLOBAL_REGISTERS {
        var window := registers[M.WC];
        if window >= M.REGISTER_WINDOWS {
          window := M.REGISTER_WINDOWS - 1;
        }
        i := i + window * 8;
      }
      registers[i] := w;
    }

    // ----- operations_function.cpp

    method PushLocals() returns (o: M.Outcome)
      requires Valid()
      modifies registers, memory
      ensures M.Step(View(), o) == M.PushLocals(old(View()))
    {
      var sp := GetReg(M.SP);
      ghost var m, locals := View(), M.Locals(View());
      var i := M.GLOBAL_REGISTERS;
      while i < M.GLOBAL_REGISTERS + M.REGISTERS_PER_WINDOW
        invariant M.GLOBAL_REGISTERS <= i <= M.GLOBAL_REGISTERS + M.REGISTERS_PER_WINDOW
        invariant View() == m.(mem := memory.bytes)
        invariant M.PushAll(m.mem, m.regs[M.SP], locals) == M.PushAll(memory.bytes, sp, locals[i - 8..])
      {
        var w := GetReg(i);
        assert w == locals[i - 8] && locals[i - 8..][1..] == locals[i - 7..];
        var r := memory.SetWord(sp, w, true);
        if r.OutOfRange? {
          return M.MemoryError(r.address);
        }
        sp := Plus(sp, 4);
        i := i + 1;
      }
      SetReg(M.SP, sp);
      return M.Done(M.UpdateNone);
    }

    method PopLocals() returns (o: M.Outcome)
      requires Valid()
      modifies registers
      ensures M.Step(View(), o) == M.PopLocals(old(View()))
    {
      var sp := GetReg(M.SP);
      ghost var m := View();
      var i: int := M.GLOBAL_REGISTERS + M.REGISTERS_PER_WINDOW - 1;
      while i >= M.GLOBAL_REGISTERS
        invariant M.GLOBAL_REGISTERS - 1 <= i < M.GLOBAL_REGISTERS + M.REGISTERS_PER_WINDOW
        invariant M.PopLocals(m) == M.PopAll(View(), sp, M.LOCALS_DOWNWARDS[15 - i..])
      {
        assert M.LOCALS_DOWNWARDS[15 - i..][1..] == M.LOCALS_DOWNWARDS[16 - i..];
        sp := Plus(sp, -4);
        var r := memory.GetWord(sp, true);
        if r.OutOfRange? {
          return M.MemoryError(r.address);
        }
        SetReg(i, r.value);
        i := i - 1;
      }
      SetReg(M.SP, sp);
      return M.Done(M.UpdateNone);
    }

    /** One step of `pop_globals`: the top of the stack into a register, or the fault. */
    method PopGlobal(reg: Reg, sp: Word) returns (top: Word, o: M.Outcome)
      requires Valid()
      modifies registers
      ensures top == Plus(sp, -4)
      ensures if InRange(memory.bytes, top, 4)
              then o == M.Done(M.UpdateNone) && View() == M.Set(old(View()), reg, WordAt(memory.bytes, top))
              else o == M.MemoryError(top) && View() == old(View())
    {
      top := Plus(sp, -4);
      var r := memory.GetWord(top, true);
      if r.OutOfRange? {
        return top, M.MemoryError(r.address);
      }
      SetReg(reg, r.value);
      return top, M.Done(M.UpdateNone);
    }

    method PopGlobals() returns (o: M.Outcome)
      requires Valid()
      modifies registers
      ensures M.Step(View(), o) == M.PopGlobals(old(View()))
    {
      var sp := GetReg(M.SP);
      ghost var m := View();
      assert M.GLOBALS_DOWNWARDS[1..] == [6, 5, 4, 3];
      assert M.GLOBALS_DOWNWARDS[1..][1..] == [5, 4, 3];
      sp, o := PopGlobal(M.G3, sp);
      if !o.Done? { return; }
      assert M.PopGlobals(m) == M.PopAll(View(), sp, [6, 5, 4, 3]);
      sp, o := PopGlobal(M.G2, sp);
      if !o.Done? { return; }
      assert [6, 5, 4, 3][1..] == [5, 4, 3];
      assert M.PopGlobals(m) == M.PopAll(View(), sp, [5, 4, 3]);
      sp, o := PopGlobal(M.G1, sp);
      if !o.Done? { return; }
      assert [5, 4, 3][1..] == [4, 3];
      assert M.PopGlobals(m) == M.PopAll(View(), sp, [4, 3]);
      sp, o := PopGlobal(M.G0, sp);
      if !o.Done? { return; }
      assert [4, 3][1..] == [3];
      assert M.PopGlobals(m) == M.PopAll(View(), sp, [3]);
      sp, o := PopGlobal(M.IP, sp);
      if !o.Done? { return; }
      assert M.PopGlobals(m) == M.PopAll(View(), sp, []);
      SetReg(M.SP, sp);
    }

    method IncreaseWindow() returns (o: M.Outcome)
      requires Valid()
      modifies registers, memory
      ensures M.Step(View(), o) == M.IncreaseWindow(old(View()))
    {
      var wc := GetReg(M.WC);
      if wc >= M.REGISTER_WINDOWS - 1 {
        o := PushLocals();
        if !o.Done? { return; }
      }
      SetReg(M.WC, Plus(wc, 1));
      return M.Done(M.UpdateNone);
    }

    method DecreaseWindow() returns (o: M.Outcome)
      requires Valid()
      modifies registers
      ensures M.Step(View(), o) == M.DecreaseWindow(old(View()))
    {
      var wc := GetReg(M.WC);
      wc := Plus(wc, -1);
      SetReg(M.WC, wc);
      if wc >= M.REGISTER_WINDOWS - 1 {
        o := PopLocals();
      } else {
        o := M.Done(M.UpdateNone);
      }
    }

    /** The part `call` and `callr` share, from the check of the target on. */
    method CallTo(address: Word) returns (o: M.Outcome)
      requires Valid()
      modifies registers, memory
      ensures M.Step(View(), o) == M.CallTo(old(View()), address)
    {
      var r := memory.GetWord(address, true);
      if r.OutOfRange? {
        return M.MemoryError(r.address);
      }
      o := IncreaseWindow();
      if !o.Done? { return; }
      var pc := GetReg(M.PC);
      SetReg(M.LR, pc);
      var sp := GetReg(M.SP);
      SetReg(M.FP, sp);
      SetReg(M.PC, address);
      return M.Done(M.UpdateNone);
    }

    method Call(inst: M.Instruction) returns (o: M.Outcome)
      requires Valid()
      modifies registers, memory
      ensures M.Step(View(), o) == M.Call(old(View()), inst)
    {
      var pc := GetReg(M.PC);
      o := CallTo(Plus(pc, SignedOffset(inst.data)));
    }

    method Callr(inst: M.Instruction) returns (o: M.Outcome)
      requires Valid()
      modifies registers, memory
      ensures M.Step(View(), o) == M.Callr(old(View()), inst)
    {
      var address := GetReg(inst.first);
      o := CallTo(address);
    }

    /** The part `ret` and `reti` share. */
    method Leave() returns (o: M.Outcome)
      requires Valid()
      modifies registers
      ensures M.Step(View(), o) == M.Leave(old(View()))
    {
      hide M.DecreaseWindow;
      var lr := GetReg(M.LR);
      SetReg(M.PC, lr);
      var fp := GetReg(M.FP);
      SetReg(M.SP, fp);
      o := DecreaseWindow();
    }

    method Ret() returns (o: M.Outcome)
      requires Valid()
      modifies registers
      ensures M.Step(View(), o) == M.Ret(old(View()))
    {
      o := Leave();
      if o.Done? {
        o := M.Done(M.UpdatePC);
      }
    }

    method Reti() returns (o: M.Outcome)
      requires Valid()
      modifies registers
      ensures M.Step(View(), o) == M.Reti(old(View()))
    {
      o := Leave();
      if o.Done? {
        o := PopGlobals();
      }
    }

    // ----- cpu.cpp

    method InterruptEnabled(code: Byte) returns (r: Access<bool>)
      requires Valid()
      ensures r == M.Enabled(View(), code)
    {
      var ip := registers[M.IP];
      if ip == 0 {
        return Value(false);
      }
      var handler := memory.GetWord(Plus(ip, 4 * code), true);
      match handler
      case OutOfRange(a) => return OutOfRange(a);
      case Value(w) => return Value(w != 0);
    }

    /** One step of saving the globals: the first of the words still to push, or the fault. */
    method PushGlobal(reg: Reg, sp: Word, ghost rest: seq<Word>) returns (top: Word, o: M.Outcome)
      requires Valid()
      requires rest != [] && rest[0] == M.Get(View(), reg)
      modifies memory
      ensures if o == M.Done(M.UpdateNone)
              then M.PushAll(old(memory.bytes), sp, rest) == M.PushAll(memory.bytes, top, rest[1..])
              else o == M.MemoryError(sp) && M.PushAll(old(memory.bytes), sp, rest) == (memory.bytes, OutOfRange(sp))
    {
      top := Plus(sp, 4);
      var w := GetReg(reg);
      var r := memory.SetWord(sp, w, true);
      o := if r.OutOfRange? then M.MemoryError(r.address) else M.Done(M.UpdateNone);
    }

    /** The five stores of `interrupt`, in order, each able to fault. */
    method PushSavedGlobals(start: Word) returns (sp: Word, o: M.Outcome)
      requires Valid()
      modifies memory
      ensures M.PushAll(old(memory.bytes), start, M.SavedGlobals(old(View())))
           == (memory.bytes, match o case MemoryError(a) => OutOfRange(a) case _ => Value(sp))
      ensures o == M.Done(M.UpdateNone) || o.MemoryError?
    {
      ghost var r := registers[..];
      sp, o := PushGlobal(M.IP, start, [r[M.IP], r[M.G0], r[M.G1], r[M.G2], r[M.G3]]);
      if !o.Done? { return; }
      assert [r[M.IP], r[M.G0], r[M.G1], r[M.G2], r[M.G3]][1..] == [r[M.G0], r[M.G1], r[M.G2], r[M.G3]];
      sp, o := PushGlobal(M.G0, sp, [r[M.G0], r[M.G1], r[M.G2], r[M.G3]]);
      if !o.Done? { return; }
      assert [r[M.G0], r[M.G1], r[M.G2], r[M.G3]][1..] == [r[M.G1], r[M.G2], r[M.G3]];
      sp, o := PushGlobal(M.G1, sp, [r[M.G1], r[M.G2], r[M.G3]]);
      if !o.Done? { return; }
      assert [r[M.G1], r[M.G2], r[M.G3]][1..] == [r[M.G2], r[M.G3]];
      sp, o := PushGlobal(M.G2, sp, [r[M.G2], r[M.G3]]);
      if !o.Done? { return; }
      assert [r[M.G2], r[M.G3]][1..] == [r[M.G3]];
      sp, o := PushGlobal(M.G3, sp, [r[M.G3]]);
    }

    method Interrupt(code: Byte, g1: Word, g2: Word) returns (o: M.Outcome)
      requires Valid()
      modifies registers, memory
      ensures M.Step(View(), o) == M.Interrupt(old(View()), code, g1, g2)
    {
      if !M.KnownInterrupt(code) {
        return M.CodeError;
      }
      if M.ThrownByInstruction(code) {
        var pc := GetReg(M.PC);
        SetReg(M.PC, Plus(pc, 4));
      }
      var enabled := InterruptEnabled(code);
      match enabled {
        case OutOfRange(a) => return M.MemoryError(a);
        case Value(b) =>
          if !b {
            return M.Done(M.UpdateNone);
          }
      }
      var vector := memory.GetWord(Plus(registers[M.IP], 4 * code), true);
      var handler := vector.value;
      o := EnterHandler(handler, code, g1, g2);
    }

    /** `interrupt` from the saving of the globals on. */
    method EnterHandler(handler: Word, code: Byte, g1: Word, g2: Word) returns (o: M.Outcome)
      requires Valid()
      modifies registers, memory
      ensures M.Step(View(), o) == M.EnterHandler(old(View()), handler, code, g1, g2)
    {
      var sp := GetReg(M.SP);
      sp, o := PushSavedGlobals(sp);
      if !o.Done? { return; }
      SetReg(M.SP, sp);
      o := IncreaseWindow();
      if !o.Done? { return; }
      var pc := GetReg(M.PC);
      SetReg(M.LR, pc);
      sp := GetReg(M.SP);
      SetReg(M.FP, sp);
      SetReg(M.G0, code);
      SetReg(M.G1, g1);
      SetReg(M.G2, g2);
      SetReg(M.PC, handler);
    }

    // ----- operations_move.cpp and operations_management.cpp

    method GetByData(data: HalfWord) returns (r: Access<Word>)
      requires Valid()
      ensures r == M.GetByData(View(), data)
    {
      var i := data % 0x100;
      if i >= M.GLOBAL_REGISTERS {
        var window := registers[M.WC];
        if window >= M.REGISTER_WINDOWS {
          window := M.REGISTER_WINDOWS - 1;
        }
        i := (i + window * 8) % 0x100;
      }
      return if i < registers.Length then Value(registers[i]) else OutOfRange(4 * i);
    }

    method EffectiveAddress(mode: M.Mode, base: Reg, data: HalfWord) returns (r: Access<Word>)
      requires Valid()
      ensures r == M.EffectiveAddress(View(), mode, base, data)
    {
      match mode
      case Relative =>
        var pc := GetReg(M.PC);
        return Value(Plus(pc, SignedOffset(data)));
      case Offset =>
        var w := GetReg(base);
        return Value(Plus(w, SignedOffset(data)));
      case Indexed =>
        var w := GetReg(base);
        r := GetByData(data);
        if r.Value? {
          r := Value(Plus(w, r.value));
        }
    }

    method Load(width: M.Width, mode: M.Mode, inst: M.Instruction) returns (o: M.Outcome)
      requires Valid()
      modifies registers
      ensures M.Step(View(), o) == M.Load(old(View()), width, mode, inst)
    {
      var a := EffectiveAddress(mode, inst.second, inst.data);
      if a.OutOfRange? {
        return M.MemoryError(a.address);
      }
      var w: Word;
      match width {
        case FullWord =>
          var r := memory.GetWord(a.value, true);
          if r.OutOfRange? { return M.MemoryError(r.address); }
          w := r.value;
        case Half =>
          var r := memory.GetHalfWord(a.value, true);
          if r.OutOfRange? { return M.MemoryError(r.address); }
          w := r.value;
        case Quarter =>
          var r := memory.GetQuarterWord(a.value);
          if r.OutOfRange? { return M.MemoryError(r.address); }
          w := r.value;
      }
      SetReg(inst.first, w);
      return M.Done(M.UpdatePC);
    }

    method Store(width: M.Width, mode: M.Mode, inst: M.Instruction) returns (o: M.Outcome)
      requires Valid()
      modifies memory
      ensures M.Step(View(), o) == M.Store(old(View()), width, mode, inst)
    {
      var a := EffectiveAddress(mode, inst.first, inst.data);
      if a.OutOfRange? {
        return M.MemoryError(a.address);
      }
      var w := GetReg(if mode.Relative? then inst.first else inst.second);
      var r: Access<()>;
      match width {
        case FullWord => r := memory.SetWord(a.value, w, true);
        case Half => r := memory.SetHalfWord(a.value, w % 0x1_0000, true);
        case Quarter => r := memory.SetQuarterWord(a.value, w % 0x100);
      }
      return if r.OutOfRange? then M.MemoryError(r.address) else M.Done(M.UpdatePC);
    }

    method Push(inst: M.Instruction) returns (o: M.Outcome)
      requires Valid()
      modifies registers, memory
      ensures M.Step(View(), o) == M.Push(old(View()), inst)
    {
      var sp := GetReg(M.SP);
      var w := GetReg(inst.first);
      var r := memory.SetWord(sp, w, true);
      if r.OutOfRange? {
        return M.MemoryError(r.address);
      }
      sp := GetReg(M.SP);
      SetReg(M.SP, Plus(sp, 4));
      return M.Done(M.UpdatePC);
    }

    method Pop(inst: M.Instruction) returns (o: M.Outcome)
      requires Valid()
      modifies registers
      ensures M.Step(View(), o) == M.Pop(old(View()), inst)
    {
      var sp := GetReg(M.SP);
      SetReg(M.SP, Plus(sp, -4));
      sp := GetReg(M.SP);
      var r := memory.GetWord(sp, true);
      if r.OutOfRange? {
        return M.MemoryError(r.address);
      }
      SetReg(inst.first, r.value);
      return M.Done(M.UpdatePC);
    }

    method Restart() returns (o: M.Outcome)
      requires Valid()
      modifies registers
      ensures M.Step(View(), o) == M.Step(M.Restart(old(View()), 0), M.Done(M.UpdateNone))
    {
      var i := 0;
      while i < 16
        invariant 0 <= i <= 16
        invariant M.Restart(old(View()), 0) == M.Restart(View(), i)
      {
        SetReg(i, 0);
        i := i + 1;
      }
      return M.Done(M.UpdateNone);
    }

    method Compute(inst: M.Instruction) returns (o: M.Outcome)
      requires Valid()
      modifies registers, memory
      ensures M.Step(View(), o) == M.Compute(old(View()), alu, inst)
    {
      match alu(registers[..], inst)
      case Write(w) =>
        SetReg(inst.first, w);
        return M.Done(M.UpdatePC);
      case BadRegister(a) =>
        return M.MemoryError(a);
      case DivisionByZero(dividend) =>
        var pc := GetReg(M.PC);
        o := Interrupt(M.INTERRUPT_DIVISION, pc, dividend);
        if o.Done? {
          o := M.Done(M.UpdateInterrupt);
        }
      case Branch(taken) =>
        var pc := GetReg(M.PC);
        var target := Plus(pc, SignedOffset(inst.data));
        var r := memory.GetWord(target, true);
        if r.OutOfRange? {
          return M.MemoryError(r.address);
        }
        if taken {
          SetReg(M.PC, target);
          return M.Done(M.UpdateNone);
        }
        return M.Done(M.UpdatePC);
    }

    // ----- The cycle

    method Perform(inst: M.Instruction) returns (o: M.Outcome)
      requires Valid()
      modifies registers, memory
      ensures M.Step(View(), o) == M.Perform(old(View()), alu, inst)
    {
      hide M.Call, M.Callr, M.Ret, M.Reti, M.Push, M.Pop, M.Load, M.Store, M.Compute, M.Interrupt;
      match M.OperationOf(inst.code)
      case OpUnknown => o := M.CodeError;
      case OpStop => o := M.Done(M.UpdateStop);
      case OpRestart => o := Restart();
      case OpMove =>
        var w := GetReg(inst.second);
        SetReg(inst.first, w);
        o := M.Done(M.UpdatePC);
      case OpPush => o := Push(inst);
      case OpPop => o := Pop(inst);
      case OpLoad(width, mode) => o := Load(width, mode, inst);
      case OpStore(width, mode) => o := Store(width, mode, inst);
      case OpCall => o := Call(inst);
      case OpCallr => o := Callr(inst);
      case OpInt =>
        o := Interrupt(M.INTERRUPT_SOFTWARE, inst.data, 0);
        if o.Done? {
          o := M.Done(M.UpdateInterrupt);
        }
      case OpRet => o := Ret();
      case OpReti => o := Reti();
      case OpCompute => o := Compute(inst);
    }

    method FetchInstruction() returns (r: Access<M.Instruction>)
      requires Valid()
      ensures r == if InRange(memory.bytes, registers[M.PC], 4) then Value(M.Fetch(View()))
                   else OutOfRange(registers[M.PC])
    {
      hide Swap, WordAt, ByteOf;
      var pc := registers[M.PC];
      var raw := memory.GetWord(pc, false);
      if raw.OutOfRange? {
        return OutOfRange(raw.address);
      }
      RawBytes(memory.bytes, pc);
      var w := raw.value;
      return Value(M.Decode(ByteOf(w, 3), ByteOf(w, 2), ByteOf(w, 1), ByteOf(w, 0)));
    }

    /** One instruction; its errors become interrupts, and the errors of those escape. */
    method Next() returns (o: M.Outcome)
      requires Valid()
      modifies this, registers, memory
      ensures M.Step(View(), o) == M.Next(old(View()), alu)
    {
      hide M.Perform, M.Interrupt, M.Fetch;
      if !running {
        return M.Stopped;
      }
      var code: Byte := 0;
      var fetched := FetchInstruction();
      if fetched.OutOfRange? {
        o := M.MemoryError(fetched.address);
      } else {
        code := fetched.value.code;
        o := Perform(fetched.value);
      }
      match o
      case Done(update) =>
        match update {
          case UpdatePC => SetReg(M.PC, Plus(registers[M.PC], 4));
          case UpdateStop => running := false;
          case UpdateInterrupt =>
          case UpdateNone =>
        }
        return M.Done(M.UpdateNone);
      case CodeError =>
        o := Interrupt(M.INTERRUPT_INSTRUCTION, registers[M.PC], code);
      case MemoryError(address) =>
        o := Interrupt(M.INTERRUPT_MEMORY, registers[M.PC], address);
      case Stopped =>
    }

    /** The number of cycles left is returned in 8 bits. */
    method Execute(cycles: HalfWord) returns (left: Byte, o: M.Outcome)
      requires Valid()
      modifies this, registers, memory
      ensures var (s, n) := M.Execute(old(View()), alu, cycles);
              M.Step(View(), o) == s && left == n % 0x100
    {
      hide M.Next;
      var remaining := cycles;
      o := M.Done(M.UpdateNone);
      while running && remaining > 0
        invariant o.Done?
        invariant M.Execute(old(View()), alu, cycles) == M.Execute(View(), alu, remaining)
        decreases remaining
      {
        o := Next();
        if !o.Done? {
          return remaining % 0x100, o;
        }
        remaining := remaining - 1;
      }
      return remaining % 0x100, M.Done(M.UpdateNone);
    }
  }
}
