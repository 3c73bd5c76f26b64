/** The instructions as a programmer finds them (simpleworld/cpu/isa.cpp, cpu.cpp, operations_*.cpp): from
    the bytes at PC to the registers and bytes after `next`, in numbers, without the functions that
    compute them. */
module InstructionSet {
  import opened Words
  import opened MemoryModel
  import opened MachineModel
  import opened StackLemmas
  import opened FaultContainment
  import opened Transfers

  // ----- Numbers

  /** The low 32 bits. */
  function Low(x: int): Word {
    x % 0x1_0000_0000
  }

  /** Where register `r` lies: eight globals, then sixteen windows of eight, of which the counter in
      register 0 selects one, the last for every larger value. */
  function Place(regs: Registers, r: Reg): (i: nat)
    ensures i < 136
  {
    if r < 8 then r else if regs[0] < 15 then 8 * regs[0] + r else 120 + r
  }

  function Named(m: Machine, r: Reg): Word {
    m.regs[Place(m.regs, r)]
  }

  function BigEndian(mem: Bytes, a: int): Word
    requires 0 <= a && a + 4 <= |mem|
  {
    0x100_0000 * mem[a] as int + 0x1_0000 * mem[a + 1] as int + 0x100 * mem[a + 2] as int + mem[a + 3] as int
  }

  /** A base and sixteen bits extended with their sign. */
  function Displaced(base: Word, data: HalfWord): Word {
    Low(base as int + if data >= 0x8000 then 0xFFFF_0000 + data else data)
  }

  /** The word at PC is this instruction. */
  predicate Encoded(m: Machine, code: Byte, first: Reg, second: Reg, data: HalfWord) {
    var pc := m.regs[1];
    && pc + 4 <= |m.mem|
    && m.mem[pc] == code && m.mem[pc + 1] == 16 * first + second
    && 0x100 * m.mem[pc + 2] as int + m.mem[pc + 3] as int == data
  }

  /** The registers with PC at the next word. */
  function Onward(regs: Registers): Registers {
    regs[1 := Low(regs[1] as int + 4)]
  }

  lemma PlaceIs(regs: Registers, r: Reg)
    ensures Index(regs, r) == Place(regs, r)
  {
  }

  lemma DisplacedIs(base: Word, data: HalfWord)
    ensures Plus(base, SignedOffset(data)) == Displaced(base, data)
  {
  }

  lemma WordIs(mem: Bytes, a: Word)
    requires a + 4 <= |mem|
    ensures WordAt(mem, a) == BigEndian(mem, a)
  {
  }

  /** Decoding what is encoded gives it back. */
  lemma FetchDecodes(m: Machine, code: Byte, first: Reg, second: Reg, data: HalfWord)
    requires Encoded(m, code, first, second, data)
    ensures Fetch(m) == Instruction(code, first, second, data)
  {
    assert (16 * first + second) / 0x10 == first && (16 * first + second) % 0x10 == second;
  }

  // ----- Interrupts

  /** Where the handler of an interrupt is found. */
  function Entry(m: Machine, code: Byte): Word {
    Low(m.regs[3] as int + 4 * code as int)
  }

  /** The handler table is on and its entry for this interrupt can be read and is not zero. */
  predicate Taken(m: Machine, code: Byte) {
    m.regs[3] != 0 && Entry(m, code) + 4 <= |m.mem| && BigEndian(m.mem, Entry(m, code)) != 0
  }

  /** The bytes an interrupt needs at the stack pointer. */
  function FrameSize(m: Machine): int {
    if m.regs[0] >= 15 then 52 else 20
  }

  /** An interrupt is off, or its entry is zero, or its entry can be read and its frame fits. */
  predicate Deliverable(m: Machine, code: Byte) {
    || m.regs[3] == 0
    || (Entry(m, code) + 4 <= |m.mem|
        && (BigEndian(m.mem, Entry(m, code)) == 0 || m.regs[2] + FrameSize(m) <= |m.mem|))
  }

  lemma DeliverableIs(m: Machine, code: Byte)
    ensures CanDeliver(m, code) <==> Deliverable(m, code)
  {
    hide WordAt, BigEndian;
    assert Vector(m, code) == Entry(m, code);
    if Entry(m, code) + 4 <= |m.mem| {
      WordIs(m.mem, Entry(m, code));
    }
  }

  /** `n` is at the first instruction of the handler: G0 to G2 tell the interrupt, LR is where the
      program goes on, FP is the stack pointer above the frame; IP and G3 are as they were. */
  predicate AtHandler(m: Machine, n: Machine, code: Byte, g1: Word, g2: Word, link: Word) {
    && n.regs[4] == code && n.regs[5] == g1 && n.regs[6] == g2
    && Entry(m, code) + 4 <= |m.mem| && n.regs[1] == BigEndian(m.mem, Entry(m, code))
    && Named(n, 8) == link && Named(n, 9) == n.regs[2] == Low(m.regs[2] + FrameSize(m))
    && n.regs[0] == Low(m.regs[0] as int + 1) && n.regs[3] == m.regs[3] && n.regs[7] == m.regs[7]
    && n.running == m.running
  }

  /** The frame: IP, G0 to G3 and, from window 15 on, the eight locals lie in order where the stack
      pointer was; below it memory is as it was. */
  predicate Framed(m: Machine, n: Machine) {
    var sp := m.regs[2];
    && sp + FrameSize(m) <= |m.mem| == |n.mem|
    && (forall k :: 0 <= k < 5 ==> BigEndian(n.mem, sp + 4 * k) == m.regs[3 + k])
    && (m.regs[0] >= 15 ==> forall k :: 0 <= k < 8 ==> BigEndian(n.mem, sp + 20 + 4 * k) == Named(m, 8 + k))
    && (forall i :: 0 <= i < sp ==> n.mem[i] == m.mem[i])
  }

  lemma SavedLocals(m: Machine, mem: Bytes, a: Word)
    requires a + 32 <= |mem| && SavedWindow(mem, a) == Locals(m)
    ensures forall k :: 0 <= k < 8 ==> BigEndian(mem, a + 4 * k) == Named(m, 8 + k)
  {
    hide WordAt, BigEndian;
    LocalsAre(m);
    forall k | 0 <= k < 8
      ensures BigEndian(mem, a + 4 * k) == Named(m, 8 + k)
    {
      WordIs(mem, a + 4 * k);
      PlaceIs(m.regs, 8 + k);
      assert SavedWindow(mem, a)[k] == Locals(m)[k];
    }
  }

  lemma GlobalsSaved(m: Machine, mem: Bytes, mem': Bytes, a: Word)
    requires a + 20 <= |mem| && SameBelow(mem, mem', a + 20)
    requires forall k :: 0 <= k < 5 ==> WordAt(mem, a + 4 * k) == SavedGlobals(m)[k]
    ensures forall k :: 0 <= k < 5 ==> BigEndian(mem', a + 4 * k) == m.regs[3 + k]
  {
    hide WordAt, BigEndian;
    forall k | 0 <= k < 5
      ensures BigEndian(mem', a + 4 * k) == m.regs[3 + k]
    {
      SameWord(mem, mem', a + 4 * k);
      WordIs(mem', a + 4 * k);
      assert SavedGlobals(m)[k] == m.regs[3 + k];
    }
  }

  /** The links and globals a handler starts with. */
  lemma Linked(m: Machine, handler: Word, code: Byte, g1: Word, g2: Word)
    ensures var m1 := Set(m, LR, m.regs[PC]);
            var m2 := Set(m1, FP, m1.regs[SP]);
            var n := Set(Set(Set(Set(m2, G0, code), G1, g1), G2, g2), PC, handler);
            && n.mem == m.mem && n.running == m.running
            && n.regs[4] == code && n.regs[5] == g1 && n.regs[6] == g2 && n.regs[1] == handler
            && Named(n, 8) == m.regs[1] && Named(n, 9) == n.regs[2] == m.regs[2]
            && n.regs[0] == m.regs[0] && n.regs[3] == m.regs[3] && n.regs[7] == m.regs[7]
  {
  }

  lemma EntersHandler(m: Machine, handler: Word, code: Byte, g1: Word, g2: Word)
    requires EnterHandler(m, handler, code, g1, g2).out.Done?
    ensures var n := EnterHandler(m, handler, code, g1, g2).m;
            && Framed(m, n) && n.running == m.running
            && n.regs[4] == code && n.regs[5] == g1 && n.regs[6] == g2 && n.regs[1] == handler
            && Named(n, 8) == m.regs[1] && Named(n, 9) == n.regs[2] == Low(m.regs[2] + FrameSize(m))
            && n.regs[0] == Low(m.regs[0] as int + 1) && n.regs[3] == m.regs[3] && n.regs[7] == m.regs[7]
  {
    hide IncreaseWindow, PushAll, WordAt, BigEndian, SavedWindow, Locals, Set, Get, Named;
    var sp := m.regs[SP];
    PushAllFits(m.mem, sp, SavedGlobals(m));
    var mem := PushAll(m.mem, sp, SavedGlobals(m)).0;
    var m1 := Set(m.(mem := mem), SP, sp + 20);
    MovedStack(m, mem, sp + 20);
    IncreaseFits(m1);
    var m2 := IncreaseWindow(m1).m;
    GlobalsSaved(m, mem, m2.mem, sp);
    if m.regs[0] >= 15 {
      SavedLocals(m, m2.mem, sp + 20);
    }
    Linked(m2, handler, code, g1, g2);
  }

  lemma MovedStack(m: Machine, mem: Bytes, sp: Word)
    ensures var n := Set(m.(mem := mem), SP, sp);
            n == m.(mem := mem, regs := m.regs[SP := sp]) && Locals(n) == Locals(m)
  {
  }

  /** Where the program goes on: at the next word, but after the timer and the events of the world,
      which no instruction throws, at the one it was at. */
  function GoesOn(m: Machine, code: Byte): Word {
    if code == 0 || code == 6 then m.regs[1] else Low(m.regs[1] as int + 4)
  }

  /** An interrupt that is taken and ends normally has entered its handler with the two words it was
      given, in this order; one that is off only moves PC. */
  lemma InterruptDelivers(m: Machine, code: Byte, g1: Word, g2: Word)
    requires code <= 6 && Interrupt(m, code, g1, g2).out.Done?
    ensures var n := Interrupt(m, code, g1, g2).m;
            if Taken(m, code) then AtHandler(m, n, code, g1, g2, GoesOn(m, code)) && Framed(m, n)
            else n == m.(regs := m.regs[1 := GoesOn(m, code)])
  {
    hide EnterHandler, WordAt, BigEndian, Named, Framed;
    var at := if ThrownByInstruction(code) then AdvancePC(m) else m;
    assert at.regs == m.regs[1 := GoesOn(m, code)] && at.mem == m.mem;
    assert m.regs[1 := m.regs[1]] == m.regs;
    assert Vector(at, code) == Entry(m, code);
    if m.regs[3] != 0 {
      WordIs(m.mem, Entry(m, code));
      if Taken(m, code) {
        EntersHandler(at, WordAt(m.mem, Entry(m, code)), code, g1, g2);
        FrameAt(m, at, EnterHandler(at, WordAt(m.mem, Entry(m, code)), code, g1, g2).m);
      }
    }
  }

  /** An interrupt whose entry cannot be read fails with the address of the entry, PC having moved. */
  lemma EntryMissing(m: Machine, code: Byte, g1: Word, g2: Word)
    requires code <= 6 && m.regs[3] != 0 && Entry(m, code) + 4 > |m.mem|
    ensures Interrupt(m, code, g1, g2) == Step(m.(regs := m.regs[1 := GoesOn(m, code)]), MemoryError(Entry(m, code)))
  {
    hide EnterHandler, WordAt;
    var at := if ThrownByInstruction(code) then AdvancePC(m) else m;
    assert at.regs == m.regs[1 := GoesOn(m, code)] && at.mem == m.mem;
    assert m.regs[1 := m.regs[1]] == m.regs;
    assert Vector(at, code) == Entry(m, code);
  }

  lemma FrameAt(m: Machine, at: Machine, n: Machine)
    requires at.mem == m.mem && at.regs == m.regs[1 := at.regs[1]] && Framed(at, n)
    ensures Framed(m, n)
  {
    hide BigEndian, Named;
    SameLocals(m, at);
  }

  lemma SameLocals(m: Machine, at: Machine)
    requires at.regs == m.regs[1 := at.regs[1]]
    ensures forall k: int :: 8 <= k < 16 ==> Named(at, k) == Named(m, k)
  {
  }

  // ----- What faults hand over

  /** `s` is what becomes of `m` by an interrupt with these two words: it ends normally when it can be
      delivered, and then the handler finds them and goes on behind the instruction, or the interrupt
      is off and only PC has moved. */
  predicate HandsOver(m: Machine, s: Step, code: Byte, g1: Word, g2: Word) {
    && (s.out.Done? || s.out.MemoryError?) && (s.out.Done? <==> Deliverable(m, code))
    && (s.out.Done? ==>
          if Taken(m, code) then AtHandler(m, s.m, code, g1, g2, Low(m.regs[1] as int + 4)) && Framed(m, s.m)
          else s.m == m.(regs := Onward(m.regs)))
  }

  lemma Delivered(m: Machine, code: Byte, g1: Word, g2: Word)
    requires 1 <= code <= 5
    ensures HandsOver(m, Interrupt(m, code, g1, g2), code, g1, g2)
  {
    hide Interrupt, Taken, AtHandler, Framed, CanDeliver, Deliverable;
    InterruptSucceeds(m, code, g1, g2);
    DeliverableIs(m, code);
    if Interrupt(m, code, g1, g2).out.Done? {
      InterruptDelivers(m, code, g1, g2);
    }
  }

  /** No instruction at PC: the words are PC, twice. */
  lemma MissingInstruction(m: Machine, alu: Alu)
    requires m.running && m.regs[1] + 4 > |m.mem|
    ensures HandsOver(m, Next(m, alu), 3, m.regs[1], m.regs[1])
  {
    hide Interrupt, HandsOver;
    Delivered(m, 3, m.regs[1], m.regs[1]);
  }

  /** The codes of the instruction set. */
  predicate Known(code: Byte) {
    || code <= 0x01 || code in {0x10, 0x12, 0x18, 0x1a}
    || (0x20 <= code <= 0x2e && code !in {0x21, 0x25, 0x29})
    || (0x30 <= code <= 0x3b && code !in {0x31, 0x35, 0x39})
    || (0x40 <= code <= 0x4d && code != 0x41)
    || (0x50 <= code <= 0x55 && code != 0x53)
    || 0x60 <= code <= 0x6d || code == 0x70 || code == 0x71
    || code == 0x80 || 0x88 <= code <= 0x8d || 0x90 <= code <= 0x99
  }

  /** An instruction that does not exist: the words are PC and its code. */
  lemma UnknownInstruction(m: Machine, alu: Alu, code: Byte, first: Reg, second: Reg, data: HalfWord)
    requires m.running && Encoded(m, code, first, second, data) && !Known(code)
    ensures HandsOver(m, Next(m, alu), 2, m.regs[1], code)
  {
    hide Interrupt, HandsOver, Encoded, Perform, Known;
    NextIs(m, alu, code, first, second, data);
    Dispatch(m, alu, Instruction(code, first, second, data));
    Delivered(m, 2, m.regs[1], code);
  }

  /** A step on an instruction that is there. */
  lemma NextIs(m: Machine, alu: Alu, code: Byte, first: Reg, second: Reg, data: HalfWord)
    requires m.running && Encoded(m, code, first, second, data)
    ensures Next(m, alu) == Finish(Perform(m, alu, Instruction(code, first, second, data)), code)
  {
    hide Perform, Finish, Fetch;
    FetchDecodes(m, code, first, second, data);
  }

  /** Which operation each of these codes is. */
  lemma Dispatch(m: Machine, alu: Alu, inst: Instruction)
    ensures var s := Perform(m, alu, inst);
            && (inst.code == 0x00 ==> s == Step(m, Done(UpdateStop)))
            && (inst.code == 0x01 ==> s == Step(Restart(m, 0), Done(UpdateNone)))
            && (inst.code == 0x10 ==> s == Step(Set(m, inst.first, Get(m, inst.second)), Done(UpdatePC)))
            && (inst.code == 0x18 ==> s == Push(m, inst))
            && (inst.code == 0x1a ==> s == Pop(m, inst))
            && (inst.code == 0x50 ==> s == Call(m, inst))
            && (inst.code == 0x51 ==> s == Callr(m, inst))
            && (inst.code == 0x52 ==> s == SoftwareInterrupt(m, inst))
            && (inst.code == 0x54 ==> s == Ret(m))
            && (inst.code == 0x55 ==> s == Reti(m))
            && (Computing(inst.code) ==> s == Compute(m, alu, inst))
            && (!Known(inst.code) ==> s == Step(m, CodeError))
  {
    hide Call, Callr, Load, Store, Push, Pop, Restart, Compute, SoftwareInterrupt, Ret, Reti, Set, Get, Known, Computing,
         OperationOf;
    OperationTable(inst.code);
  }

  lemma OperationTable(code: Byte)
    ensures var op := OperationOf(code);
            && (code == 0x00 ==> op == OpStop) && (code == 0x01 ==> op == OpRestart)
            && (code == 0x10 ==> op == OpMove) && (code == 0x18 ==> op == OpPush) && (code == 0x1a ==> op == OpPop)
            && (code == 0x50 ==> op == OpCall) && (code == 0x51 ==> op == OpCallr) && (code == 0x52 ==> op == OpInt)
            && (code == 0x54 ==> op == OpRet) && (code == 0x55 ==> op == OpReti)
            && (Computing(code) ==> op == OpCompute) && (!Known(code) ==> op == OpUnknown)
  {
  }

  lemma FaultIs(m: Machine, s: Step, code: Byte, a: Word)
    requires s == Step(m, MemoryError(a))
    ensures HandsOver(m, Finish(s, code), 3, m.regs[1], a)
  {
    hide Interrupt, HandsOver;
    Delivered(m, 3, m.regs[1], a);
  }

  lemma AdvanceIs(m: Machine)
    ensures AdvancePC(m) == m.(regs := Onward(m.regs))
  {
  }

  /** `int`: the words are the data and zero. */
  lemma SoftwareInterruptMeans(m: Machine, alu: Alu, first: Reg, second: Reg, data: HalfWord)
    requires m.running && Encoded(m, 0x52, first, second, data) && Deliverable(m, 1)
    ensures HandsOver(m, Next(m, alu), 1, data, 0)
  {
    hide Interrupt, HandsOver, Encoded, Deliverable, Perform;
    NextIs(m, alu, 0x52, first, second, data);
    Dispatch(m, alu, Instruction(0x52, first, second, data));
    Delivered(m, 1, data, 0);
    HandedOn(m, Interrupt(m, 1, data, 0), 1, data, 0);
  }

  /** How the operation ended does not matter to what was handed over. */
  lemma HandedOn(m: Machine, s: Step, code: Byte, g1: Word, g2: Word)
    requires HandsOver(m, s, code, g1, g2) && Deliverable(m, code)
    ensures s.out.Done? && HandsOver(m, Step(s.m, Done(UpdateNone)), code, g1, g2)
  {
    hide Taken, AtHandler, Framed, Deliverable;
  }

  // ----- Loads and stores

  /** Where the register lies that the data field numbers: eight bits, the window added in eight bits. */
  function PlaceByData(regs: Registers, data: HalfWord): nat {
    var n := data as int % 0x100;
    if n < 8 then n else (n + if regs[0] < 15 then 8 * regs[0] as int else 120) % 0x100
  }

  /** The address of a load or store, from the last two bits of its code: relative to PC, a register
      plus a register, a register plus an offset. */
  function AddressOf(m: Machine, code: Byte, base: Reg, data: HalfWord): Access<Word> {
    if code % 4 == 0 then Value(Displaced(m.regs[1], data))
    else if code % 4 == 3 then Value(Displaced(Named(m, base), data))
    else if PlaceByData(m.regs, data) < |m.regs| then
      Value(Low(Named(m, base) as int + m.regs[PlaceByData(m.regs, data)] as int))
    else OutOfRange(4 * PlaceByData(m.regs, data))
  }

  /** Words, halves, quarters. */
  function Size(code: Byte): nat {
    if code % 0x10 < 4 then 4 else if code % 0x10 < 8 then 2 else 1
  }

  function ReadAt(mem: Bytes, a: int, size: nat): Word
    requires 0 <= a && 1 <= size <= 4 && a + size <= |mem|
  {
    if size == 4 then BigEndian(mem, a)
    else if size >= 2 then 0x100 * mem[a] as int + mem[a + 1] as int
    else mem[a]
  }

  lemma AddressIs(m: Machine, code: Byte, mode: Mode, base: Reg, data: HalfWord)
    requires mode == if code % 4 == 0 then Relative else if code % 4 == 3 then Offset else Indexed
    ensures EffectiveAddress(m, mode, base, data) == AddressOf(m, code, base, data)
  {
    DisplacedIs(m.regs[1], data);
    DisplacedIs(Named(m, base), data);
  }

  const LOADS: set<int> := {0x20, 0x22, 0x23, 0x24, 0x26, 0x27, 0x28, 0x2a, 0x2b}
  const STORES: set<int> := {0x30, 0x32, 0x33, 0x34, 0x36, 0x37, 0x38, 0x3a, 0x3b}

  /** The bytes at the address, most significant first, reach the first register and no other; PC goes
      on. An address that does not exist is handed to the memory interrupt. */
  lemma LoadMeans(m: Machine, alu: Alu, code: Byte, first: Reg, second: Reg, data: HalfWord)
    requires m.running && Encoded(m, code, first, second, data) && code in LOADS
    ensures match AddressOf(m, code, second, data)
            case OutOfRange(a) => HandsOver(m, Next(m, alu), 3, m.regs[1], a)
            case Value(a) =>
              if a + Size(code) > |m.mem| then HandsOver(m, Next(m, alu), 3, m.regs[1], a)
              else
                var loaded := m.regs[Place(m.regs, first) := ReadAt(m.mem, a, Size(code))];
                Next(m, alu) == Step(m.(regs := Onward(loaded)), Done(UpdateNone))
  {
    hide HandsOver, Encoded, AddressOf, EffectiveAddress, Interrupt, BigEndian, WordAt, Onward;
    NextIs(m, alu, code, first, second, data);
    LoadIs(m, alu, code, first, second, data);
    var inst := Instruction(code, first, second, data);
    var a := AddressOf(m, code, second, data);
    if a.OutOfRange? {
      FaultIs(m, Perform(m, alu, inst), code, a.address);
    } else if a.value + Size(code) > |m.mem| {
      FaultIs(m, Perform(m, alu, inst), code, a.value);
    } else {
      AdvanceIs(Perform(m, alu, inst).m);
    }
  }

  lemma LoadIs(m: Machine, alu: Alu, code: Byte, first: Reg, second: Reg, data: HalfWord)
    requires code in LOADS
    ensures var s := Perform(m, alu, Instruction(code, first, second, data));
            match AddressOf(m, code, second, data)
            case OutOfRange(a) => s == Step(m, MemoryError(a))
            case Value(a) =>
              if a + Size(code) > |m.mem| then s == Step(m, MemoryError(a))
              else s == Step(m.(regs := m.regs[Place(m.regs, first) := ReadAt(m.mem, a, Size(code))]), Done(UpdatePC))
  {
    hide AddressOf, EffectiveAddress, BigEndian, WordAt, OperationOf, Perform;
    LoadOperation(m, alu, code, first, second, data);
    var op := OperationOf(code);
    AddressIs(m, code, op.mode, second, data);
    var a := AddressOf(m, code, second, data);
    if a.Value? && a.value + Size(code) <= |m.mem| {
      if Size(code) == 4 {
        WordIs(m.mem, a.value);
      }
    }
  }

  lemma LoadOperation(m: Machine, alu: Alu, code: Byte, first: Reg, second: Reg, data: HalfWord)
    requires code in LOADS
    ensures var op, inst := OperationOf(code), Instruction(code, first, second, data);
            && op.OpLoad? && Bytewidth(op.width) == Size(code)
            && op.mode == (if code % 4 == 0 then Relative else if code % 4 == 3 then Offset else Indexed)
            && Perform(m, alu, inst) == Load(m, op.width, op.mode, inst)
  {
    hide Store, Call, Callr, Load, Push, Pop, Restart, Compute, SoftwareInterrupt, Ret, Reti;
  }

  /** The source register, cut to the size, is found at the address afterwards, most significant byte
      first, and no other byte or register but PC has changed. A PC-relative store names its source
      first; in the others the first register is the base. */
  predicate Stored(m: Machine, n: Machine, a: Word, size: nat, value: Word)
    requires 1 <= size <= 4 && a + size <= |m.mem|
  {
    && n.regs == Onward(m.regs) && n.running == m.running && |n.mem| == |m.mem|
    && ReadAt(n.mem, a, size) == (if size == 4 then value else if size == 2 then value % 0x1_0000 else value % 0x100)
    && (forall i :: 0 <= i < |m.mem| && !(a <= i < a + size) ==> n.mem[i] == m.mem[i])
  }

  lemma StoreMeans(m: Machine, alu: Alu, code: Byte, first: Reg, second: Reg, data: HalfWord)
    requires m.running && Encoded(m, code, first, second, data) && code in STORES
    ensures match AddressOf(m, code, first, data)
            case OutOfRange(a) => HandsOver(m, Next(m, alu), 3, m.regs[1], a)
            case Value(a) =>
              if a + Size(code) > |m.mem| then HandsOver(m, Next(m, alu), 3, m.regs[1], a)
              else Next(m, alu).out == Done(UpdateNone)
                   && Stored(m, Next(m, alu).m, a, Size(code), Named(m, if code % 4 == 0 then first else second))
  {
    hide HandsOver, Encoded, AddressOf, EffectiveAddress, Interrupt, StoreAt, Stored, Named, Get, OperationOf, Perform;
    NextIs(m, alu, code, first, second, data);
    StoreOperation(m, alu, code, first, second, data);
    var inst, op := Instruction(code, first, second, data), OperationOf(code);
    AddressIs(m, code, op.mode, first, data);
    var a := AddressOf(m, code, first, data);
    if a.OutOfRange? {
      FaultIs(m, Perform(m, alu, inst), code, a.address);
    } else if a.value + Size(code) > |m.mem| {
      FaultIs(m, Perform(m, alu, inst), code, a.value);
    } else {
      var source := if code % 4 == 0 then first else second;
      GetIs(m, source);
      StoreIs(m, op.width, a.value, Named(m, source));
      AdvanceIs(m.(mem := StoreAt(m.mem, op.width, a.value, Named(m, source))));
    }
  }

  lemma StoreOperation(m: Machine, alu: Alu, code: Byte, first: Reg, second: Reg, data: HalfWord)
    requires code in STORES
    ensures var op, inst := OperationOf(code), Instruction(code, first, second, data);
            && op.OpStore? && Bytewidth(op.width) == Size(code)
            && op.mode == (if code % 4 == 0 then Relative else if code % 4 == 3 then Offset else Indexed)
            && Perform(m, alu, inst) == Store(m, op.width, op.mode, inst)
  {
    hide Store, Call, Callr, Load, Push, Pop, Restart, Compute, SoftwareInterrupt, Ret, Reti;
  }

  lemma GetIs(m: Machine, r: Reg)
    ensures Get(m, r) == Named(m, r)
  {
  }

  lemma StoreIs(m: Machine, width: Width, a: Word, value: Word)
    requires InRange(m.mem, a, Bytewidth(width))
    ensures Stored(m, m.(mem := StoreAt(m.mem, width, a, value), regs := Onward(m.regs)), a, Bytewidth(width), value)
  {
    hide Onward, BigEndian, PutWord, WordAt;
    if width.FullWord? {
      WordRoundTrip(m.mem, a, value);
      WordIs(PutWord(m.mem, a, value), a);
    }
  }

  // ----- Moving, and the stack

  lemma MoveMeans(m: Machine, alu: Alu, first: Reg, second: Reg, data: HalfWord)
    requires m.running && Encoded(m, 0x10, first, second, data)
    ensures Next(m, alu) ==
            Step(m.(regs := Onward(m.regs[Place(m.regs, first) := Named(m, second)])), Done(UpdateNone))
  {
    hide Encoded, Perform;
    NextIs(m, alu, 0x10, first, second, data);
    Dispatch(m, alu, Instruction(0x10, first, second, data));
  }

  /** `push` stores at SP and moves SP up. */
  lemma PushMeans(m: Machine, alu: Alu, first: Reg, second: Reg, data: HalfWord)
    requires m.running && Encoded(m, 0x18, first, second, data)
    ensures var n, sp := Next(m, alu).m, m.regs[2];
            if sp + 4 > |m.mem| then HandsOver(m, Next(m, alu), 3, m.regs[1], sp)
            else
              && Next(m, alu).out == Done(UpdateNone) && |n.mem| == |m.mem|
              && n.regs == Onward(m.regs[2 := Low(sp as int + 4)]) && n.running == m.running
              && BigEndian(n.mem, sp) == Named(m, first)
              && (forall i :: 0 <= i < |m.mem| && !(sp <= i < sp + 4) ==> n.mem[i] == m.mem[i])
  {
    hide Encoded, HandsOver, Interrupt, PutWord, BigEndian, WordAt, Perform;
    NextIs(m, alu, 0x18, first, second, data);
    Dispatch(m, alu, Instruction(0x18, first, second, data));
    var sp := m.regs[2];
    if sp + 4 > |m.mem| {
      FaultIs(m, Perform(m, alu, Instruction(0x18, first, second, data)), 0x18, sp);
    } else {
      GetIs(m, first);
      WordRoundTrip(m.mem, sp, Named(m, first));
      WordIs(PutWord(m.mem, sp, Named(m, first)), sp);
    }
  }

  /** `pop` moves SP down first, so that a fault finds it moved. */
  lemma PopMeans(m: Machine, alu: Alu, first: Reg, second: Reg, data: HalfWord)
    requires m.running && Encoded(m, 0x1a, first, second, data)
    ensures var down := m.(regs := m.regs[2 := Low(m.regs[2] as int - 4)]);
            var sp := down.regs[2];
            if sp + 4 > |m.mem| then HandsOver(down, Next(m, alu), 3, m.regs[1], sp)
            else Next(m, alu) == Step(m.(regs := Onward(down.regs[Place(m.regs, first) := BigEndian(m.mem, sp)])),
                                      Done(UpdateNone))
  {
    hide Encoded, HandsOver, Interrupt, BigEndian, WordAt, Perform;
    NextIs(m, alu, 0x1a, first, second, data);
    Dispatch(m, alu, Instruction(0x1a, first, second, data));
    var down := m.(regs := m.regs[2 := Low(m.regs[2] as int - 4)]);
    var sp := down.regs[2];
    if sp + 4 > |m.mem| {
      FaultIs(down, Perform(m, alu, Instruction(0x1a, first, second, data)), 0x1a, sp);
    } else {
      WordIs(m.mem, sp);
    }
  }

  /** `stop` and `restart`. */
  lemma StopMeans(m: Machine, alu: Alu, code: Byte, first: Reg, second: Reg, data: HalfWord)
    requires m.running && Encoded(m, code, first, second, data) && code <= 1
    ensures Next(m, alu).out == Done(UpdateNone) && Next(m, alu).m.mem == m.mem
    ensures Next(m, alu).m.running <==> code == 1
    ensures code == 0 ==> Next(m, alu).m.regs == m.regs
    ensures code == 1 ==> |Next(m, alu).m.regs| == |m.regs|
                          && forall i :: 0 <= i < |m.regs| ==> Next(m, alu).m.regs[i] == if i < 16 then 0 else m.regs[i]
  {
    hide Encoded, Restart, Perform;
    NextIs(m, alu, code, first, second, data);
    Dispatch(m, alu, Instruction(code, first, second, data));
    RestartClears(m);
  }

  // ----- Calls and returns

  /** Where SP goes when a window is left for the next: past the locals, when they are stored. */
  function AboveWindow(wc: Word, sp: int): int {
    if wc >= 15 then sp + 32 else sp
  }

  /** A frame has been entered by a call: a new window, linked by LR and FP; from window 15 on the
      locals lie in order where SP was; the other globals and memory below SP are as they were. */
  predicate Called(m: Machine, n: Machine, target: Word) {
    && n.regs[1] == target && Named(n, 8) == m.regs[1]
    && Named(n, 9) == n.regs[2] == Low(AboveWindow(m.regs[0], m.regs[2]))
    && n.regs[0] == Low(m.regs[0] as int + 1)
    && (forall i :: 3 <= i < 8 ==> n.regs[i] == m.regs[i])
    && n.running == m.running && |n.mem| == |m.mem|
    && (forall i :: 0 <= i < m.regs[2] && i < |m.mem| ==> n.mem[i] == m.mem[i])
    && (if m.regs[0] < 15 then n.mem == m.mem
        else
          && m.regs[2] + 32 <= |n.mem|
          && forall k :: 0 <= k < 8 ==> BigEndian(n.mem, m.regs[2] + 4 * k) == Named(m, 8 + k))
  }

  lemma LinkedCall(m: Machine, target: Word)
    ensures var m1 := Set(m, LR, m.regs[PC]);
            var n := Set(Set(m1, FP, m1.regs[SP]), PC, target);
            && n.mem == m.mem && n.running == m.running && n.regs[1] == target
            && Named(n, 8) == m.regs[1] && Named(n, 9) == n.regs[2] == m.regs[2] && n.regs[0] == m.regs[0]
            && (forall i :: 3 <= i < 8 ==> n.regs[i] == m.regs[i])
  {
  }

  lemma CallIs(m: Machine, target: Word)
    requires target + 4 <= |m.mem| && (m.regs[0] >= 15 ==> m.regs[2] + 32 <= |m.mem|)
    ensures CallTo(m, target).out == Done(UpdateNone) && Called(m, CallTo(m, target).m, target)
  {
    hide IncreaseWindow, SavedWindow, Locals, BigEndian, Named, Set;
    IncreaseFits(m);
    var n := IncreaseWindow(m).m;
    if m.regs[0] >= 15 {
      SavedLocals(m, n.mem, m.regs[2]);
    }
    LinkedCall(n, target);
  }

  /** `call` goes to PC plus its offset, `callr` to what its register holds. */
  lemma CallMeans(m: Machine, alu: Alu, code: Byte, first: Reg, second: Reg, data: HalfWord)
    requires m.running && Encoded(m, code, first, second, data) && (code == 0x50 || code == 0x51)
    ensures var target := if code == 0x50 then Displaced(m.regs[1], data) else Named(m, first);
            if target + 4 > |m.mem| then HandsOver(m, Next(m, alu), 3, m.regs[1], target)
            else m.regs[0] < 15 || m.regs[2] + 32 <= |m.mem| ==>
                   Next(m, alu).out == Done(UpdateNone) && Called(m, Next(m, alu).m, target)
  {
    hide Encoded, HandsOver, Interrupt, CallTo, Called, Named, Displaced, Perform;
    NextIs(m, alu, code, first, second, data);
    CallOperation(m, alu, code, first, second, data);
    var target := if code == 0x50 then Displaced(m.regs[1], data) else Named(m, first);
    if target + 4 > |m.mem| {
      NoTarget(m, target);
      FaultIs(m, CallTo(m, target), code, target);
    } else if m.regs[0] < 15 || m.regs[2] + 32 <= |m.mem| {
      CallIs(m, target);
    }
  }

  lemma CallOperation(m: Machine, alu: Alu, code: Byte, first: Reg, second: Reg, data: HalfWord)
    requires code == 0x50 || code == 0x51
    ensures Perform(m, alu, Instruction(code, first, second, data)) ==
            CallTo(m, if code == 0x50 then Displaced(m.regs[1], data) else Named(m, first))
  {
    hide CallTo, Get, Named, Displaced, Perform;
    Dispatch(m, alu, Instruction(code, first, second, data));
    DisplacedIs(m.regs[1], data);
    GetIs(m, first);
  }

  lemma NoTarget(m: Machine, target: Word)
    requires target + 4 > |m.mem|
    ensures CallTo(m, target) == Step(m, MemoryError(target))
  {
  }

  /** The frame is left: the counter goes down, SP is below the locals that came back from the stack,
      when they were there, and otherwise no window has changed. */
  predicate Left(m: Machine, n: Machine) {
    var wc, fp := Low(m.regs[0] as int - 1), Named(m, 9);
    && n.regs[0] == wc && n.mem == m.mem && n.running == m.running
    && (forall i :: 8 <= i < 136 && (i < 128 || wc < 15) ==> n.regs[i] == m.regs[i])
    && (wc >= 15 ==>
          && 32 <= fp <= |m.mem|
          && forall k :: 0 <= k < 8 ==> Named(n, 8 + k) == BigEndian(m.mem, fp - 32 + 4 * k))
  }

  /** The words of the frame are in memory. */
  predicate CanLeave(m: Machine) {
    Low(m.regs[0] as int - 1) >= 15 ==> 32 <= Named(m, 9) <= |m.mem|
  }

  function BelowWindow(m: Machine): int {
    Named(m, 9) - if Low(m.regs[0] as int - 1) >= 15 then 32 else 0
  }

  lemma LoadedLocals(n: Machine, mem: Bytes, a: Word)
    requires a + 32 <= |mem| && Locals(n) == SavedWindow(mem, a)
    ensures forall k :: 0 <= k < 8 ==> Named(n, 8 + k) == BigEndian(mem, a + 4 * k)
  {
    SavedLocals(n, mem, a);
  }

  lemma LeaveIs(m: Machine)
    requires CanLeave(m)
    ensures var s := Leave(m);
            && s.out == Done(UpdateNone) && Left(m, s.m)
            && s.m.regs[1] == Named(m, 8) && s.m.regs[2] == BelowWindow(m)
            && (forall i :: 3 <= i < 8 ==> s.m.regs[i] == m.regs[i])
  {
    hide DecreaseWindow, SavedWindow, BigEndian, Named, Get, Set, Locals;
    GetIs(m, LR);
    GetIs(m, FP);
    LeavesFrom(m);
    var at := Set(Set(m, PC, Get(m, LR)), SP, Get(m, FP));
    DecreaseFits(at);
    var n := DecreaseWindow(at).m;
    if Low(m.regs[0] as int - 1) >= 15 {
      LoadedLocals(n, m.mem, Named(m, 9) - 32);
    }
  }

  lemma LeavesFrom(m: Machine)
    ensures var at := Set(Set(m, PC, Get(m, LR)), SP, Get(m, FP));
            && at == m.(regs := m.regs[1 := Get(m, LR)][2 := Get(m, FP)])
            && Leave(m) == DecreaseWindow(at)
  {
    hide DecreaseWindow;
  }

  lemma NextLeaves(m: Machine, alu: Alu, code: Byte, first: Reg, second: Reg, data: HalfWord)
    requires m.running && Encoded(m, code, first, second, data) && Leave(m).out == Done(UpdateNone)
    ensures var left := Leave(m).m;
            && (code == 0x54 ==> Next(m, alu) == Step(left.(regs := Onward(left.regs)), Done(UpdateNone)))
            && (code == 0x55 && PopGlobals(left).out == Done(UpdateNone) ==> Next(m, alu) == PopGlobals(left))
  {
    hide Encoded, Leave, PopGlobals, Next, Perform;
    NextIs(m, alu, code, first, second, data);
    Dispatch(m, alu, Instruction(code, first, second, data));
    AdvanceIs(Leave(m).m);
  }

  /** `ret` goes on behind the call. */
  lemma RetMeans(m: Machine, alu: Alu, first: Reg, second: Reg, data: HalfWord)
    requires m.running && Encoded(m, 0x54, first, second, data) && CanLeave(m)
    ensures var n := Next(m, alu).m;
            && Next(m, alu).out == Done(UpdateNone) && Left(m, n)
            && n.regs[1] == Low(Named(m, 8) as int + 4) && n.regs[2] == BelowWindow(m)
            && (forall i :: 3 <= i < 8 ==> n.regs[i] == m.regs[i])
  {
    hide Encoded, Leave, BigEndian, Named, Left, BelowWindow, CanLeave, Next;
    LeaveIs(m);
    NextLeaves(m, alu, 0x54, first, second, data);
    var left := Leave(m).m;
    LeftStays(m, left, left.(regs := Onward(left.regs)));
  }

  /** `reti` goes on where the interrupt said, with IP and G0 to G3 from the five words below. */
  lemma RetiMeans(m: Machine, alu: Alu, first: Reg, second: Reg, data: HalfWord)
    requires m.running && Encoded(m, 0x55, first, second, data) && CanLeave(m) && 20 <= BelowWindow(m) <= |m.mem|
    ensures var n, sp := Next(m, alu).m, BelowWindow(m) - 20;
            && Next(m, alu).out == Done(UpdateNone) && Left(m, n)
            && n.regs[1] == Named(m, 8) && n.regs[2] == sp
            && (forall k :: 0 <= k < 5 ==> n.regs[3 + k] == BigEndian(m.mem, sp + 4 * k))
  {
    hide Encoded, Leave, PopGlobals, GlobalsAt, BigEndian, Named, Left, BelowWindow, CanLeave, SavedGlobals, Next;
    LeaveIs(m);
    NextLeaves(m, alu, 0x55, first, second, data);
    var left := Leave(m).m;
    LeftMemory(m, left);
    PopGlobalsFits(left);
    var n := PopGlobals(left).m;
    LeftStays(m, left, n);
    GlobalsBack(n, m.mem, BelowWindow(m) - 20);
  }

  lemma LeftMemory(m: Machine, n: Machine)
    requires Left(m, n)
    ensures n.mem == m.mem && n.running == m.running
  {
  }

  lemma GlobalsBack(n: Machine, mem: Bytes, a: Word)
    requires a + 20 <= |mem| && SavedGlobals(n) == GlobalsAt(mem, a)
    ensures forall k :: 0 <= k < 5 ==> n.regs[3 + k] == BigEndian(mem, a + 4 * k)
  {
    hide WordAt, BigEndian;
    forall k | 0 <= k < 5
      ensures n.regs[3 + k] == BigEndian(mem, a + 4 * k)
    {
      assert SavedGlobals(n)[k] == n.regs[3 + k] && GlobalsAt(mem, a)[k] == WordAt(mem, a + 4 * k);
      WordIs(mem, a + 4 * k);
    }
  }

  /** What only changes globals has left the frame as well. */
  lemma LeftStays(m: Machine, left: Machine, n: Machine)
    requires Left(m, left) && n.mem == left.mem && n.running == left.running && n.regs[0] == left.regs[0]
    requires forall i :: 8 <= i < 136 ==> n.regs[i] == left.regs[i]
    ensures Left(m, n)
  {
    hide BigEndian;
  }

  // ----- Everything else

  /** The arithmetic, logic, sign, immediate and branch instructions. */
  predicate Computing(code: Byte) {
    Known(code) && (code >= 0x60 || code == 0x12 || 0x2c <= code <= 0x2e || 0x40 <= code <= 0x4d)
  }

  /** A result goes to the first register; a branch goes to PC plus its offset, which must exist even if
      it is not taken; a division by zero hands over PC and the dividend. */
  lemma ComputeMeans(m: Machine, alu: Alu, code: Byte, first: Reg, second: Reg, data: HalfWord)
    requires m.running && Encoded(m, code, first, second, data) && Computing(code)
    ensures var s, target := Next(m, alu), Displaced(m.regs[1], data);
            match alu(m.regs, Instruction(code, first, second, data))
            case Write(w) => s == Step(m.(regs := Onward(m.regs[Place(m.regs, first) := w])), Done(UpdateNone))
            case BadRegister(a) => HandsOver(m, s, 3, m.regs[1], a)
            case DivisionByZero(dividend) => Deliverable(m, 4) ==> HandsOver(m, s, 4, m.regs[1], dividend)
            case Branch(taken) =>
              if target + 4 > |m.mem| then HandsOver(m, s, 3, m.regs[1], target)
              else s == Step(m.(regs := if taken then m.regs[1 := target] else Onward(m.regs)), Done(UpdateNone))
  {
    hide Encoded, HandsOver, Interrupt, Computing, Deliverable, Perform;
    NextIs(m, alu, code, first, second, data);
    Dispatch(m, alu, Instruction(code, first, second, data));
    DisplacedIs(m.regs[1], data);
    var inst := Instruction(code, first, second, data);
    match alu(m.regs, inst) {
      case Write(w) => PlaceIs(m.regs, first);
      case BadRegister(a) => FaultIs(m, Perform(m, alu, inst), code, a);
      case DivisionByZero(dividend) =>
        Delivered(m, 4, m.regs[1], dividend);
        if Deliverable(m, 4) {
          HandedOn(m, Interrupt(m, 4, m.regs[1], dividend), 4, m.regs[1], dividend);
        }
      case Branch(taken) =>
        var target := Displaced(m.regs[1], data);
        if target + 4 > |m.mem| {
          FaultIs(m, Perform(m, alu, inst), code, target);
        }
    }
  }

  // ----- Several instructions

  /** Executing some instructions and then others is executing all of them, unless the first end in an
      error, which then is how all of them end; one is `next`. */
  lemma {:induction false} ExecuteSplit(m: Machine, alu: Alu, a: nat, b: nat)
    ensures var s := Execute(m, alu, a).0;
            Execute(m, alu, a + b).0 == if s.out.Done? then Execute(s.m, alu, b).0 else s
    ensures m.running && a == 1 ==>
              var s := Next(m, alu);
              Execute(m, alu, a).0 == if s.out.Done? then Step(s.m, Done(UpdateNone)) else s
    decreases a
  {
    hide Next;
    if a == 0 {
    } else if !m.running {
    } else {
      var s := Next(m, alu);
      if s.out.Done? {
        ExecuteSplit(s.m, alu, a - 1, b);
        assert a == 1 ==> Execute(s.m, alu, 0).0 == Step(s.m, Done(UpdateNone));
      }
    }
  }
}
