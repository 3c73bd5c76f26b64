/** What each CPU operation does to the whole state, as functions: the specification that the
    methods of class `Cpu` are proved against and that the theorems are about.
    A fault keeps the writes made before it, exactly as an exception leaves them. */
module MachineModel {
  import opened Words
  import opened MemoryModel

  const GLOBAL_REGISTERS: nat := 8
  const REGISTERS_PER_WINDOW: nat := 8
  const REGISTER_WINDOWS: nat := 16
  const TOTAL_REGISTERS: nat := 136

  type Reg = r: nat | r < 16

  const WC: Reg := 0
  const PC: Reg := 1
  const SP: Reg := 2
  const IP: Reg := 3
  const G0: Reg := 4
  const G1: Reg := 5
  const G2: Reg := 6
  const G3: Reg := 7
  const LR: Reg := 8
  const FP: Reg := 9

  const INTERRUPT_TIMER: Byte := 0
  const INTERRUPT_SOFTWARE: Byte := 1
  const INTERRUPT_INSTRUCTION: Byte := 2
  const INTERRUPT_MEMORY: Byte := 3
  const INTERRUPT_DIVISION: Byte := 4
  const INTERRUPT_WORLDACTION: Byte := 5
  const INTERRUPT_WORLDEVENT: Byte := 6

  /** The register memory as words: at least all windows. */
  type Registers = r: seq<Word> | |r| >= TOTAL_REGISTERS witness seq(TOTAL_REGISTERS, _ => 0)

  datatype Machine = Machine(regs: Registers, mem: Bytes, running: bool)

  datatype Instruction = Instruction(code: Byte, first: Reg, second: Reg, data: HalfWord)

  datatype Update = UpdateNone | UpdatePC | UpdateInterrupt | UpdateStop

  /** How an operation ends: normally, or with one of the exceptions. */
  datatype Outcome = Done(update: Update) | MemoryError(address: Word) | CodeError | Stopped

  datatype Step = Step(m: Machine, out: Outcome)

  // ----- Register windows

  /** The window the counter selects: counters past the last window all use the last one. */
  function Slot(wc: Word): (s: nat)
    ensures s < REGISTER_WINDOWS
  {
    if wc >= REGISTER_WINDOWS then REGISTER_WINDOWS - 1 else wc
  }

  function Index(regs: Registers, r: Reg): (i: nat)
    ensures i < TOTAL_REGISTERS
  {
    if r < GLOBAL_REGISTERS then r else r + Slot(regs[WC]) * 8
  }

  function Get(m: Machine, r: Reg): Word {
    m.regs[Index(m.regs, r)]
  }

  function Set(m: Machine, r: Reg, w: Word): Machine {
    m.(regs := m.regs[Index(m.regs, r) := w])
  }

  /** A register numbered by the 16-bit data field: the number is cut to 8 bits, the window
      offset is added in 8 bits, and what is past the register memory faults. */
  function GetByData(m: Machine, data: HalfWord): Access<Word> {
    var r := data % 0x100;
    var i := if r >= GLOBAL_REGISTERS then (r + Slot(m.regs[WC]) * 8) % 0x100 else r;
    if i < |m.regs| then Value(m.regs[i]) else OutOfRange(4 * i)
  }

  /** The eight registers of window `s`. */
  function Window(regs: Registers, s: nat): (w: seq<Word>)
    requires s < REGISTER_WINDOWS
    ensures |w| == REGISTERS_PER_WINDOW
  {
    regs[GLOBAL_REGISTERS + s * 8..][..REGISTERS_PER_WINDOW]
  }

  function Locals(m: Machine): (w: seq<Word>)
    ensures |w| == REGISTERS_PER_WINDOW
  {
    Window(m.regs, Slot(m.regs[WC]))
  }

  // ----- The stack

  /** Words stored upwards from `sp`; the new stack pointer, or the address that does not exist. */
  function PushAll(mem: Bytes, sp: Word, ws: seq<Word>): (Bytes, Access<Word>)
    decreases |ws|
  {
    if ws == [] then (mem, Value(sp))
    else if !InRange(mem, sp, 4) then (mem, OutOfRange(sp))
    else PushAll(PutWord(mem, sp, ws[0]), Plus(sp, 4), ws[1..])
  }

  /** Registers loaded downwards from `sp`; the stack pointer is only written at the end. */
  function PopAll(m: Machine, sp: Word, rs: seq<Reg>): Step
    decreases |rs|
  {
    if rs == [] then Step(Set(m, SP, sp), Done(UpdateNone))
    else
      var top := Plus(sp, -4);
      if !InRange(m.mem, top, 4) then Step(m, MemoryError(top))
      else PopAll(Set(m, rs[0], WordAt(m.mem, top)), top, rs[1..])
  }

  const LOCALS_DOWNWARDS: seq<Reg> := [15, 14, 13, 12, 11, 10, 9, 8]
  const GLOBALS_DOWNWARDS: seq<Reg> := [7, 6, 5, 4, 3]

  function PushLocals(m: Machine): Step {
    match PushAll(m.mem, m.regs[SP], Locals(m))
    case (mem, Value(sp)) => Step(Set(m.(mem := mem), SP, sp), Done(UpdateNone))
    case (mem, OutOfRange(a)) => Step(m.(mem := mem), MemoryError(a))
  }

  function PopLocals(m: Machine): Step {
    PopAll(m, m.regs[SP], LOCALS_DOWNWARDS)
  }

  function PopGlobals(m: Machine): Step {
    PopAll(m, m.regs[SP], GLOBALS_DOWNWARDS)
  }

  function IncreaseWindow(m: Machine): Step {
    var wc := m.regs[WC];
    var s := if wc >= REGISTER_WINDOWS - 1 then PushLocals(m) else Step(m, Done(UpdateNone));
    if s.out.Done? then Step(Set(s.m, WC, Plus(wc, 1)), s.out) else s
  }

  function DecreaseWindow(m: Machine): Step {
    var wc := Plus(m.regs[WC], -1);
    var m1 := Set(m, WC, wc);
    if wc >= REGISTER_WINDOWS - 1 then PopLocals(m1) else Step(m1, Done(UpdateNone))
  }

  // ----- Functions

  /** `call` and `callr`, once the target is known. */
  function CallTo(m: Machine, address: Word): Step {
    if !InRange(m.mem, address, 4) then Step(m, MemoryError(address))
    else
      var s := IncreaseWindow(m);
      if !s.out.Done? then s
      else
        var m1 := Set(s.m, LR, s.m.regs[PC]);
        var m2 := Set(m1, FP, m1.regs[SP]);
        Step(Set(m2, PC, address), Done(UpdateNone))
  }

  function Call(m: Machine, inst: Instruction): Step {
    CallTo(m, Plus(m.regs[PC], SignedOffset(inst.data)))
  }

  function Callr(m: Machine, inst: Instruction): Step {
    CallTo(m, Get(m, inst.first))
  }

  /** The common start of `ret` and `reti`. */
  function Leave(m: Machine): Step {
    DecreaseWindow(Set(Set(m, PC, Get(m, LR)), SP, Get(m, FP)))
  }

  function Ret(m: Machine): Step {
    var s := Leave(m);
    if s.out.Done? then Step(s.m, Done(UpdatePC)) else s
  }

  function Reti(m: Machine): Step {
    var s := Leave(m);
    if s.out.Done? then PopGlobals(s.m) else s
  }

  // ----- Interrupts

  predicate KnownInterrupt(code: Byte) {
    code <= INTERRUPT_WORLDEVENT
  }

  predicate ThrownByInstruction(code: Byte) {
    code != INTERRUPT_TIMER && code != INTERRUPT_WORLDEVENT
  }

  function AdvancePC(m: Machine): Machine {
    Set(m, PC, Plus(m.regs[PC], 4))
  }

  /** Where the handler of an interrupt is read from. */
  function Vector(m: Machine, code: Byte): Word {
    Plus(m.regs[IP], 4 * code)
  }

  /** `interrupt_enabled`. */
  function Enabled(m: Machine, code: Byte): Access<bool> {
    if m.regs[IP] == 0 then Value(false)
    else if !InRange(m.mem, Vector(m, code), 4) then OutOfRange(Vector(m, code))
    else Value(WordAt(m.mem, Vector(m, code)) != 0)
  }

  /** The globals an interrupt saves, lowest address first. */
  function SavedGlobals(m: Machine): seq<Word> {
    [m.regs[IP], m.regs[G0], m.regs[G1], m.regs[G2], m.regs[G3]]
  }

  /** The frame of an enabled interrupt: globals, then the locals past the last window. */
  function EnterHandler(m: Machine, handler: Word, code: Byte, g1: Word, g2: Word): Step {
    match PushAll(m.mem, m.regs[SP], SavedGlobals(m))
    case (mem, OutOfRange(a)) => Step(m.(mem := mem), MemoryError(a))
    case (mem, Value(sp)) =>
      var s := IncreaseWindow(Set(m.(mem := mem), SP, sp));
      if !s.out.Done? then s
      else
        var m1 := Set(s.m, LR, s.m.regs[PC]);
        var m2 := Set(m1, FP, m1.regs[SP]);
        var m3 := Set(Set(Set(m2, G0, code), G1, g1), G2, g2);
        Step(Set(m3, PC, handler), Done(UpdateNone))
  }

  function Interrupt(m: Machine, code: Byte, g1: Word, g2: Word): Step {
    if !KnownInterrupt(code) then Step(m, CodeError)
    else
      var m1 := if ThrownByInstruction(code) then AdvancePC(m) else m;
      match Enabled(m1, code)
      case OutOfRange(a) => Step(m1, MemoryError(a))
      case Value(enabled) =>
        if !enabled then Step(m1, Done(UpdateNone))
        else EnterHandler(m1, WordAt(m1.mem, Vector(m1, code)), code, g1, g2)
  }

  // ----- The instruction set

  datatype Width = FullWord | Half | Quarter

  /** PC-relative, base plus register, base plus offset. */
  datatype Mode = Relative | Indexed | Offset

  datatype Operation =
    | OpStop | OpRestart | OpMove | OpPush | OpPop
    | OpLoad(width: Width, mode: Mode)
    | OpStore(width: Width, mode: Mode)
    | OpCall | OpCallr | OpInt | OpRet | OpReti
    | OpCompute
    | OpUnknown

  /** What an arithmetic, logic, shift, sign, immediate or branch instruction makes of the
      registers: one value to write, a branch, a division by zero, or a register that does
      not exist. None of them touches memory beyond checking a branch target. */
  datatype Effect = Write(value: Word) | Branch(taken: bool) | DivisionByZero(dividend: Word) | BadRegister(address: Word)

  type Alu = (Registers, Instruction) -> Effect

  function OperationOf(code: Byte): Operation {
    match code
    case 0x00 => OpStop
    case 0x01 => OpRestart
    case 0x10 => OpMove
    case 0x18 => OpPush
    case 0x1a => OpPop
    case 0x20 => OpLoad(FullWord, Relative)
    case 0x22 => OpLoad(FullWord, Indexed)
    case 0x23 => OpLoad(FullWord, Offset)
    case 0x24 => OpLoad(Half, Relative)
    case 0x26 => OpLoad(Half, Indexed)
    case 0x27 => OpLoad(Half, Offset)
    case 0x28 => OpLoad(Quarter, Relative)
    case 0x2a => OpLoad(Quarter, Indexed)
    case 0x2b => OpLoad(Quarter, Offset)
    case 0x30 => OpStore(FullWord, Relative)
    case 0x32 => OpStore(FullWord, Indexed)
    case 0x33 => OpStore(FullWord, Offset)
    case 0x34 => OpStore(Half, Relative)
    case 0x36 => OpStore(Half, Indexed)
    case 0x37 => OpStore(Half, Offset)
    case 0x38 => OpStore(Quarter, Relative)
    case 0x3a => OpStore(Quarter, Indexed)
    case 0x3b => OpStore(Quarter, Offset)
    case 0x50 => OpCall
    case 0x51 => OpCallr
    case 0x52 => OpInt
    case 0x54 => OpRet
    case 0x55 => OpReti
    case _ => if Computes(code) then OpCompute else OpUnknown
  }

  predicate Computes(code: Byte) {
    || code == 0x12 || 0x2c <= code <= 0x2e
    || code == 0x40 || 0x42 <= code <= 0x4d
    || 0x60 <= code <= 0x6d || code == 0x70 || code == 0x71
    || code == 0x80 || 0x88 <= code <= 0x8d || 0x90 <= code <= 0x99
  }

  /** The four bytes of an instruction as they lie in memory. */
  function Decode(b0: Byte, b1: Byte, b2: Byte, b3: Byte): Instruction {
    Instruction(b0, b1 / 0x10, b1 % 0x10, JoinHalf(b2, b3))
  }

  /** The address a load or a store uses: `base` is the source register of a load and the
      first register of a store. */
  function EffectiveAddress(m: Machine, mode: Mode, base: Reg, data: HalfWord): Access<Word> {
    match mode
    case Relative => Value(Plus(m.regs[PC], SignedOffset(data)))
    case Offset => Value(Plus(Get(m, base), SignedOffset(data)))
    case Indexed =>
      match GetByData(m, data)
      case OutOfRange(a) => OutOfRange(a)
      case Value(w) => Value(Plus(Get(m, base), w))
  }

  function Bytewidth(width: Width): nat {
    match width case FullWord => 4 case Half => 2 case Quarter => 1
  }

  function LoadAt(mem: Bytes, width: Width, a: Word): Word
    requires InRange(mem, a, Bytewidth(width))
  {
    match width case FullWord => WordAt(mem, a) case Half => HalfAt(mem, a) case Quarter => mem[a]
  }

  /** A store cuts the value to its width. */
  function StoreAt(mem: Bytes, width: Width, a: Word, w: Word): (r: Bytes)
    requires InRange(mem, a, Bytewidth(width))
    ensures |r| == |mem|
  {
    match width
    case FullWord => PutWord(mem, a, w)
    case Half => PutHalf(mem, a, w % 0x1_0000)
    case Quarter => mem[a := w % 0x100]
  }

  function Load(m: Machine, width: Width, mode: Mode, inst: Instruction): Step {
    match EffectiveAddress(m, mode, inst.second, inst.data)
    case OutOfRange(a) => Step(m, MemoryError(a))
    case Value(a) =>
      if !InRange(m.mem, a, Bytewidth(width)) then Step(m, MemoryError(a))
      else Step(Set(m, inst.first, LoadAt(m.mem, width, a)), Done(UpdatePC))
  }

  function Store(m: Machine, width: Width, mode: Mode, inst: Instruction): Step {
    match EffectiveAddress(m, mode, inst.first, inst.data)
    case OutOfRange(a) => Step(m, MemoryError(a))
    case Value(a) =>
      if !InRange(m.mem, a, Bytewidth(width)) then Step(m, MemoryError(a))
      else
        var source := if mode.Relative? then inst.first else inst.second;
        Step(m.(mem := StoreAt(m.mem, width, a, Get(m, source))), Done(UpdatePC))
  }

  function Push(m: Machine, inst: Instruction): Step {
    if !InRange(m.mem, m.regs[SP], 4) then Step(m, MemoryError(m.regs[SP]))
    else
      var m1 := m.(mem := PutWord(m.mem, m.regs[SP], Get(m, inst.first)));
      Step(Set(m1, SP, Plus(m1.regs[SP], 4)), Done(UpdatePC))
  }

  /** The stack pointer has already moved when the load faults. */
  function Pop(m: Machine, inst: Instruction): Step {
    var m1 := Set(m, SP, Plus(m.regs[SP], -4));
    var sp := m1.regs[SP];
    if !InRange(m1.mem, sp, 4) then Step(m1, MemoryError(sp))
    else Step(Set(m1, inst.first, WordAt(m1.mem, sp)), Done(UpdatePC))
  }

  /** `restart` zeroes registers 0 to 15 in order, so the window that is cleared is window 0. */
  function Restart(m: Machine, i: nat): Machine
    requires i <= 16
    decreases 16 - i
  {
    if i == 16 then m else Restart(Set(m, i, 0), i + 1)
  }

  function Compute(m: Machine, alu: Alu, inst: Instruction): Step {
    match alu(m.regs, inst)
    case Write(w) => Step(Set(m, inst.first, w), Done(UpdatePC))
    case BadRegister(a) => Step(m, MemoryError(a))
    case DivisionByZero(dividend) =>
      var s := Interrupt(m, INTERRUPT_DIVISION, m.regs[PC], dividend);
      if s.out.Done? then Step(s.m, Done(UpdateInterrupt)) else s
    case Branch(taken) =>
      var target := Plus(m.regs[PC], SignedOffset(inst.data));
      if !InRange(m.mem, target, 4) then Step(m, MemoryError(target))
      else if taken then Step(Set(m, PC, target), Done(UpdateNone))
      else Step(m, Done(UpdatePC))
  }

  function SoftwareInterrupt(m: Machine, inst: Instruction): Step {
    var s := Interrupt(m, INTERRUPT_SOFTWARE, inst.data, 0);
    if s.out.Done? then Step(s.m, Done(UpdateInterrupt)) else s
  }

  function Perform(m: Machine, alu: Alu, inst: Instruction): Step {
    match OperationOf(inst.code)
    case OpUnknown => Step(m, CodeError)
    case OpStop => Step(m, Done(UpdateStop))
    case OpRestart => Step(Restart(m, 0), Done(UpdateNone))
    case OpMove => Step(Set(m, inst.first, Get(m, inst.second)), Done(UpdatePC))
    case OpPush => Push(m, inst)
    case OpPop => Pop(m, inst)
    case OpLoad(width, mode) => Load(m, width, mode, inst)
    case OpStore(width, mode) => Store(m, width, mode, inst)
    case OpCall => Call(m, inst)
    case OpCallr => Callr(m, inst)
    case OpInt => SoftwareInterrupt(m, inst)
    case OpRet => Ret(m)
    case OpReti => Reti(m)
    case OpCompute => Compute(m, alu, inst)
  }

  function Fetch(m: Machine): Instruction
    requires InRange(m.mem, m.regs[PC], 4)
  {
    var pc := m.regs[PC];
    Decode(m.mem[pc], m.mem[pc + 1], m.mem[pc + 2], m.mem[pc + 3])
  }

  /** What `next` does with the way an operation ended. */
  function Finish(s: Step, code: Byte): Step {
    match s.out
    case Done(UpdatePC) => Step(AdvancePC(s.m), Done(UpdateNone))
    case Done(UpdateStop) => Step(s.m.(running := false), Done(UpdateNone))
    case Done(_) => Step(s.m, Done(UpdateNone))
    case CodeError => Interrupt(s.m, INTERRUPT_INSTRUCTION, s.m.regs[PC], code)
    case MemoryError(a) => Interrupt(s.m, INTERRUPT_MEMORY, s.m.regs[PC], a)
    case Stopped => s
  }

  function Next(m: Machine, alu: Alu): Step {
    if !m.running then Step(m, Stopped)
    else if !InRange(m.mem, m.regs[PC], 4) then Finish(Step(m, MemoryError(m.regs[PC])), 0)
    else Finish(Perform(m, alu, Fetch(m)), Fetch(m).code)
  }

  /** `execute(cycles)`: the state, the way it ended, and the cycles left. */
  function Execute(m: Machine, alu: Alu, cycles: nat): (Step, nat)
    decreases cycles
  {
    if !m.running || cycles == 0 then (Step(m, Done(UpdateNone)), cycles)
    else
      var s := Next(m, alu);
      if s.out.Done? then Execute(s.m, alu, cycles - 1) else (s, cycles)
  }
}
