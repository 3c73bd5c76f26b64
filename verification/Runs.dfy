/** Whole runs of nested calls and interrupts: whatever happens inside, a return gives the
    caller its frame back, at every depth. */
module NestedRuns {
  import opened Options
  import opened Words
  import opened MemoryModel
  import opened MachineModel
  import opened StackLemmas
  import opened WindowStack

  /** How a frame is entered: `call`/`callr` with their target, or an interrupt. */
  datatype Entry = ByCall(address: Word) | ByInterrupt(code: Byte, g1: Word, g2: Word)

  /** One thing a function body does: any step that keeps to its own frame, or a whole frame
      that is entered, runs a body and returns. */
  datatype Act = Local(next: Machine) | Frame(entry: Entry, body: seq<Act>)

  /** The rules a body follows: the counter, its LR and FP, the windows below its own and the
      memory below its FP stay, and its stack pointer does not go below its FP. */
  predicate KeepsFrame(m: Machine, n: Machine) {
    && n.regs[WC] == m.regs[WC]
    && Get(n, LR) == Get(m, LR) && Get(n, FP) == Get(m, FP)
    && Get(n, FP) <= n.regs[SP]
    && SameBelow(m.mem, n.mem, Get(m, FP))
    && SameFile(m.regs, n.regs, Resident(m.regs[WC]))
  }

  /** The stack is at or above the frame, and the saved windows fit below it. */
  predicate OnFrame(m: Machine) {
    && Get(m, FP) <= m.regs[SP]
    && 32 * Depth(m.regs[WC]) <= Get(m, FP)
  }

  function Enter(m: Machine, entry: Entry): Option<Machine> {
    match entry
    case ByCall(address) =>
      var s := CallTo(m, address);
      if s.out.Done? then Some(s.m) else None
    case ByInterrupt(code, g1, g2) =>
      var s := Interrupt(m, code, g1, g2);
      if s.out.Done? && Takes(m, code) then Some(s.m) else None
  }

  /** The interrupt is known and enabled, so that it pushes a frame. */
  predicate Takes(m: Machine, code: Byte) {
    KnownInterrupt(code) && Enabled(m, code) == Value(true)
  }

  /** `ret` followed by the PC update of `next`, or `reti`. */
  function Return(m: Machine, entry: Entry): Option<Machine> {
    match entry
    case ByCall(_) =>
      var s := Ret(m);
      if s.out.Done? then Some(AdvancePC(s.m)) else None
    case ByInterrupt(_, _, _) =>
      var s := Reti(m);
      if s.out.Done? then Some(s.m) else None
  }

  /** The state after a run, if every step of it is possible. */
  function Run(m: Machine, acts: seq<Act>): Option<Machine>
    decreases acts, 0
  {
    if acts == [] then Some(m)
    else
      match acts[0]
      case Local(next) => if KeepsFrame(m, next) then Run(next, acts[1..]) else None
      case Frame(entry, body) =>
        match RunFrame(m, entry, body)
        case None => None
        case Some(after) => Run(after, acts[1..])
  }

  function RunFrame(m: Machine, entry: Entry, body: seq<Act>): Option<Machine>
    decreases body, 1
  {
    match Enter(m, entry)
    case None => None
    case Some(m1) =>
      match Run(m1, body)
      case None => None
      case Some(m2) => Return(m2, entry)
  }

  /** Where the program goes on after the frame. */
  function ResumePC(m: Machine, entry: Entry): Word {
    match entry
    case ByCall(_) => Plus(m.regs[PC], 4)
    case ByInterrupt(code, _, _) => if ThrownByInstruction(code) then Plus(m.regs[PC], 4) else m.regs[PC]
  }

  /** What the interrupted or calling code finds when it goes on. */
  predicate Restored(m: Machine, n: Machine, entry: Entry) {
    && n.regs[WC] == m.regs[WC]
    && n.regs[SP] == m.regs[SP]
    && Locals(n) == Locals(m)
    && SameBelow(m.mem, n.mem, m.regs[SP])
    && SameFile(m.regs, n.regs, Resident(m.regs[WC]))
    && n.regs[PC] == ResumePC(m, entry)
    && (entry.ByInterrupt? ==> SavedGlobals(n) == SavedGlobals(m))
  }

  // ----- Composition

  lemma KeepsFrameTrans(a: Machine, b: Machine, c: Machine)
    requires KeepsFrame(a, b) && KeepsFrame(b, c)
    ensures KeepsFrame(a, c)
  {
  }

  lemma KeepsOnFrame(m: Machine, n: Machine)
    requires OnFrame(m) && KeepsFrame(m, n)
    ensures OnFrame(n)
  {
  }

  lemma RestoredKeepsFrame(m: Machine, n: Machine, entry: Entry)
    requires OnFrame(m) && Restored(m, n, entry)
    ensures KeepsFrame(m, n)
  {
    LocalsAre(m);
    LocalsAre(n);
    assert Get(n, LR) == Locals(n)[LR - GLOBAL_REGISTERS] && Get(m, LR) == Locals(m)[LR - GLOBAL_REGISTERS];
    assert Get(n, FP) == Locals(n)[FP - GLOBAL_REGISTERS] && Get(m, FP) == Locals(m)[FP - GLOBAL_REGISTERS];
  }

  /** A frame that has just been entered is on its own frame. */
  lemma EnteredOnFrame(m: Machine, m': Machine, base: Word)
    requires OnFrame(m) && m.regs[SP] <= base
    requires Entered(m, m', base)
    ensures m.regs[WC] + 1 < WORD_LIMIT && OnFrame(m')
  {
    hide Get, SavedWindow, Locals;
    assert m.regs[WC] + 1 < WORD_LIMIT;
  }

  /** The heart of the matter: entering, running a body that keeps its frame, and leaving gives
      the window back, from the register file or from the stack. */
  lemma LeavingRestores(m: Machine, m1: Machine, m2: Machine, base: Word)
    requires OnFrame(m) && m.regs[SP] <= base
    requires Entered(m, m1, base) && KeepsFrame(m1, m2)
    ensures var s := Leave(m2);
            && s.out == Done(UpdateNone) && s.m.mem == m2.mem
            && s.m.regs[WC] == m.regs[WC] && s.m.regs[SP] == base && s.m.regs[PC] == m.regs[PC]
            && Locals(s.m) == Locals(m)
            && SavedGlobals(s.m) == SavedGlobals(m2)
            && SameFile(m.regs, s.m.regs, Resident(m.regs[WC]))
  {
    hide Leave, SavedWindow, Get;
    EnteredOnFrame(m, m1, base);
    LeaveFits(m2);
    var m3 := Leave(m2).m;
    if Spills(m.regs[WC]) {
      SameSavedWindow(m1.mem, m2.mem, base);
    } else {
      assert Resident(m1.regs[WC]) == m.regs[WC] + 1;
      assert Locals(m3) == Window(m3.regs, m.regs[WC]) == Window(m.regs, m.regs[WC]);
    }
  }

  lemma CounterOnFrame(m: Machine)
    requires OnFrame(m)
    ensures m.regs[WC] + 1 < WORD_LIMIT
  {
    hide Get;
  }

  /** A call that gets in starts its body on its own frame; when the body keeps it, the return
      succeeds and the caller goes on after its call with everything it had. */
  lemma CallRestores(m: Machine, address: Word, m2: Machine)
    requires OnFrame(m) && CallTo(m, address).out.Done?
    ensures OnFrame(CallTo(m, address).m)
    ensures KeepsFrame(CallTo(m, address).m, m2) ==>
              var r := Return(m2, ByCall(address));
              r.Some? && Restored(m, r.value, ByCall(address))
  {
    hide CallTo, Leave, SavedWindow, Get, KeepsFrame, OnFrame;
    var m1 := CallTo(m, address).m;
    CounterOnFrame(m);
    CallEnters(m, address);
    EnteredOnFrame(m, m1, m.regs[SP]);
    if KeepsFrame(m1, m2) {
      LeavingRestores(m, m1, m2, m.regs[SP]);
      AdvanceKeeps(Leave(m2).m);
      KeepsBelow(m, m1, m2, m.regs[SP]);
    }
  }

  /** The PC is a global register: moving it changes no window. */
  lemma AdvanceKeeps(m: Machine)
    ensures var n := AdvancePC(m);
            && Locals(n) == Locals(m) && n.mem == m.mem && WindowsKept(m, n)
            && n.regs[PC] == Plus(m.regs[PC], 4) && SavedGlobals(n) == SavedGlobals(m)
            && n.regs[WC] == m.regs[WC] && n.regs[SP] == m.regs[SP] && Get(n, FP) == Get(m, FP)
  {
  }

  /** What is below the stack pointer of the caller is below the frame of the callee. */
  lemma KeepsBelow(m: Machine, m1: Machine, m2: Machine, base: Word)
    requires m.regs[SP] <= base && Entered(m, m1, base) && KeepsFrame(m1, m2)
    ensures SameBelow(m.mem, m2.mem, m.regs[SP])
    ensures SameBelow(m1.mem, m2.mem, base)
  {
    hide Get, SavedWindow;
  }

  /** The same for an interrupt that is taken: it also puts back IP and G0 to G3, and goes on
      at the instruction that had not run yet. */
  lemma InterruptRestores(m: Machine, code: Byte, g1: Word, g2: Word, m2: Machine)
    requires OnFrame(m) && Takes(m, code) && Interrupt(m, code, g1, g2).out.Done?
    ensures OnFrame(Interrupt(m, code, g1, g2).m)
    ensures KeepsFrame(Interrupt(m, code, g1, g2).m, m2) ==>
              var r := Return(m2, ByInterrupt(code, g1, g2));
              r.Some? && Restored(m, r.value, ByInterrupt(code, g1, g2))
  {
    hide EnterHandler, Reti, SavedWindow, Get, KeepsFrame, OnFrame, Restored;
    var at := if ThrownByInstruction(code) then AdvancePC(m) else m;
    AdvanceKeeps(m);
    AdvanceOnFrame(m);
    var handler := WordAt(at.mem, Vector(at, code));
    assert Interrupt(m, code, g1, g2) == EnterHandler(at, handler, code, g1, g2);
    HandlerRestores(at, handler, code, g1, g2, m2);
    if KeepsFrame(Interrupt(m, code, g1, g2).m, m2) {
      RestoredFromAdvanced(m, at, Reti(m2).m, code, g1, g2);
    }
  }

  lemma AdvanceOnFrame(m: Machine)
    requires OnFrame(m)
    ensures OnFrame(AdvancePC(m))
  {
  }

  /** `Restored`, seen from the state whose PC is already where to go on. */
  predicate RestoredAt(m: Machine, n: Machine) {
    && n.regs[WC] == m.regs[WC] && n.regs[SP] == m.regs[SP] && n.regs[PC] == m.regs[PC]
    && Locals(n) == Locals(m)
    && SameBelow(m.mem, n.mem, m.regs[SP])
    && SameFile(m.regs, n.regs, Resident(m.regs[WC]))
    && SavedGlobals(n) == SavedGlobals(m)
  }

  lemma RestoredFromAdvanced(m: Machine, at: Machine, n: Machine, code: Byte, g1: Word, g2: Word)
    requires at == if ThrownByInstruction(code) then AdvancePC(m) else m
    requires RestoredAt(at, n)
    ensures Restored(m, n, ByInterrupt(code, g1, g2))
  {
    AdvanceKeeps(m);
  }

  lemma HandlerRestores(m: Machine, handler: Word, code: Byte, g1: Word, g2: Word, m2: Machine)
    requires OnFrame(m) && EnterHandler(m, handler, code, g1, g2).out.Done?
    ensures OnFrame(EnterHandler(m, handler, code, g1, g2).m)
    ensures KeepsFrame(EnterHandler(m, handler, code, g1, g2).m, m2) ==>
              Reti(m2).out.Done? && RestoredAt(m, Reti(m2).m)
  {
    hide EnterHandler, Leave, PopGlobals, SavedWindow, GlobalsAt, Get, KeepsFrame, OnFrame;
    var m1 := EnterHandler(m, handler, code, g1, g2).m;
    var base := m.regs[SP] + GLOBALS_BYTES;
    CounterOnFrame(m);
    HandlerEnters(m, handler, code, g1, g2);
    EnteredOnFrame(m, m1, base);
    if KeepsFrame(m1, m2) {
      LeavingRestores(m, m1, m2, base);
      KeepsBelow(m, m1, m2, base);
      SameGlobalsBelow(m1.mem, m2.mem, m.regs[SP]);
      PopGlobalsFits(Leave(m2).m);
      SameLocals(Leave(m2).m, Reti(m2).m);
    }
  }

  lemma SameGlobalsBelow(mem: Bytes, mem': Bytes, a: Word)
    requires a + GLOBALS_BYTES <= |mem| && SameBelow(mem, mem', a + GLOBALS_BYTES)
    ensures GlobalsAt(mem', a) == GlobalsAt(mem, a)
  {
    SameGlobals(mem, mem', a, GlobalsAt(mem, a));
  }

  lemma SameLocals(m: Machine, n: Machine)
    requires n.regs[WC] == m.regs[WC] && WindowsKept(m, n)
    ensures Locals(n) == Locals(m)
  {
  }

  // ----- Instructions as steps of a body

  predicate WritesFirst(op: Operation) {
    op.OpMove? || op.OpPop? || op.OpLoad?
  }

  /** An instruction other than the ones that change frames, which completes, does not name WC,
      LR or FP as its destination, stores at or above FP and leaves SP at or above FP. */
  predicate Disciplined(m: Machine, alu: Alu, inst: Instruction) {
    var op, s := OperationOf(inst.code), Perform(m, alu, inst);
    && (op.OpStop? || op.OpMove? || op.OpPush? || op.OpPop? || op.OpLoad? || op.OpStore? || op.OpCompute?)
    && s.out.Done? && s.out.update != UpdateInterrupt
    && (WritesFirst(op) || (op.OpCompute? && alu(m.regs, inst).Write?) ==> inst.first !in {WC, LR, FP})
    && (op.OpStore? ==> EffectiveAddress(m, op.mode, inst.first, inst.data).value >= Get(m, FP))
    && Get(m, FP) <= s.m.regs[SP]
  }

  /** A register that is not WC, LR or FP can be written freely, SP above the frame. */
  lemma SetKeepsFrame(m: Machine, r: Reg, w: Word)
    requires r !in {WC, LR, FP} && Get(m, FP) <= (if r == SP then w else m.regs[SP])
    ensures KeepsFrame(m, Set(m, r, w))
  {
    SetGet(m, r, w);
  }

  /** Memory at or above the frame can be written freely. */
  lemma MemoryKeepsFrame(m: Machine, mem: Bytes)
    requires Get(m, FP) <= m.regs[SP] && SameBelow(m.mem, mem, Get(m, FP))
    ensures KeepsFrame(m, m.(mem := mem))
  {
  }

  lemma StoreBelow(mem: Bytes, width: Width, a: Word, w: Word)
    requires InRange(mem, a, Bytewidth(width))
    ensures SameBelow(mem, StoreAt(mem, width, a, w), a)
  {
  }

  /** The stack operations, loads, stores, moves and computations of a body that is disciplined
      are steps that keep its frame. */
  lemma InstructionKeepsFrame(m: Machine, alu: Alu, inst: Instruction)
    requires OnFrame(m) && Disciplined(m, alu, inst)
    ensures KeepsFrame(m, Finish(Perform(m, alu, inst), inst.code).m)
  {
    hide KeepsFrame, Get, WordAt, LoadAt, StoreAt, PutWord, EffectiveAddress;
    var s := Perform(m, alu, inst);
    assert KeepsFrame(m, s.m) by {
      match OperationOf(inst.code)
      case OpStop => OnFrameKeeps(m);
      case OpMove => SetKeepsFrame(m, inst.first, Get(m, inst.second));
      case OpPush =>
        var mem := PutWord(m.mem, m.regs[SP], Get(m, inst.first));
        WordRoundTrip(m.mem, m.regs[SP], Get(m, inst.first));
        MemoryKeepsFrame(m, mem);
        var m1 := m.(mem := mem);
        FrameOfMemory(m, mem);
        SetKeepsFrame(m1, SP, Plus(m.regs[SP], 4));
        KeepsFrameTrans(m, m1, s.m);
      case OpPop => PopKeepsFrame(m, inst);
      case OpLoad(width, mode) =>
        var a := EffectiveAddress(m, mode, inst.second, inst.data).value;
        SetKeepsFrame(m, inst.first, LoadAt(m.mem, width, a));
      case OpStore(width, mode) =>
        var a := EffectiveAddress(m, mode, inst.first, inst.data).value;
        var w := Get(m, if mode.Relative? then inst.first else inst.second);
        StoreBelow(m.mem, width, a, w);
        MemoryKeepsFrame(m, StoreAt(m.mem, width, a, w));
      case OpCompute => ComputeKeepsFrame(m, alu, inst);
      case _ =>
    }
    KeepsOnFrame(m, s.m);
    SetKeepsFrame(s.m, PC, Plus(s.m.regs[PC], 4));
    KeepsFrameTrans(m, s.m, AdvancePC(s.m));
    StopKeepsFrame(m, s.m);
  }

  lemma FrameOfMemory(m: Machine, mem: Bytes)
    ensures Get(m.(mem := mem), FP) == Get(m, FP)
  {
  }

  lemma StopKeepsFrame(m: Machine, n: Machine)
    requires KeepsFrame(m, n)
    ensures KeepsFrame(m, n.(running := false))
  {
  }

  /** The stack pointer goes down one word before the register is written. */
  lemma PopKeepsFrame(m: Machine, inst: Instruction)
    requires OnFrame(m) && Pop(m, inst).out.Done? && inst.first !in {WC, LR, FP}
    requires Get(m, FP) <= Pop(m, inst).m.regs[SP]
    ensures KeepsFrame(m, Pop(m, inst).m)
  {
    hide WordAt;
    SetGet(m, SP, Plus(m.regs[SP], -4));
    var m1 := Set(m, SP, Plus(m.regs[SP], -4));
    SetGet(m1, inst.first, WordAt(m1.mem, m1.regs[SP]));
  }

  lemma ComputeKeepsFrame(m: Machine, alu: Alu, inst: Instruction)
    requires OnFrame(m) && Compute(m, alu, inst).out.Done? && Compute(m, alu, inst).out.update != UpdateInterrupt
    requires alu(m.regs, inst).Write? ==> inst.first !in {WC, LR, FP}
    requires Get(m, FP) <= Compute(m, alu, inst).m.regs[SP]
    ensures KeepsFrame(m, Compute(m, alu, inst).m)
  {
    hide KeepsFrame, Get, Interrupt;
    match alu(m.regs, inst)
    case Write(w) => SetKeepsFrame(m, inst.first, w);
    case Branch(taken) =>
      OnFrameKeeps(m);
      SetKeepsFrame(m, PC, Plus(m.regs[PC], SignedOffset(inst.data)));
    case _ =>
  }

  // ----- The theorem

  /** Every frame, at every depth, gives its caller back the counter, the stack pointer, the
      eight locals, the windows below and all memory below the stack pointer, and goes on at
      the right instruction; an interrupt also gives back IP and G0 to G3. */
  lemma {:induction false} FrameRestores(m: Machine, entry: Entry, body: seq<Act>)
    requires OnFrame(m) && RunFrame(m, entry, body).Some?
    ensures Restored(m, RunFrame(m, entry, body).value, entry)
    decreases body, 1
  {
    hide CallTo, Interrupt, Takes, OnFrame, KeepsFrame, Restored, Return;
    var m1 := Enter(m, entry).value;
    match entry {
      case ByCall(address) => CallRestores(m, address, m1);
      case ByInterrupt(code, g1, g2) => InterruptRestores(m, code, g1, g2, m1);
    }
    RunKeepsFrame(m1, body);
    var m2 := Run(m1, body).value;
    match entry {
      case ByCall(address) => CallRestores(m, address, m2);
      case ByInterrupt(code, g1, g2) => InterruptRestores(m, code, g1, g2, m2);
    }
  }

  /** Every run keeps the frame it runs in, whatever it calls and however deep. */
  lemma {:induction false} RunKeepsFrame(m: Machine, acts: seq<Act>)
    requires OnFrame(m) && Run(m, acts).Some?
    ensures KeepsFrame(m, Run(m, acts).value)
    decreases acts, 0
  {
    hide KeepsFrame, OnFrame, Restored, RunFrame;
    if acts == [] {
      OnFrameKeeps(m);
    } else {
      match acts[0] {
        case Local(next) =>
          KeepsOnFrame(m, next);
          RunKeepsFrame(next, acts[1..]);
          KeepsFrameTrans(m, next, Run(next, acts[1..]).value);
        case Frame(entry, body) =>
          var next := RunFrame(m, entry, body).value;
          FrameRestores(m, entry, body);
          RestoredKeepsFrame(m, next, entry);
          KeepsOnFrame(m, next);
          RunKeepsFrame(next, acts[1..]);
          KeepsFrameTrans(m, next, Run(next, acts[1..]).value);
      }
    }
  }

  lemma OnFrameKeeps(m: Machine)
    requires OnFrame(m)
    ensures KeepsFrame(m, m)
  {
  }

  /** On the abstract stack: a run leaves every window below its own exactly as it was. */
  lemma RunKeepsWindows(m: Machine, acts: seq<Act>)
    requires Stacked(m) && OnFrame(m) && Run(m, acts).Some?
    ensures var n := Run(m, acts).value;
            && n.regs[WC] == m.regs[WC]
            && Stacked(n) && Windows(n)[..m.regs[WC]] == Windows(m)[..m.regs[WC]]
  {
    hide SavedWindow, Run, Get, OnFrame;
    var n, wc := Run(m, acts).value, m.regs[WC];
    RunKeepsFrame(m, acts);
    ChainKept(m.mem, n.mem, Get(m, FP), Depth(wc));
    InFileKept(m.regs, n.regs, Resident(wc));
  }

  /** And a whole frame leaves the whole list as it was. */
  lemma FrameRestoresWindows(m: Machine, entry: Entry, body: seq<Act>)
    requires Stacked(m) && OnFrame(m) && RunFrame(m, entry, body).Some?
    ensures var n := RunFrame(m, entry, body).value;
            && Stacked(n) && Windows(n) == Windows(m)
  {
    hide SavedWindow, RunFrame, Get, OnFrame;
    var n, wc := RunFrame(m, entry, body).value, m.regs[WC];
    FrameRestores(m, entry, body);
    RestoredKeepsFrame(m, n, entry);
    ChainKept(m.mem, n.mem, Get(m, FP), Depth(wc));
    InFileKept(m.regs, n.regs, Resident(wc));
  }
}
