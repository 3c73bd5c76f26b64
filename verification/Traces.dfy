/** Sequences of instructions and interrupts as the machine runs them: when every instruction keeps
    to its frame and the returns match the entries, the sequence is a run of nested frames. */
module Traces {
  import opened Options
  import opened Words
  import opened MemoryModel
  import opened MachineModel
  import opened StackLemmas
  import opened WindowStack
  import opened NestedRuns
  import opened FaultContainment

  /** One thing that happens to the machine: `next`, or an interrupt from outside between two
      instructions. */
  datatype Event = Instruct | Signal(code: Byte, g1: Word, g2: Word)

  function Advance(m: Machine, alu: Alu, e: Event): Machine {
    match e
    case Instruct => Next(m, alu).m
    case Signal(code, g1, g2) => Interrupt(m, code, g1, g2).m
  }

  function Trace(m: Machine, alu: Alu, events: seq<Event>): Machine
    decreases |events|
  {
    if events == [] then m else Trace(Advance(m, alu, events[0]), alu, events[1..])
  }

  /** What an event is for the frame it happens in: a step of its body, the entry of a deeper frame
      from state `at`, the return of the frame itself, or a breach of the rules. */
  datatype Role = Stays | Enters(at: Machine, entry: Entry) | Leaves(call: bool) | Breaks

  /** An interrupt raised in `at`: it enters its handler when it is enabled, is nothing but a step
      when it is not, and the machine stops when it cannot be delivered. */
  function RoleOfInterrupt(at: Machine, code: Byte, g1: Word, g2: Word): Role {
    if !Interrupt(at, code, g1, g2).out.Done? then Breaks
    else if Takes(at, code) then Enters(at, ByInterrupt(code, g1, g2))
    else Stays
  }

  /** The fault of an instruction that does not itself leave the frame, SP still at or above it. */
  predicate FaultsInFrame(m: Machine, alu: Alu, inst: Instruction) {
    var op, s := OperationOf(inst.code), Perform(m, alu, inst);
    && !op.OpRet? && !op.OpReti?
    && Get(m, FP) <= s.m.regs[SP]
  }

  /** An instruction that ended normally without obeying the rules of a body. */
  function RoleOfTransfer(m: Machine, alu: Alu, inst: Instruction): Role {
    match OperationOf(inst.code)
    case OpCall => Enters(m, ByCall(Plus(m.regs[PC], SignedOffset(inst.data))))
    case OpCallr => Enters(m, ByCall(Get(m, inst.first)))
    case OpInt => RoleOfInterrupt(m, INTERRUPT_SOFTWARE, inst.data, 0)
    case OpCompute =>
      var e := alu(m.regs, inst);
      if e.DivisionByZero? then RoleOfInterrupt(m, INTERRUPT_DIVISION, m.regs[PC], e.dividend) else Breaks
    case OpRet => Leaves(true)
    case OpReti => Leaves(false)
    case _ => Breaks
  }

  /** An instruction that ended as `s` says: a fault in the frame becomes its interrupt. */
  function RoleOfEnd(m: Machine, alu: Alu, inst: Instruction, s: Step): Role {
    match s.out
    case Stopped => Breaks
    case Done(_) => if Disciplined(m, alu, inst) then Stays else RoleOfTransfer(m, alu, inst)
    case CodeError =>
      if FaultsInFrame(m, alu, inst) then RoleOfInterrupt(s.m, INTERRUPT_INSTRUCTION, s.m.regs[PC], inst.code) else Breaks
    case MemoryError(a) =>
      if FaultsInFrame(m, alu, inst) then RoleOfInterrupt(s.m, INTERRUPT_MEMORY, s.m.regs[PC], a) else Breaks
  }

  function RoleOfInstruction(m: Machine, alu: Alu, inst: Instruction): Role {
    RoleOfEnd(m, alu, inst, Perform(m, alu, inst))
  }

  function RoleOf(m: Machine, alu: Alu, e: Event): Role {
    match e
    case Signal(code, g1, g2) => RoleOfInterrupt(m, code, g1, g2)
    case Instruct =>
      if !m.running then Breaks
      else if !InRange(m.mem, m.regs[PC], 4) then RoleOfInterrupt(m, INTERRUPT_MEMORY, m.regs[PC], m.regs[PC])
      else RoleOfInstruction(m, alu, Fetch(m))
  }

  /** Every event obeys the rules in the frame it happens in, and returns match the entries still
      open, the innermost last; in the end none is open. */
  predicate Balanced(m: Machine, alu: Alu, events: seq<Event>, open: seq<Entry>)
    decreases |events|
  {
    if events == [] then open == []
    else
      var n := Advance(m, alu, events[0]);
      match RoleOf(m, alu, events[0])
      case Stays => Balanced(n, alu, events[1..], open)
      case Enters(_, entry) => Balanced(n, alu, events[1..], open + [entry])
      case Leaves(call) =>
        && open != [] && open[|open| - 1].ByCall? == call
        && Balanced(n, alu, events[1..], open[..|open| - 1])
      case Breaks => false
  }

  // ----- Faults keep the frame

  /** An interrupt that cannot be delivered has written nothing below SP and no window. */
  lemma InterruptFaultKeeps(m: Machine, code: Byte, g1: Word, g2: Word)
    requires OnFrame(m) && !Interrupt(m, code, g1, g2).out.Done?
    requires Get(m, FP) <= Interrupt(m, code, g1, g2).m.regs[SP]
    ensures KeepsFrame(m, Interrupt(m, code, g1, g2).m)
  {
    hide EnterHandler, KeepsFrame, Get, WordAt;
    OnFrameKeeps(m);
    var at := if ThrownByInstruction(code) then AdvancePC(m) else m;
    StepPC(m);
    if KnownInterrupt(code) && Enabled(at, code) == Value(true) {
      HandlerFaultKeeps(at, WordAt(at.mem, Vector(at, code)), code, g1, g2);
      KeepsFrameTrans(m, at, Interrupt(m, code, g1, g2).m);
    }
  }

  lemma StepPC(m: Machine)
    requires OnFrame(m)
    ensures OnFrame(AdvancePC(m)) && KeepsFrame(m, AdvancePC(m)) && Get(AdvancePC(m), FP) == Get(m, FP)
  {
  }

  lemma HandlerFaultKeeps(m: Machine, handler: Word, code: Byte, g1: Word, g2: Word)
    requires OnFrame(m) && !EnterHandler(m, handler, code, g1, g2).out.Done?
    requires Get(m, FP) <= EnterHandler(m, handler, code, g1, g2).m.regs[SP]
    ensures KeepsFrame(m, EnterHandler(m, handler, code, g1, g2).m)
  {
    hide IncreaseWindow, PushAll, WordAt, SavedWindow, Set;
    var sp := m.regs[SP];
    PushAllFits(m.mem, sp, SavedGlobals(m));
    var (mem, r) := PushAll(m.mem, sp, SavedGlobals(m));
    MovedStack(m, mem, Wrap(sp + GLOBALS_BYTES));
    if r.Value? {
      IncreaseFits(Set(m.(mem := mem), SP, r.value));
    }
  }

  /** An instruction that faults in its frame leaves a state that keeps the frame. */
  lemma FaultKeepsFrame(m: Machine, alu: Alu, inst: Instruction)
    requires OnFrame(m) && !Perform(m, alu, inst).out.Done? && FaultsInFrame(m, alu, inst)
    ensures KeepsFrame(m, Perform(m, alu, inst).m)
  {
    hide KeepsFrame, Get, WordAt, LoadAt, StoreAt, PutWord, EffectiveAddress, Interrupt, IncreaseWindow;
    OnFrameKeeps(m);
    match OperationOf(inst.code)
    case OpPop => SetKeepsFrame(m, SP, Plus(m.regs[SP], -4));
    case OpCall => CallFaultKeeps(m, Plus(m.regs[PC], SignedOffset(inst.data)));
    case OpCallr => CallFaultKeeps(m, Get(m, inst.first));
    case OpInt => InterruptFaultKeeps(m, INTERRUPT_SOFTWARE, inst.data, 0);
    case OpCompute =>
      match alu(m.regs, inst) {
        case DivisionByZero(dividend) =>
          if !Interrupt(m, INTERRUPT_DIVISION, m.regs[PC], dividend).out.Done? {
            InterruptFaultKeeps(m, INTERRUPT_DIVISION, m.regs[PC], dividend);
          }
        case _ =>
      }
    case _ =>
  }

  lemma CallFaultKeeps(m: Machine, address: Word)
    requires OnFrame(m) && !CallTo(m, address).out.Done?
    ensures KeepsFrame(m, CallTo(m, address).m)
  {
    hide IncreaseWindow, SavedWindow;
    IncreaseFits(m);
  }

  // ----- One event

  lemma InterruptRole(m: Machine, code: Byte, g1: Word, g2: Word)
    requires OnFrame(m)
    ensures var role, n := RoleOfInterrupt(m, code, g1, g2), Interrupt(m, code, g1, g2).m;
            && (role.Stays? ==> KeepsFrame(m, n))
            && (role.Enters? ==> role.at == m && Enter(m, role.entry) == Some(n) && OnFrame(n))
            && !role.Leaves?
  {
    hide EnterHandler, KeepsFrame, OnFrame, Get, WordAt;
    var s := Interrupt(m, code, g1, g2);
    if s.out.Done? {
      if Takes(m, code) {
        InterruptRestores(m, code, g1, g2, m);
      } else {
        OnFrameKeeps(m);
        StepPC(m);
      }
    }
  }

  /** What the role of an event says about the machine after it. */
  ghost predicate Obeys(m: Machine, n: Machine, role: Role) {
    && (role.Stays? ==> KeepsFrame(m, n))
    && (role.Enters? ==>
          KeepsFrame(m, role.at) && OnFrame(role.at) && Enter(role.at, role.entry) == Some(n) && OnFrame(n))
    && (role.Leaves? ==> forall entry: Entry :: entry.ByCall? == role.call ==> Return(m, entry) == Some(n))
  }

  /** An interrupt raised from a state of the same frame. */
  lemma RaisedObeys(m: Machine, at: Machine, code: Byte, g1: Word, g2: Word)
    requires OnFrame(m) && KeepsFrame(m, at)
    ensures Obeys(m, Interrupt(at, code, g1, g2).m, RoleOfInterrupt(at, code, g1, g2))
  {
    hide Interrupt, KeepsFrame, OnFrame, Enter, Takes;
    KeepsOnFrame(m, at);
    InterruptRole(at, code, g1, g2);
    RoleKinds(at, code, g1, g2);
    if RoleOfInterrupt(at, code, g1, g2).Stays? {
      KeepsFrameTrans(m, at, Interrupt(at, code, g1, g2).m);
    }
  }

  lemma RoleKinds(m: Machine, code: Byte, g1: Word, g2: Word)
    ensures !RoleOfInterrupt(m, code, g1, g2).Leaves?
    ensures RoleOfInterrupt(m, code, g1, g2).Enters? ==> RoleOfInterrupt(m, code, g1, g2).at == m
  {
    hide Interrupt, Takes;
  }

  lemma CallObeys(m: Machine, address: Word)
    requires OnFrame(m) && CallTo(m, address).out.Done?
    ensures Obeys(m, CallTo(m, address).m, Enters(m, ByCall(address)))
  {
    hide CallTo, KeepsFrame, OnFrame;
    OnFrameKeeps(m);
    CallRestores(m, address, m);
  }

  /** The return of a frame is the one `FrameRestores` is about. */
  lemma ReturnObeys(m: Machine, alu: Alu, inst: Instruction)
    requires OperationOf(inst.code).OpRet? || OperationOf(inst.code).OpReti?
    requires Perform(m, alu, inst).out.Done?
    ensures Obeys(m, Finish(Perform(m, alu, inst), inst.code).m, Leaves(OperationOf(inst.code).OpRet?))
  {
    hide Leave, Reti, KeepsFrame, OnFrame;
    LeaveOutcome(m);
    RetiOutcome(m);
  }

  /** An instruction, whether it ends normally, changes frames, or faults and is handled. */
  lemma InstructionObeys(m: Machine, alu: Alu, inst: Instruction)
    requires OnFrame(m)
    ensures Obeys(m, Finish(Perform(m, alu, inst), inst.code).m, RoleOfInstruction(m, alu, inst))
  {
    hide KeepsFrame, OnFrame, Obeys, RoleOfInterrupt, RoleOfTransfer, Interrupt, Perform, Disciplined, FaultsInFrame, Get;
    BreaksObeys(m, Finish(Perform(m, alu, inst), inst.code).m);
    var s := Perform(m, alu, inst);
    match s.out
    case CodeError =>
      if FaultsInFrame(m, alu, inst) {
        FaultKeepsFrame(m, alu, inst);
        RaisedObeys(m, s.m, INTERRUPT_INSTRUCTION, s.m.regs[PC], inst.code);
      }
    case MemoryError(a) =>
      if FaultsInFrame(m, alu, inst) {
        FaultKeepsFrame(m, alu, inst);
        RaisedObeys(m, s.m, INTERRUPT_MEMORY, s.m.regs[PC], a);
      }
    case Stopped =>
    case Done(_) =>
      if Disciplined(m, alu, inst) {
        InstructionKeepsFrame(m, alu, inst);
        StaysObeys(m, Finish(s, inst.code).m);
      } else {
        CompletedObeys(m, alu, inst);
      }
  }

  lemma BreaksObeys(m: Machine, n: Machine)
    ensures Obeys(m, n, Breaks)
  {
  }

  lemma StaysObeys(m: Machine, n: Machine)
    requires KeepsFrame(m, n)
    ensures Obeys(m, n, Stays)
  {
  }

  /** The instructions that change frames when they end normally. */
  lemma CompletedObeys(m: Machine, alu: Alu, inst: Instruction)
    requires OnFrame(m) && Perform(m, alu, inst).out.Done? && !Disciplined(m, alu, inst)
    ensures Obeys(m, Finish(Perform(m, alu, inst), inst.code).m, RoleOfTransfer(m, alu, inst))
  {
    hide KeepsFrame, OnFrame, Obeys, RoleOfInterrupt, Interrupt, CallTo, Leave, Reti, Load, Store, Push, Pop,
         Restart, Disciplined, FaultsInFrame, Get;
    var n := Finish(Perform(m, alu, inst), inst.code).m;
    BreaksObeys(m, n);
    OnFrameKeeps(m);
    match OperationOf(inst.code)
    case OpCall =>
      CallEnds(m, Plus(m.regs[PC], SignedOffset(inst.data)));
      CallObeys(m, Plus(m.regs[PC], SignedOffset(inst.data)));
    case OpCallr =>
      CallEnds(m, Get(m, inst.first));
      CallObeys(m, Get(m, inst.first));
    case OpInt => RaisedObeys(m, m, INTERRUPT_SOFTWARE, inst.data, 0);
    case OpCompute =>
      match alu(m.regs, inst) {
        case DivisionByZero(dividend) => RaisedObeys(m, m, INTERRUPT_DIVISION, m.regs[PC], dividend);
        case _ =>
      }
    case OpRet => ReturnObeys(m, alu, inst);
    case OpReti => ReturnObeys(m, alu, inst);
    case _ =>
  }

  lemma CallEnds(m: Machine, address: Word)
    ensures CallTo(m, address).out.Done? ==> CallTo(m, address).out == Done(UpdateNone)
  {
    hide IncreaseWindow;
  }

  lemma EventObeys(m: Machine, alu: Alu, e: Event)
    requires OnFrame(m)
    ensures Obeys(m, Advance(m, alu, e), RoleOf(m, alu, e))
  {
    hide KeepsFrame, OnFrame, Obeys, RoleOfInterrupt, RoleOfInstruction, Interrupt, Perform, Fetch;
    BreaksObeys(m, Advance(m, alu, e));
    OnFrameKeeps(m);
    match e
    case Signal(code, g1, g2) => RaisedObeys(m, m, code, g1, g2);
    case Instruct =>
      if m.running {
        if InRange(m.mem, m.regs[PC], 4) {
          InstructionObeys(m, alu, Fetch(m));
        } else {
          RaisedObeys(m, m, INTERRUPT_MEMORY, m.regs[PC], m.regs[PC]);
        }
      }
  }

  // ----- The theorem

  lemma {:induction false} TraceSplit(m: Machine, alu: Alu, a: seq<Event>, b: seq<Event>)
    ensures Trace(m, alu, a + b) == Trace(Trace(m, alu, a), alu, b)
    decreases |a|
  {
    hide Advance;
    if a == [] {
      assert a + b == b;
    } else {
      assert (a + b)[1..] == a[1..] + b;
      TraceSplit(Advance(m, alu, a[0]), alu, a[1..], b);
    }
  }

  /** The trace from `m` up to where the frame it starts in is left, or to the end: a run of local
      steps and whole nested frames. */
  lemma {:induction false} SegmentIsRun(m: Machine, alu: Alu, events: seq<Event>, open: seq<Entry>)
    returns (acts: seq<Act>, k: nat)
    requires OnFrame(m) && Balanced(m, alu, events, open)
    ensures k <= |events| && Run(m, acts) == Some(Trace(m, alu, events[..k])) && OnFrame(Trace(m, alu, events[..k]))
    ensures open == [] ==> k == |events|
    ensures open != [] ==> k < |events| && Returns(Trace(m, alu, events[..k]), alu, events[k..], open)
    decreases |events|
  {
    hide OnFrame, KeepsFrame, Obeys, Advance, RoleOf, Enter, Return, Restored;
    acts, k := [], 0;
    if events == [] {
    } else {
      var e, rest, n := events[0], events[1..], Advance(m, alu, events[0]);
      EventObeys(m, alu, e);
      match RoleOf(m, alu, e) {
        case Stays =>
          StayOnFrame(m, n);
          var more, j := SegmentIsRun(n, alu, rest, open);
          acts, k := [Local(n)] + more, j + 1;
          LocalFirst(m, n, more);
          TraceFirst(m, alu, events, k);
        case Enters(at, entry) =>
          EnterOnFrame(m, n, at, entry);
          var body, j := SegmentIsRun(n, alu, rest, open + [entry]);
          var inner := Trace(n, alu, rest[..j]);
          assert (open + [entry])[..|open|] == open;
          EventObeys(inner, alu, rest[j]);
          var after := Advance(inner, alu, rest[j]);
          FrameReturns(at, entry, body, n, inner, after, RoleOf(inner, alu, rest[j]));
          assert rest[j..][1..] == rest[j + 1..];
          var more, i := SegmentIsRun(after, alu, rest[j + 1..], open);
          acts, k := [Local(at), Frame(entry, body)] + more, 1 + j + 1 + i;
          FrameFirst(m, at, entry, body, after, more);
          TraceFrame(m, alu, events, j, i);
        case Leaves(_) =>
          OnFrameKeeps(m);
          assert events[0..] == events;
        case Breaks =>
      }
    }
  }

  /** The next event returns from the innermost open frame, and the rest is balanced again. */
  predicate Returns(m: Machine, alu: Alu, events: seq<Event>, open: seq<Entry>)
    requires events != [] && open != []
  {
    && RoleOf(m, alu, events[0]) == Leaves(open[|open| - 1].ByCall?)
    && Balanced(Advance(m, alu, events[0]), alu, events[1..], open[..|open| - 1])
  }

  lemma StayOnFrame(m: Machine, n: Machine)
    requires OnFrame(m) && Obeys(m, n, Stays)
    ensures KeepsFrame(m, n) && OnFrame(n)
  {
    hide OnFrame, KeepsFrame;
    assert KeepsFrame(m, n);
    KeepsOnFrame(m, n);
  }

  lemma EnterOnFrame(m: Machine, n: Machine, at: Machine, entry: Entry)
    requires Obeys(m, n, Enters(at, entry))
    ensures KeepsFrame(m, at) && OnFrame(at) && OnFrame(n) && Enter(at, entry) == Some(n)
  {
    hide OnFrame, KeepsFrame, Enter;
  }

  /** A body that is a run, between its entry and the return that matches it, is a whole frame. */
  lemma FrameReturns(at: Machine, entry: Entry, body: seq<Act>, n: Machine, inner: Machine, after: Machine, role: Role)
    requires OnFrame(at) && Enter(at, entry) == Some(n) && Run(n, body) == Some(inner)
    requires role == Leaves(entry.ByCall?) && Obeys(inner, after, role)
    ensures RunFrame(at, entry, body) == Some(after) && OnFrame(after)
  {
    hide OnFrame, KeepsFrame, Enter, Return, Restored;
    assert Return(inner, entry) == Some(after);
    FrameRestores(at, entry, body);
    RestoredKeepsFrame(at, after, entry);
    KeepsOnFrame(at, after);
  }

  lemma LocalFirst(m: Machine, n: Machine, more: seq<Act>)
    requires KeepsFrame(m, n)
    ensures Run(m, [Local(n)] + more) == Run(n, more)
  {
    hide KeepsFrame;
    assert ([Local(n)] + more)[1..] == more;
  }

  lemma FrameFirst(m: Machine, at: Machine, entry: Entry, body: seq<Act>, after: Machine, more: seq<Act>)
    requires KeepsFrame(m, at) && RunFrame(at, entry, body) == Some(after)
    ensures Run(m, [Local(at), Frame(entry, body)] + more) == Run(after, more)
  {
    hide KeepsFrame, RunFrame;
    var acts := [Frame(entry, body)] + more;
    assert [Local(at), Frame(entry, body)] + more == [Local(at)] + acts;
    LocalFirst(m, at, acts);
    assert acts[1..] == more;
  }

  lemma TraceFirst(m: Machine, alu: Alu, events: seq<Event>, k: nat)
    requires 1 <= k <= |events|
    ensures Trace(m, alu, events[..k]) == Trace(Advance(m, alu, events[0]), alu, events[1..][..k - 1])
    ensures events[1..][k - 1..] == events[k..]
  {
    hide Advance;
    assert events[..k][1..] == events[1..][..k - 1];
  }

  /** One event in, a body of `j` events, one event out, and `i` more. */
  lemma TraceFrame(m: Machine, alu: Alu, events: seq<Event>, j: nat, i: nat)
    requires 1 + j + 1 + i <= |events|
    ensures var rest := events[1..];
            var after := Advance(Trace(Advance(m, alu, events[0]), alu, rest[..j]), alu, rest[j]);
            && Trace(m, alu, events[..1 + j + 1 + i]) == Trace(after, alu, rest[j + 1..][..i])
            && rest[j + 1..][i..] == events[1 + j + 1 + i..]
  {
    hide Advance;
    var rest, k := events[1..], 1 + j + 1 + i;
    var n := Advance(m, alu, events[0]);
    TraceFirst(m, alu, events, k);
    assert rest[..k - 1] == rest[..j] + ([rest[j]] + rest[j + 1..][..i]);
    TraceSplit(n, alu, rest[..j], [rest[j]] + rest[j + 1..][..i]);
    assert ([rest[j]] + rest[j + 1..][..i])[1..] == rest[j + 1..][..i];
  }

  /** Every balanced trace of the machine is a run of nested frames, and keeps the frame it is in:
      whatever is called, interrupted, or faults and is handled on the way, at any depth. */
  lemma TraceIsRun(m: Machine, alu: Alu, events: seq<Event>)
    requires OnFrame(m) && Balanced(m, alu, events, [])
    ensures exists acts :: Run(m, acts) == Some(Trace(m, alu, events))
    ensures KeepsFrame(m, Trace(m, alu, events))
  {
    hide OnFrame, KeepsFrame, Run, Trace, Balanced;
    var acts, k := SegmentIsRun(m, alu, events, []);
    assert events[..k] == events;
    RunKeepsFrame(m, acts);
  }

  /** From the event that enters a frame to the event that returns from it: the interrupted code
      finds its counter, stack pointer, locals, lower windows and memory as they were where the
      frame was entered, and goes on at the right instruction. */
  lemma TraceRestores(m: Machine, alu: Alu, first: Event, body: seq<Event>, last: Event, at: Machine, entry: Entry)
    requires OnFrame(m) && RoleOf(m, alu, first) == Enters(at, entry)
    requires Balanced(Advance(m, alu, first), alu, body, [])
    requires RoleOf(Trace(Advance(m, alu, first), alu, body), alu, last) == Leaves(entry.ByCall?)
    ensures KeepsFrame(m, at) && Restored(at, Trace(m, alu, [first] + body + [last]), entry)
    ensures Stacked(at) ==>
              var n := Trace(m, alu, [first] + body + [last]);
              Stacked(n) && Windows(n) == Windows(at)
  {
    hide OnFrame, KeepsFrame, Run, RunFrame, Balanced, Obeys, Advance, RoleOf, Enter, Return, Restored, Stacked, Windows;
    var n := Advance(m, alu, first);
    EventObeys(m, alu, first);
    EnterOnFrame(m, n, at, entry);
    var acts, k := SegmentIsRun(n, alu, body, []);
    assert body[..k] == body;
    var inner := Trace(n, alu, body);
    var after := Advance(inner, alu, last);
    EventObeys(inner, alu, last);
    FrameReturns(at, entry, acts, n, inner, after, RoleOf(inner, alu, last));
    WholeTrace(m, alu, first, body, last);
    FrameRestores(at, entry, acts);
    if Stacked(at) {
      FrameRestoresWindows(at, entry, acts);
    }
  }

  lemma WholeTrace(m: Machine, alu: Alu, first: Event, body: seq<Event>, last: Event)
    ensures Trace(m, alu, [first] + body + [last]) == Advance(Trace(Advance(m, alu, first), alu, body), alu, last)
  {
    hide Advance;
    TraceSplit(m, alu, [first] + body, [last]);
    assert ([first] + body)[1..] == body;
  }
}
