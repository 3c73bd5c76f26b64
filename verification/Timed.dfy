/** The `world` instruction of a bug (simpleworld/operations_world.cpp) and the CPU that runs it
    (simpleworld/cpu.cpp): an action takes cycles, and an interrupt cancels it. What the rest of
    the world answers to an action is a parameter. */
module TimedActions {
  import opened Options
  import opened Words
  import opened MemoryModel
  import opened MachineModel
  import opened FaultContainment
  import InstructionSet

  const WORLD: Byte := 0x58

  const ACTION_SUCCESS: Word := 0
  const ACTION_FAILURE: Word := 1
  const ACTION_INTERRUPTED: Word := 2

  /** An action that was carried out: when, which, and the energy it was given in G0. */
  datatype Deed = Deed(time: Time, data: HalfWord, energy: Word)

  /** A bug as its CPU sees it: the machine, the two columns of its row, and what it has done. */
  datatype Brain = Brain(m: Machine, actionTime: Option<Time>, lastAction: Option<Time>, done: seq<Deed>)

  datatype Durations = Durations(nothing: Time, myself: Time, detect: Time, info: Time, move: Time,
                                 turn: Time, attack: Time, eat: Time, egg: Time)

  /** What the world answers: values for G1 and G2, an action error, the death of the bug, a memory
      error (of the interrupt that tells another bug it was attacked), an error of the database. */
  datatype Response = Answer(g1: Word, g2: Word) | Failure | Death | Broken(address: Word) | Refusal

  datatype Ending = Ran(update: Update) | Fault(out: Outcome) | BadAction(data: HalfWord) | Blocked | Died | Aborted

  function Duration(durations: Durations, data: HalfWord): Option<Time> {
    if data == 0x00 then Some(durations.nothing)
    else if 0x10 <= data <= 0x14 then Some(durations.myself)
    else if data == 0x20 then Some(durations.detect)
    else if 0x30 <= data <= 0x34 then Some(durations.info)
    else if data == 0x40 || data == 0x41 then Some(durations.move)
    else if data == 0x42 || data == 0x43 then Some(durations.turn)
    else if data == 0x50 then Some(durations.attack)
    else if data == 0x60 then Some(durations.eat)
    else if data == 0x70 then Some(durations.egg)
    else None
  }

  /** Actions that leave one word, and the two that leave a position. */
  predicate TellsWord(data: HalfWord) {
    0x10 <= data <= 0x14 || data == 0x20 || 0x30 <= data <= 0x34 || data == 0x60
  }

  predicate TellsPosition(data: HalfWord) {
    data == 0x13 || data == 0x33
  }

  /** A date the database takes: a positive signed integer that is not in the past. */
  predicate Dates(t: Time, now: Time) {
    now <= t && 0 < t < 0x8000_0000
  }

  /** The action is over: its results, its code in G0, the dates. */
  function Complete(b: Brain, data: HalfWord, now: Time, r: Response): Brain {
    var m1 := if r.Answer? && TellsWord(data) then Set(b.m, G1, r.g1) else b.m;
    var m2 := if r.Answer? && TellsPosition(data) then Set(m1, G2, r.g2) else m1;
    Brain(Set(m2, G0, if r.Answer? then ACTION_SUCCESS else ACTION_FAILURE), None, Some(now),
          b.done + [Deed(now, data, b.m.regs[G0])])
  }

  /** The instruction `world`. */
  function World(b: Brain, data: HalfWord, now: Time, durations: Durations, r: Response): (Brain, Ending) {
    var known := Duration(durations, data);
    if b.actionTime.None? && known.None? then (b, BadAction(data))
    else if b.actionTime.None? && !Dates(Plus(now, known.value), now) then (b, Aborted)
    else
      var begun := if b.actionTime.Some? then b else b.(actionTime := Some(Plus(now, known.value)));
      if begun.actionTime.value > now then (begun, Blocked)
      else
        match if known.None? then Failure else r
        case Death => (begun, Died)
        case Broken(a) => (begun, Fault(MemoryError(a)))
        case Refusal => (begun, Aborted)
        case answer => (Complete(begun, data, now, answer), Ran(UpdatePC))
  }

  /** An enabled interrupt finds an action in progress. */
  predicate Cancels(b: Brain, code: Byte) {
    b.actionTime.Some? && Enabled(b.m, code) == Value(true)
  }

  /** The interrupt of a bug: it cancels the action in progress instead of running its handler. */
  function BugInterrupt(b: Brain, code: Byte, g1: Word, g2: Word): (Brain, Outcome) {
    match Enabled(b.m, code)
    case OutOfRange(a) => (b, MemoryError(a))
    case Value(_) =>
      if Cancels(b, code) then (b.(m := Set(b.m, G0, ACTION_INTERRUPTED), actionTime := None), Done(UpdateNone))
      else
        var s := Interrupt(b.m, code, g1, g2);
        (b.(m := s.m), s.out)
  }

  function Interrupted(r: (Brain, Outcome)): (Brain, Outcome) {
    (r.0, if r.1.Done? then Done(UpdateInterrupt) else r.1)
  }

  /** The base instructions; the interrupts they throw are those of a bug. */
  function BugPerform(b: Brain, alu: Alu, inst: Instruction): (Brain, Outcome) {
    if OperationOf(inst.code).OpInt? then Interrupted(BugInterrupt(b, INTERRUPT_SOFTWARE, inst.data, 0))
    else if OperationOf(inst.code).OpCompute? && alu(b.m.regs, inst).DivisionByZero? then
      Interrupted(BugInterrupt(b, INTERRUPT_DIVISION, b.m.regs[PC], alu(b.m.regs, inst).dividend))
    else
      var s := Perform(b.m, alu, inst);
      (b.(m := s.m), s.out)
  }

  function Instruct(b: Brain, now: Time, durations: Durations, alu: Alu, r: Response): (Brain, Ending) {
    if !InRange(b.m.mem, b.m.regs[PC], 4) then (b, Fault(MemoryError(b.m.regs[PC])))
    else if Fetch(b.m).code == WORLD then World(b, Fetch(b.m).data, now, durations, r)
    else
      var (n, o) := BugPerform(b, alu, Fetch(b.m));
      (n, if o.Done? then Ran(o.update) else Fault(o))
  }

  function Raised(r: (Brain, Outcome)): (Brain, Ending) {
    (r.0, if r.1.Done? then Ran(UpdateNone) else Fault(r.1))
  }

  /** The code of the instruction at PC, or zero when there is none. */
  function CodeAt(m: Machine): Byte {
    if InRange(m.mem, m.regs[PC], 4) then Fetch(m).code else 0
  }

  /** What `next` makes of the end of an instruction. */
  function Settle(e: (Brain, Ending), code: Byte): (Brain, Ending) {
    var b := e.0;
    match e.1
    case Ran(UpdatePC) => (b.(m := AdvancePC(b.m)), Ran(UpdateNone))
    case Ran(UpdateStop) => (b.(m := b.m.(running := false)), Ran(UpdateNone))
    case Ran(_) => (b, Ran(UpdateNone))
    case Fault(CodeError) => Raised(BugInterrupt(b, INTERRUPT_INSTRUCTION, b.m.regs[PC], code))
    case Fault(MemoryError(a)) => Raised(BugInterrupt(b, INTERRUPT_MEMORY, b.m.regs[PC], a))
    case BadAction(data) => Raised(BugInterrupt(b, INTERRUPT_WORLDACTION, b.m.regs[PC], data))
    case _ => e
  }

  function BugNext(b: Brain, now: Time, durations: Durations, alu: Alu, r: Response): (Brain, Ending) {
    if !b.m.running then (b, Fault(Stopped))
    else Settle(Instruct(b, now, durations, alu, r), CodeAt(b.m))
  }

  /** The instructions of one cycle of the world; `respond` gives the answer to each. */
  function BugExecute(b: Brain, cycles: nat, now: Time, durations: Durations, alu: Alu,
                       respond: nat -> Response): (Brain, Ending)
    decreases cycles
  {
    if !b.m.running || cycles == 0 then (b, Ran(UpdateNone))
    else
      var (n, e) := BugNext(b, now, durations, alu, respond(cycles));
      if e.Ran? then BugExecute(n, cycles - 1, now, durations, alu, respond) else (n, e)
  }

  // ----- Waiting

  /** The bug is at a `world` instruction with this action. */
  predicate At(b: Brain, data: HalfWord) {
    && b.m.running && InRange(b.m.mem, b.m.regs[PC], 4)
    && Fetch(b.m).code == WORLD && Fetch(b.m).data == data
  }

  /** An interrupt that does not come from the program of the bug. */
  datatype Signal = Signal(code: Byte, g1: Word, g2: Word)

  /** What a bug lives with: the instructions of a cycle, and for each day the interrupts that come
      before its turn and the answers the world has. */
  datatype Outside = Outside(cycles: nat, durations: Durations, alu: Alu,
                             signals: nat -> seq<Signal>, respond: (nat, nat) -> Response)

  function Today(respond: (nat, nat) -> Response, day: nat): nat -> Response {
    (k: nat) => respond(day, k)
  }

  /** A bug whose timer interrupt fails is killed; an attack that cannot be told is the attacker's
      problem. */
  function Receive(b: Brain, signals: seq<Signal>): Option<Brain>
    decreases |signals|
  {
    if signals == [] then Some(b)
    else
      var (n, o) := BugInterrupt(b, signals[0].code, signals[0].g1, signals[0].g2);
      if !o.Done? && signals[0].code == INTERRUPT_TIMER then None else Receive(n, signals[1..])
  }

  /** One day: the interrupts, then the turn, which the bug may not survive. */
  function Day(b: Brain, now: Time, day: nat, outside: Outside): Option<Brain> {
    match Receive(b, outside.signals(day))
    case None => None
    case Some(woken) =>
      var (n, e) := BugExecute(woken, outside.cycles, now, outside.durations, outside.alu, Today(outside.respond, day));
      if e.Ran? || e.Blocked? then Some(n) else None
  }

  /** The bug after `n` days from `now`. */
  function Days(b: Brain, now: Time, n: nat, outside: Outside): Option<Brain>
    decreases n
  {
    if n == 0 then Some(b)
    else
      match Days(b, now, n - 1, outside)
      case None => None
      case Some(before) => Day(before, Plus(now, n - 1), n - 1, outside)
  }

  /** The bug after `n` days when its next turn comes. */
  function Morning(b: Brain, now: Time, n: nat, outside: Outside): Option<Brain> {
    match Days(b, now, n, outside)
    case None => None
    case Some(before) => Receive(before, outside.signals(n))
  }

  /** A bug is lost to a timer interrupt exactly when it fails, and to an event never. */
  lemma ReceiveOne(b: Brain, g1: Word, g2: Word)
    ensures Receive(b, [Signal(0, g1, g2)]) ==
            if BugInterrupt(b, 0, g1, g2).1.Done? then Some(BugInterrupt(b, 0, g1, g2).0) else None
    ensures Receive(b, [Signal(6, g1, g2)]) == Some(BugInterrupt(b, 6, g1, g2).0)
  {
    hide BugInterrupt;
    var n := BugInterrupt(b, 0, g1, g2).0;
    var k := BugInterrupt(b, 6, g1, g2).0;
    assert Receive(n, []) == Some(n) && Receive(k, []) == Some(k);
  }

  /** The timer and the events of the world, each switched off in the handler table of the bug. */
  predicate Quiet(m: Machine, signals: seq<Signal>) {
    forall s :: s in signals ==> s.code in {INTERRUPT_TIMER, INTERRUPT_WORLDEVENT} && Enabled(m, s.code) == Value(false)
  }

  /** A bug does not notice interrupts that are switched off, in the middle of an action or not. */
  lemma {:induction false} QuietUnnoticed(b: Brain, signals: seq<Signal>)
    requires Quiet(b.m, signals)
    ensures Receive(b, signals) == Some(b)
    decreases |signals|
  {
    hide Enabled;
    if signals == [] {
    } else {
      assert signals[0] in signals;
      QuietUnnoticed(b, signals[1..]);
    }
  }

  ghost predicate QuietDays(m: Machine, n: nat, outside: Outside) {
    forall day :: 0 <= day <= n ==> Quiet(m, outside.signals(day))
  }

  /** While its date has not come, an action blocks the cycle and changes nothing. */
  lemma WaitingChangesNothing(b: Brain, data: HalfWord, now: Time, cycles: nat, durations: Durations, alu: Alu,
                              respond: nat -> Response)
    requires At(b, data) && b.actionTime.Some? && b.actionTime.value > now && cycles > 0
    ensures BugExecute(b, cycles, now, durations, alu, respond) == (b, Blocked)
  {
    hide Fetch;
  }

  /** Beginning an action that takes time only writes its date. */
  lemma BeginningBlocks(b: Brain, data: HalfWord, now: Time, cycles: nat, durations: Durations, alu: Alu,
                        respond: nat -> Response)
    requires At(b, data) && b.actionTime.None? && cycles > 0
    requires Duration(durations, data).Some? && Duration(durations, data).value > 0
    requires now + Duration(durations, data).value < 0x8000_0000
    ensures BugExecute(b, cycles, now, durations, alu, respond) ==
            (b.(actionTime := Some(now + Duration(durations, data).value)), Blocked)
  {
    hide Fetch, Duration;
  }

  /** How long each action takes, by its code; there are no others. */
  lemma DurationTable(durations: Durations, data: HalfWord)
    ensures Duration(durations, data) ==
            match data / 0x10
            case 0 => if data == 0x00 then Some(durations.nothing) else None
            case 1 => if data % 0x10 <= 4 then Some(durations.myself) else None
            case 2 => if data == 0x20 then Some(durations.detect) else None
            case 3 => if data % 0x10 <= 4 then Some(durations.info) else None
            case 4 =>
              if data % 0x10 <= 1 then Some(durations.move)
              else if data % 0x10 <= 3 then Some(durations.turn)
              else None
            case 5 => if data == 0x50 then Some(durations.attack) else None
            case 6 => if data == 0x60 then Some(durations.eat) else None
            case 7 => if data == 0x70 then Some(durations.egg) else None
            case _ => None
  {
  }

  /** Beginning an action fails in the database, and ends the program, exactly when its date, in 32
      bits, is before now, zero, or not a positive signed number. */
  lemma BeginningRefused(b: Brain, data: HalfWord, now: Time, durations: Durations, alu: Alu, r: Response)
    requires At(b, data) && b.actionTime.None? && !r.Refusal?
    ensures BugNext(b, now, durations, alu, r).1.Aborted? <==>
            && Duration(durations, data).Some?
            && var date := (now as int + Duration(durations, data).value as int) % 0x1_0000_0000;
               date < now || date == 0 || date >= 0x8000_0000
  {
    hide Fetch, Duration, Complete, BugInterrupt;
  }

  /** What is found in G1 and G2 when an action has ended: the two words of the answer, where the action
      tells something; otherwise what was there. */
  predicate Told(b: Brain, n: Brain, data: HalfWord, r: Response) {
    && n.m.regs[5] == (if r.Answer? && (0x10 <= data <= 0x14 || data == 0x20 || 0x30 <= data <= 0x34 || data == 0x60)
                       then r.g1 else b.m.regs[5])
    && n.m.regs[6] == (if r.Answer? && (data == 0x13 || data == 0x33) then r.g2 else b.m.regs[6])
    && n.m.regs[4] == (if r.Answer? then 0 else 1)
  }

  /** On its date, whatever cycle it began in, an action ends: once, with the energy G0 has. */
  lemma EndingCompletes(b: Brain, data: HalfWord, now: Time, durations: Durations, alu: Alu, r: Response)
    requires At(b, data) && Duration(durations, data).Some? && (r.Answer? || r.Failure?)
    requires b.actionTime == Some(now)
             || (b.actionTime.None? && Duration(durations, data).value == 0 && 0 < now < 0x8000_0000)
    ensures var (n, e) := BugNext(b, now, durations, alu, r);
            && e == Ran(UpdateNone) && n.actionTime == None && n.lastAction == Some(now)
            && n.done == b.done + [Deed(now, data, b.m.regs[G0])]
            && n.m.regs[PC] == Plus(b.m.regs[PC], 4)
            && Told(b, n, data, r)
            && n.m.mem == b.m.mem
            && |n.m.regs| == |b.m.regs|
            && (forall i :: 0 <= i < |b.m.regs| && i !in {PC, G0, G1, G2} ==> n.m.regs[i] == b.m.regs[i])
  {
    hide Fetch, Duration, Complete;
    CompleteMeans(b, data, now, r);
    CompleteMeans(b.(actionTime := Some(now)), data, now, r);
  }

  /** What the end of an action writes: G0, at most G1 and G2, and the dates. */
  lemma CompleteMeans(b: Brain, data: HalfWord, now: Time, r: Response)
    ensures var n := Complete(b, data, now, r);
            && n.actionTime == None && n.lastAction == Some(now)
            && n.done == b.done + [Deed(now, data, b.m.regs[G0])]
            && Told(b, n, data, r)
            && n.m.mem == b.m.mem && n.m.running == b.m.running && |n.m.regs| == |b.m.regs|
            && (forall i :: 0 <= i < |b.m.regs| && i !in {G0, G1, G2} ==> n.m.regs[i] == b.m.regs[i])
  {
  }

  /** An action begun at `now` that takes `d` cycles: in the `d` cycles from `now` on nothing but its
      date is written and nothing is done, whatever the world would have answered and whichever
      interrupts came that are switched off; it ends in cycle `now + d`. */
  lemma {:induction false} ActionWaits(b: Brain, data: HalfWord, now: Time, n: nat, outside: Outside)
    requires At(b, data) && b.actionTime.None? && Duration(outside.durations, data).Some? && outside.cycles > 0
    requires now + Duration(outside.durations, data).value < 0x8000_0000
    requires n <= Duration(outside.durations, data).value && QuietDays(b.m, n, outside)
    ensures Days(b, now, n, outside) == Morning(b, now, n, outside)
    ensures Days(b, now, n, outside) ==
            Some(if n == 0 then b else b.(actionTime := Some(now + Duration(outside.durations, data).value)))
    decreases n
  {
    hide At, Duration, BugExecute, Today, Quiet, Receive, Told, Readable;
    var waiting := b.(actionTime := Some(now + Duration(outside.durations, data).value));
    QuietUnnoticed(b, outside.signals(n));
    QuietUnnoticed(waiting, outside.signals(n));
    if n == 0 {
    } else {
      ActionWaits(b, data, now, n - 1, outside);
      var today := Today(outside.respond, n - 1);
      QuietUnnoticed(b, outside.signals(n - 1));
      QuietUnnoticed(waiting, outside.signals(n - 1));
      if n == 1 {
        BeginningBlocks(b, data, now, outside.cycles, outside.durations, outside.alu, today);
      } else {
        SamePlace(b, waiting, data);
        WaitingChangesNothing(waiting, data, now + n - 1, outside.cycles, outside.durations, outside.alu, today);
      }
    }
  }

  lemma SamePlace(b: Brain, n: Brain, data: HalfWord)
    requires At(b, data) && n.m == b.m
    ensures At(n, data)
  {
  }

  /** And then it ends, once. */
  lemma ActionEnds(b: Brain, data: HalfWord, now: Time, outside: Outside, r: Response)
    requires At(b, data) && b.actionTime.None? && Duration(outside.durations, data).Some? && outside.cycles > 0
    requires 0 < now + Duration(outside.durations, data).value < 0x8000_0000
    requires QuietDays(b.m, Duration(outside.durations, data).value, outside)
    requires r.Answer? || r.Failure?
    ensures var d := Duration(outside.durations, data).value;
            var morning := Morning(b, now, d, outside);
            && morning.Some? && morning.value.m == b.m
            && morning.value.done == b.done && morning.value.lastAction == b.lastAction
            && var (n, e) := BugNext(morning.value, now + d, outside.durations, outside.alu, r);
               && e == Ran(UpdateNone) && n.done == b.done + [Deed(now + d, data, b.m.regs[G0])]
               && n.actionTime == None && n.m.regs[PC] == Plus(b.m.regs[PC], 4)
  {
    hide At, Duration, BugExecute, BugNext, Days, Morning, QuietDays;
    var d := Duration(outside.durations, data).value;
    ActionWaits(b, data, now, d, outside);
    var waited := Morning(b, now, d, outside).value;
    SamePlace(b, waited, data);
    EndingCompletes(waited, data, now + d, outside.durations, outside.alu, r);
  }

  // ----- Interrupts

  /** Cancelling touches nothing but G0 and the date: no frame, no handler, no memory. */
  lemma CancellingPushesNothing(b: Brain, code: Byte, g1: Word, g2: Word)
    requires Cancels(b, code)
    ensures var (n, o) := BugInterrupt(b, code, g1, g2);
            && o == Done(UpdateNone) && n.actionTime.None? && n.done == b.done && n.lastAction == b.lastAction
            && n.m.mem == b.m.mem && n.m.running == b.m.running && n.m.regs[G0] == ACTION_INTERRUPTED
            && |n.m.regs| == |b.m.regs|
            && forall i :: 0 <= i < |b.m.regs| && i != G0 ==> n.m.regs[i] == b.m.regs[i]
  {
    hide Enabled;
  }

  /** With no action in progress the interrupt is that of the CPU, but for an unreadable entry,
      which is found before the PC moves. */
  lemma IdleInterrupts(b: Brain, code: Byte, g1: Word, g2: Word)
    requires b.actionTime.None? && KnownInterrupt(code)
    ensures BugInterrupt(b, code, g1, g2).1 == Interrupt(b.m, code, g1, g2).out
    ensures Enabled(b.m, code).Value? ==> BugInterrupt(b, code, g1, g2).0.m == Interrupt(b.m, code, g1, g2).m
  {
    hide EnterHandler, WordAt;
  }

  /** The interrupt of a bug succeeds exactly when it cancels an action or can be delivered. */
  lemma BugInterruptSucceeds(b: Brain, code: Byte, g1: Word, g2: Word)
    requires KnownInterrupt(code)
    ensures var (n, o) := BugInterrupt(b, code, g1, g2);
            && (o.Done? <==> Cancels(b, code) || CanDeliver(b.m, code))
            && (o.Done? ==> o == Done(UpdateNone))
            && (!o.Done? ==> o.MemoryError? && FaultKeeps(b.m, n.m))
  {
    hide Interrupt, WordAt;
    InterruptSucceeds(b.m, code, g1, g2);
  }

  /** An action cancelled in its `k`-th cycle begins again from the start, and is then carried out
      with the code of the interruption as its energy. */
  lemma CancelledBeginsAgain(b: Brain, data: HalfWord, now: Time, k: nat, outside: Outside, later: Outside,
                             code: Byte, g1: Word, g2: Word, r: Response)
    requires At(b, data) && b.actionTime.None? && Duration(outside.durations, data).Some?
    requires outside.cycles > 0 && later == outside.(signals := later.signals, respond := later.respond)
    requires now + k + Duration(outside.durations, data).value < 0x8000_0000
    requires 1 <= k <= Duration(outside.durations, data).value
    requires QuietDays(b.m, k, outside) && QuietDays(b.m, Duration(outside.durations, data).value, later)
    requires Enabled(b.m, code) == Value(true) && (r.Answer? || r.Failure?)
    ensures var d := Duration(outside.durations, data).value;
            var waited := Morning(b, now, k, outside);
            && waited.Some?
            && var cancelled := BugInterrupt(waited.value, code, g1, g2).0;
               var again := Morning(cancelled, now + k, d, later);
               && again.Some? && again.value.done == b.done
               && BugNext(again.value, now + k + d, outside.durations, outside.alu, r).0.done ==
                  b.done + [Deed(now + k + d, data, ACTION_INTERRUPTED)]
  {
    hide At, Duration, BugExecute, BugNext, Days, Morning, Enabled, BugInterrupt, QuietDays;
    ActionWaits(b, data, now, k, outside);
    var waited := Morning(b, now, k, outside).value;
    CancellingPushesNothing(waited, code, g1, g2);
    var cancelled := BugInterrupt(waited, code, g1, g2).0;
    StaysAt(b, cancelled, data);
    StaysQuiet(b.m, cancelled.m, Duration(outside.durations, data).value, later);
    ActionEnds(cancelled, data, now + k, later, r);
  }

  /** Which interrupts are on only depends on IP and the memory. */
  lemma StaysQuiet(m: Machine, n: Machine, days: nat, outside: Outside)
    requires QuietDays(m, days, outside) && n.mem == m.mem && n.regs[IP] == m.regs[IP]
    ensures QuietDays(n, days, outside)
  {
    assert forall code :: Enabled(n, code) == Enabled(m, code);
    forall day | 0 <= day <= days
      ensures Quiet(n, outside.signals(day))
    {
      assert Quiet(m, outside.signals(day));
    }
  }

  /** Where the bug is only depends on its PC, its memory and whether it runs. */
  lemma StaysAt(b: Brain, n: Brain, data: HalfWord)
    requires At(b, data) && n.m.mem == b.m.mem && n.m.running == b.m.running && n.m.regs[PC] == b.m.regs[PC]
    ensures At(n, data)
  {
  }

  // ----- Containment

  lemma BugPerformOutcome(b: Brain, alu: Alu, inst: Instruction)
    ensures var (n, o) := BugPerform(b, alu, inst);
            && !o.Stopped?
            && (!o.Done? ==> FaultKeeps(b.m, n.m))
  {
    hide Perform, BugInterrupt, CanDeliver, Cancels;
    BugInterruptSucceeds(b, INTERRUPT_SOFTWARE, inst.data, 0);
    if alu(b.m.regs, inst).DivisionByZero? {
      BugInterruptSucceeds(b, INTERRUPT_DIVISION, b.m.regs[PC], alu(b.m.regs, inst).dividend);
    }
    PerformOutcome(b.m, alu, inst);
  }

  /** The state an instruction of a bug leaves, and the interrupt its error asks for, if any. */
  function BugFault(b: Brain, now: Time, durations: Durations, alu: Alu, r: Response): (Brain, int) {
    var (n, e) := Instruct(b, now, durations, alu, r);
    (n, match e
        case Fault(CodeError) => INTERRUPT_INSTRUCTION as int
        case Fault(MemoryError(_)) => INTERRUPT_MEMORY
        case BadAction(_) => INTERRUPT_WORLDACTION
        case _ => -1)
  }

  /** While a bug runs, no action error leaves its cycle, and the only error of the CPU that does is
      a `MemoryError`: exactly when an instruction fails and the interrupt for it neither cancels an
      action in progress nor can be delivered from the state the failure left. */
  lemma BugNextEscapes(b: Brain, now: Time, durations: Durations, alu: Alu, r: Response)
    requires b.m.running
    ensures var (at, code) := BugFault(b, now, durations, alu, r);
            var e := BugNext(b, now, durations, alu, r).1;
            && (code != -1 ==> FaultKeeps(b.m, at.m))
            && !e.BadAction? && (e.Fault? ==> e.out.MemoryError?)
            && (e.Fault? <==> code != -1 && !Cancels(at, code) && !CanDeliver(at.m, code))
  {
    hide BugPerform, BugInterrupt, Fetch, World, Cancels, CanDeliver;
    WorldFaults(b, InstructionAt(b.m).data, now, durations, r);
    BugPerformOutcome(b, alu, InstructionAt(b.m));
    var (n, e) := Instruct(b, now, durations, alu, r);
    if e == Fault(CodeError) {
      BugInterruptSucceeds(n, INTERRUPT_INSTRUCTION, n.m.regs[PC], CodeAt(b.m));
    } else if e.Fault? && e.out.MemoryError? {
      BugInterruptSucceeds(n, INTERRUPT_MEMORY, n.m.regs[PC], e.out.address);
    } else if e.BadAction? {
      BugInterruptSucceeds(n, INTERRUPT_WORLDACTION, n.m.regs[PC], e.data);
    }
  }

  /** So with no handler table no error of the CPU leaves the cycle of a bug, for any memory,
      registers, action in progress and answer. */
  lemma BugNextContained(b: Brain, now: Time, durations: Durations, alu: Alu, r: Response)
    requires b.m.running && b.m.regs[IP] == 0
    ensures !BugNext(b, now, durations, alu, r).1.Fault? && !BugNext(b, now, durations, alu, r).1.BadAction?
  {
    hide BugNext, BugFault;
    BugNextEscapes(b, now, durations, alu, r);
  }

  /** The instruction at PC, or any. */
  function InstructionAt(m: Machine): Instruction {
    if InRange(m.mem, m.regs[PC], 4) then Fetch(m) else Instruction(0, 0, 0, 0)
  }

  lemma WorldFaults(b: Brain, data: HalfWord, now: Time, durations: Durations, r: Response)
    ensures var (n, e) := World(b, data, now, durations, r);
            && (e.Fault? ==> e.out.MemoryError?)
            && (e.Fault? || e.BadAction? ==> n.m == b.m)
            && (e.Ran? ==> e.update == UpdatePC)
  {
    hide Duration;
  }

  // ----- Without an action in progress

  /** Every entry of the handler table can be read, or the table is off. */
  predicate Readable(m: Machine) {
    m.regs[3] == 0 || forall code: Byte :: code <= 6 ==> InstructionSet.Entry(m, code) + 4 <= |m.mem|
  }

  lemma ReadableEntry(m: Machine, code: Byte)
    requires Readable(m) && code <= 6
    ensures Enabled(m, code).Value?
  {
    hide WordAt;
    assert Vector(m, code) == InstructionSet.Entry(m, code);
  }

  /** A fault does not change how much memory there is. */
  lemma FaultKeepsSize(m: Machine, alu: Alu, inst: Instruction)
    requires !Perform(m, alu, inst).out.Done?
    ensures |Perform(m, alu, inst).m.mem| == |m.mem|
  {
    hide CallTo, Leave, PopGlobals, Interrupt, Restart, WordAt;
    match OperationOf(inst.code)
    case OpCall => CallFaultLeavesState(m, Plus(m.regs[PC], SignedOffset(inst.data)));
    case OpCallr => CallFaultLeavesState(m, Get(m, inst.first));
    case OpRet => LeaveKeepsMemory(m);
    case OpReti => LeaveKeepsMemory(m);
    case OpCompute =>
      if alu(m.regs, inst).DivisionByZero? {
        InterruptSucceeds(m, INTERRUPT_DIVISION, m.regs[PC], alu(m.regs, inst).dividend);
      }
    case OpInt => InterruptSucceeds(m, INTERRUPT_SOFTWARE, inst.data, 0);
    case _ =>
  }

  lemma {:induction false} PopKeepsMemory(m: Machine, sp: Word, rs: seq<Reg>)
    ensures PopAll(m, sp, rs).m.mem == m.mem
    decreases |rs|
  {
    hide WordAt;
    var top := Plus(sp, -4);
    if rs == [] || !InRange(m.mem, top, 4) {
    } else {
      PopKeepsMemory(Set(m, rs[0], WordAt(m.mem, top)), top, rs[1..]);
    }
  }

  lemma LeaveKeepsMemory(m: Machine)
    ensures Leave(m).m.mem == m.mem && PopGlobals(Leave(m).m).m.mem == m.mem
  {
    hide PopAll;
    var m1 := Set(m, PC, Get(m, LR));
    var m2 := Set(m1, SP, Get(m1, FP));
    var m3 := Set(m2, WC, Plus(m2.regs[WC], -1));
    PopKeepsMemory(m3, m3.regs[SP], LOCALS_DOWNWARDS);
    PopKeepsMemory(Leave(m).m, Leave(m).m.regs[SP], GLOBALS_DOWNWARDS);
  }

  lemma ReadableStill(m: Machine, n: Machine)
    requires Readable(m) && n.regs[IP] == m.regs[IP] && |n.mem| == |m.mem|
    ensures Readable(n)
  {
    assert forall code: Byte :: InstructionSet.Entry(n, code) == InstructionSet.Entry(m, code);
  }

  /** With no action in progress and a table that can be read, the cycle of a bug on any instruction but
      `world` is the cycle of the CPU, what its faults hand over included. */
  lemma BugNextIsNext(b: Brain, now: Time, durations: Durations, alu: Alu, r: Response)
    requires b.m.running && b.actionTime.None? && Readable(b.m) && CodeAt(b.m) != 0x58
    ensures var s := Next(b.m, alu);
            BugNext(b, now, durations, alu, r) ==
            (b.(m := s.m), if s.out.Done? then Ran(UpdateNone) else Fault(s.out))
  {
    hide Perform, Interrupt, Fetch, BugPerform, BugInterrupt, Readable;
    if InRange(b.m.mem, b.m.regs[PC], 4) {
      var inst := Fetch(b.m);
      PerformIs(b, alu, inst);
      PerformOutcome(b.m, alu, inst);
      var s := Perform(b.m, alu, inst);
      if !s.out.Done? {
        FaultKeepsSize(b.m, alu, inst);
        ReadableStill(b.m, s.m);
        InterruptIs(b.(m := s.m), if s.out.CodeError? then INTERRUPT_INSTRUCTION else INTERRUPT_MEMORY, s.m.regs[PC],
                    if s.out.CodeError? then inst.code else s.out.address);
      }
    } else {
      InterruptIs(b, INTERRUPT_MEMORY, b.m.regs[PC], b.m.regs[PC]);
    }
  }

  lemma InterruptIs(b: Brain, code: Byte, g1: Word, g2: Word)
    requires b.actionTime.None? && Readable(b.m) && code <= 6
    ensures var s := Interrupt(b.m, code, g1, g2);
            BugInterrupt(b, code, g1, g2) == (b.(m := s.m), s.out) && (s.out == Done(UpdateNone) || s.out.MemoryError?)
  {
    hide Interrupt, Enabled, Readable, CanDeliver;
    ReadableEntry(b.m, code);
    InterruptSucceeds(b.m, code, g1, g2);
  }

  lemma PerformIs(b: Brain, alu: Alu, inst: Instruction)
    requires b.actionTime.None? && Readable(b.m)
    ensures var s := Perform(b.m, alu, inst);
            BugPerform(b, alu, inst) == (b.(m := s.m), s.out)
  {
    hide Interrupt, BugInterrupt, Readable, Call, Callr, Ret, Reti, Load, Store, Push, Pop, Restart;
    InterruptIs(b, INTERRUPT_SOFTWARE, inst.data, 0);
    if alu(b.m.regs, inst).DivisionByZero? {
      InterruptIs(b, INTERRUPT_DIVISION, b.m.regs[PC], alu(b.m.regs, inst).dividend);
    }
  }

  /** A `world` instruction with a code that is no action hands PC and that code to interrupt 5. */
  lemma UnknownActionHandsOver(b: Brain, data: HalfWord, now: Time, durations: Durations, alu: Alu, r: Response)
    requires At(b, data) && b.actionTime.None? && Readable(b.m) && Duration(durations, data).None?
    ensures var (n, e) := BugNext(b, now, durations, alu, r);
            var s := Step(n.m, if e.Fault? then e.out else Done(UpdateNone));
            && (e == Ran(UpdateNone) || (e.Fault? && e.out.MemoryError?))
            && InstructionSet.HandsOver(b.m, s, 5, b.m.regs[1], data)
            && n.done == b.done && n.actionTime.None?
  {
    hide Fetch, Duration, Interrupt, BugInterrupt, Readable, InstructionSet.HandsOver;
    InterruptIs(b, 5, b.m.regs[1], data);
    InstructionSet.Delivered(b.m, 5, b.m.regs[1], data);
  }
}
