/** The sixteen register windows and the stack as one unbounded list of private windows.
    Windows below the last one live in the register file; from depth 16 on, the window of every
    waiting frame lies in the 32 bytes just below the frame pointer of the frame it called. */
module WindowStack {
  import opened Words
  import opened MemoryModel
  import opened MachineModel
  import opened StackLemmas

  /** How many windows have been moved to the stack. */
  function Depth(wc: Word): nat {
    if wc < REGISTER_WINDOWS then 0 else wc - (REGISTER_WINDOWS - 1)
  }

  /** Windows that sit in their own slot of the register file below the current one. */
  function Resident(wc: Word): (n: nat)
    ensures n < REGISTER_WINDOWS
  {
    if Spills(wc) then REGISTER_WINDOWS - 1 else wc
  }

  /** The frame pointer stored in a saved window. */
  function SavedFP(mem: Bytes, a: Word): Word
    requires a + WINDOW_BYTES <= |mem|
  {
    SavedWindow(mem, a)[FP - GLOBAL_REGISTERS]
  }

  /** `n` saved windows can be walked down from `fp`, each entirely below the next. */
  predicate Chain(mem: Bytes, fp: Word, n: nat)
    decreases n
  {
    n == 0
    || (WINDOW_BYTES <= fp <= |mem|
        && (n == 1
            || (SavedFP(mem, fp - WINDOW_BYTES) <= fp - WINDOW_BYTES
                && Chain(mem, SavedFP(mem, fp - WINDOW_BYTES), n - 1))))
  }

  /** The saved windows, outermost first. */
  function Spilled(mem: Bytes, fp: Word, n: nat): (ws: seq<seq<Word>>)
    requires Chain(mem, fp, n)
    ensures |ws| == n
    decreases n
  {
    if n == 0 then []
    else
      var w := SavedWindow(mem, fp - WINDOW_BYTES);
      (if n == 1 then [] else Spilled(mem, w[FP - GLOBAL_REGISTERS], n - 1)) + [w]
  }

  /** The first `n` windows of the register file. */
  function InFile(regs: Registers, n: nat): (ws: seq<seq<Word>>)
    requires n <= REGISTER_WINDOWS
    ensures |ws| == n
  {
    if n == 0 then [] else InFile(regs, n - 1) + [Window(regs, n - 1)]
  }

  /** The registers of the first `n` windows are the same. */
  predicate SameFile(regs: Registers, regs': Registers, n: nat) {
    forall i :: GLOBAL_REGISTERS <= i < TOTAL_REGISTERS && i < 8 + 8 * n ==> regs'[i] == regs[i]
  }

  predicate Stacked(m: Machine) {
    Chain(m.mem, Get(m, FP), Depth(m.regs[WC]))
  }

  /** Every window of every frame, outermost first, the current one last. */
  function Windows(m: Machine): (ws: seq<seq<Word>>)
    requires Stacked(m)
    ensures |ws| == m.regs[WC] as int + 1
  {
    InFile(m.regs, Resident(m.regs[WC])) + Spilled(m.mem, Get(m, FP), Depth(m.regs[WC])) + [Locals(m)]
  }

  // ----- The chain

  lemma SameSavedWindow(mem: Bytes, mem': Bytes, a: Word)
    requires a + WINDOW_BYTES <= |mem| && SameBelow(mem, mem', a + WINDOW_BYTES)
    ensures SavedWindow(mem', a) == SavedWindow(mem, a)
  {
    forall i | 0 <= i < REGISTERS_PER_WINDOW
      ensures WordAt(mem', a + 4 * i) == WordAt(mem, a + 4 * i)
    {
      SameWord(mem, mem', a + 4 * i);
    }
  }

  /** The chain only depends on what lies below the frame pointer it starts from. */
  lemma {:induction false} ChainKept(mem: Bytes, mem': Bytes, fp: Word, n: nat)
    requires Chain(mem, fp, n) && SameBelow(mem, mem', fp)
    ensures Chain(mem', fp, n) && Spilled(mem', fp, n) == Spilled(mem, fp, n)
    decreases n
  {
    hide SavedWindow;
    if n == 0 {
    } else {
      SameSavedWindow(mem, mem', fp - WINDOW_BYTES);
      if n > 1 {
        ChainKept(mem, mem', SavedFP(mem, fp - WINDOW_BYTES), n - 1);
      }
    }
  }

  /** Memory bounds the depth: this is why the window counter of a stacked machine never wraps. */
  lemma {:induction false} ChainDepth(mem: Bytes, fp: Word, n: nat)
    requires Chain(mem, fp, n) && n > 0
    ensures 32 * n <= fp <= |mem|
    decreases n
  {
    hide SavedWindow;
    if n <= 1 {
    } else {
      ChainDepth(mem, SavedFP(mem, fp - WINDOW_BYTES), n - 1);
    }
  }

  // ----- Going in

  /** What every way into a frame does, with `base` the stack pointer before the locals go on
      the stack: the caller's window is kept, in its slot or below the new frame pointer. */
  predicate Entered(m: Machine, m': Machine, base: Word) {
    var wc := m.regs[WC];
    && m'.regs[WC] == Plus(wc, 1)
    && m'.regs[SP] == Wrap(base + SpillBytes(wc)) == Get(m', FP)
    && Get(m', LR) == m.regs[PC]
    && SameBelow(m.mem, m'.mem, m.regs[SP])
    && m'.running == m.running
    && SameFile(m.regs, m'.regs, Resident(Plus(wc, 1)))
    && (Spills(wc) ==> base + WINDOW_BYTES <= |m.mem| && SavedWindow(m'.mem, base) == Locals(m))
  }

  /** `call` and `callr`: the globals other than PC, SP and WC do not change. */
  lemma CallEnters(m: Machine, address: Word)
    requires m.regs[WC] + 1 < WORD_LIMIT
    requires CallTo(m, address).out.Done?
    ensures var m' := CallTo(m, address).m;
            && Entered(m, m', m.regs[SP])
            && m'.regs[PC] == address
            && SavedGlobals(m') == SavedGlobals(m)
            && (!Spills(m.regs[WC]) ==> m'.mem == m.mem)
  {
    hide IncreaseWindow, WordAt, SavedWindow;
    IncreaseFits(m);
  }

  lemma MovedStack(m: Machine, mem: Bytes, sp: Word)
    ensures var n := Set(m.(mem := mem), SP, sp);
            n == m.(mem := mem, regs := m.regs[SP := sp]) && Locals(n) == Locals(m)
  {
  }

  /** The registers a handler starts with: its window is linked, its globals tell the interrupt, and
      no window below its own is written. */
  lemma LinkedFrame(m: Machine, handler: Word, code: Byte, g1: Word, g2: Word)
    ensures var linked := Set(Set(m, LR, m.regs[PC]), FP, m.regs[SP]);
            && Set(m, LR, m.regs[PC]).regs[SP] == m.regs[SP]
            && var n := Set(Set(Set(Set(linked, G0, code), G1, g1), G2, g2), PC, handler);
            && n.mem == m.mem && n.running == m.running
            && Get(n, LR) == m.regs[PC] && Get(n, FP) == m.regs[SP]
            && n.regs[WC] == m.regs[WC] && n.regs[SP] == m.regs[SP] && n.regs[PC] == handler
            && n.regs[G0] == code && n.regs[G1] == g1 && n.regs[G2] == g2
            && n.regs[G3] == m.regs[G3] && n.regs[IP] == m.regs[IP]
            && SameFile(m.regs, n.regs, Slot(m.regs[WC]))
  {
  }

  /** An enabled interrupt also saves the five globals at the old stack pointer. */
  lemma HandlerEnters(m: Machine, handler: Word, code: Byte, g1: Word, g2: Word)
    requires m.regs[WC] + 1 < WORD_LIMIT
    requires EnterHandler(m, handler, code, g1, g2).out.Done?
    ensures var m', sp := EnterHandler(m, handler, code, g1, g2).m, m.regs[SP];
            && sp + GLOBALS_BYTES <= |m.mem|
            && Entered(m, m', sp + GLOBALS_BYTES)
            && m'.regs[PC] == handler
            && m'.regs[G0] == code && m'.regs[G1] == g1 && m'.regs[G2] == g2
            && m'.regs[G3] == m.regs[G3] && m'.regs[IP] == m.regs[IP]
            && GlobalsAt(m'.mem, sp) == SavedGlobals(m)
  {
    hide IncreaseWindow, PushAll, WordAt, SavedWindow, GlobalsAt, Locals, Set, Get;
    var sp := m.regs[SP];
    PushAllFits(m.mem, sp, SavedGlobals(m));
    var mem := PushAll(m.mem, sp, SavedGlobals(m)).0;
    var m1 := Set(m.(mem := mem), SP, sp + GLOBALS_BYTES);
    IncreaseFits(m1);
    MovedStack(m, mem, sp + GLOBALS_BYTES);
    SameGlobals(mem, IncreaseWindow(m1).m.mem, sp, SavedGlobals(m));
    LinkedFrame(IncreaseWindow(m1).m, handler, code, g1, g2);
  }

  lemma SameGlobals(mem: Bytes, mem': Bytes, a: Word, ws: seq<Word>)
    requires |ws| == 5 && a + GLOBALS_BYTES <= |mem| && SameBelow(mem, mem', a + GLOBALS_BYTES)
    requires forall k :: 0 <= k < 5 ==> WordAt(mem, a + 4 * k) == ws[k]
    ensures GlobalsAt(mem', a) == ws
  {
    hide WordAt;
    forall i | 0 <= i < 5
      ensures WordAt(mem', a + 4 * i) == ws[i]
    {
      SameWord(mem, mem', a + 4 * i);
    }
  }

  /** Windows in slots whose registers did not change are the same. */
  lemma {:induction false} InFileKept(regs: Registers, regs': Registers, n: nat)
    requires n <= REGISTER_WINDOWS
    requires SameFile(regs, regs', n)
    ensures InFile(regs', n) == InFile(regs, n)
  {
    if n == 0 {
    } else {
      InFileKept(regs, regs', n - 1);
      assert Window(regs', n - 1) == Window(regs, n - 1);
    }
  }

  /** The saved part of the list grows by the caller's window. */
  lemma SpillingAppends(m: Machine, m': Machine, base: Word)
    requires Stacked(m) && Get(m, FP) <= m.regs[SP] <= base
    requires Spills(m.regs[WC]) && m.regs[WC] + 1 < WORD_LIMIT && Entered(m, m', base)
    ensures Stacked(m')
    ensures Spilled(m'.mem, Get(m', FP), Depth(m'.regs[WC])) ==
            Spilled(m.mem, Get(m, FP), Depth(m.regs[WC])) + [Locals(m)]
  {
    hide SavedWindow;
    ChainKept(m.mem, m'.mem, Get(m, FP), Depth(m.regs[WC]));
    LocalsAre(m);
    assert Locals(m)[FP - GLOBAL_REGISTERS] == Get(m, FP);
    assert SavedFP(m'.mem, base) == Get(m, FP);
    assert Get(m', FP) == base + WINDOW_BYTES;
  }

  lemma ResidentPushes(m: Machine, m': Machine, base: Word)
    requires Stacked(m) && !Spills(m.regs[WC]) && Entered(m, m', base)
    ensures Stacked(m') && Windows(m') == Windows(m) + [Locals(m')]
  {
    hide SavedWindow, Get;
    var wc := m.regs[WC];
    InFileKept(m.regs, m'.regs, wc + 1);
    assert InFile(m.regs, wc + 1) == InFile(m.regs, wc) + [Locals(m)];
  }

  /** Going into a frame puts one window on the abstract stack and changes none below it. */
  lemma EnteringPushes(m: Machine, m': Machine, base: Word)
    requires Stacked(m) && Get(m, FP) <= m.regs[SP] <= base
    requires m.regs[WC] + 1 < WORD_LIMIT && Entered(m, m', base)
    ensures Stacked(m') && Windows(m') == Windows(m) + [Locals(m')]
  {
    hide SavedWindow, Get, Chain, Spilled, Locals;
    if Spills(m.regs[WC]) {
      InFileKept(m.regs, m'.regs, 15);
      SpillingAppends(m, m', base);
    } else {
      ResidentPushes(m, m', base);
    }
  }

  /** The window counter of a stacked machine with its frame pointer in memory cannot wrap. */
  lemma CounterFits(m: Machine)
    requires Stacked(m)
    ensures m.regs[WC] + 1 < WORD_LIMIT
  {
    if Depth(m.regs[WC]) > 0 {
      ChainDepth(m.mem, Get(m, FP), Depth(m.regs[WC]));
    }
  }

  // ----- Coming back

  /** What `ret` and `reti` do first: the frame of the caller is current again. */
  lemma LeaveFits(m: Machine)
    requires m.regs[WC] >= 1
    requires Spills(m.regs[WC] - 1) ==> WINDOW_BYTES <= Get(m, FP) <= |m.mem|
    ensures var s, wc, fp := Leave(m), m.regs[WC] - 1, Get(m, FP);
            && s.out == Done(UpdateNone) && s.m.mem == m.mem && s.m.running == m.running
            && s.m.regs[WC] == wc && s.m.regs[SP] == fp - SpillBytes(wc) && s.m.regs[PC] == Get(m, LR)
            && SavedGlobals(s.m) == SavedGlobals(m)
            && (forall i :: GLOBAL_REGISTERS <= i < TOTAL_REGISTERS && (i < 128 || !Spills(wc)) ==>
                  s.m.regs[i] == m.regs[i])
            && (Spills(wc) ==> Locals(s.m) == SavedWindow(m.mem, fp - WINDOW_BYTES))
  {
    hide DecreaseWindow, SavedWindow, WordAt;
    var m1 := Set(m, PC, Get(m, LR));
    SetGet(m, PC, Get(m, LR));
    SetGet(m1, SP, Get(m, FP));
    DecreaseFits(Set(m1, SP, Get(m, FP)));
  }

  /** Back to a window of the register file. */
  lemma LeavingResident(m: Machine)
    requires Stacked(m) && m.regs[WC] >= 1 && !Spills(m.regs[WC] - 1)
    ensures var n := Leave(m).m; Stacked(n) && Windows(n) == Windows(m)[..m.regs[WC]]
  {
    hide Leave, Get, SavedWindow;
    var wc := m.regs[WC] - 1;
    LeaveFits(m);
    var n := Leave(m).m;
    InFileKept(m.regs, n.regs, wc);
    assert InFile(m.regs, wc + 1) == InFile(m.regs, wc) + [Window(m.regs, wc)];
    assert Locals(n) == Window(m.regs, wc);
  }

  /** Back to a window that was on the stack. */
  lemma LeavingSpilled(m: Machine)
    requires Stacked(m) && m.regs[WC] >= 1 && Spills(m.regs[WC] - 1)
    ensures var n := Leave(m).m; Stacked(n) && Windows(n) == Windows(m)[..m.regs[WC]]
  {
    hide Leave, Get, SavedWindow;
    LeaveFits(m);
    var n := Leave(m).m;
    LocalsAre(n);
    assert Get(n, FP) == SavedFP(m.mem, Get(m, FP) - WINDOW_BYTES);
    InFileKept(m.regs, n.regs, 15);
  }

  /** Coming back takes the last window off the abstract stack and nothing else. */
  lemma LeavingPops(m: Machine)
    requires Stacked(m) && m.regs[WC] >= 1
    ensures var s := Leave(m);
            && s.out.Done? && Stacked(s.m) && Windows(s.m) == Windows(m)[..m.regs[WC]]
  {
    hide Leave, Get, SavedWindow, Windows, Stacked;
    StackedFrame(m);
    LeaveFits(m);
    if Spills(m.regs[WC] - 1) {
      LeavingSpilled(m);
    } else {
      LeavingResident(m);
    }
  }

  // ----- Each step commutes with push or pop on the list of windows

  /** A call that succeeds pushes one private window, linked to its caller by LR and FP. */
  lemma CallCommutes(m: Machine, address: Word)
    requires Stacked(m) && Get(m, FP) <= m.regs[SP]
    requires CallTo(m, address).out.Done?
    ensures var m' := CallTo(m, address).m;
            && Stacked(m') && Windows(m') == Windows(m) + [Locals(m')]
            && Locals(m')[LR - GLOBAL_REGISTERS] == m.regs[PC]
            && Locals(m')[FP - GLOBAL_REGISTERS] == m'.regs[SP]
            && m'.regs[PC] == address && SavedGlobals(m') == SavedGlobals(m)
            && SameBelow(m.mem, m'.mem, m.regs[SP])
  {
    hide CallTo, SavedWindow, Windows, Stacked;
    CounterFits(m);
    CallEnters(m, address);
    var m' := CallTo(m, address).m;
    EnteringPushes(m, m', m.regs[SP]);
    LocalsAre(m');
  }

  /** An enabled interrupt whose frame fits pushes one private window over the saved globals. */
  lemma InterruptCommutes(m: Machine, handler: Word, code: Byte, g1: Word, g2: Word)
    requires Stacked(m) && Get(m, FP) <= m.regs[SP]
    requires EnterHandler(m, handler, code, g1, g2).out.Done?
    ensures var m' := EnterHandler(m, handler, code, g1, g2).m;
            && Stacked(m') && Windows(m') == Windows(m) + [Locals(m')]
            && Locals(m')[LR - GLOBAL_REGISTERS] == m.regs[PC]
            && Locals(m')[FP - GLOBAL_REGISTERS] == m'.regs[SP]
            && m'.regs[PC] == handler
            && m'.regs[G0] == code && m'.regs[G1] == g1 && m'.regs[G2] == g2
            && m'.regs[G3] == m.regs[G3] && m'.regs[IP] == m.regs[IP]
            && m.regs[SP] + GLOBALS_BYTES <= |m'.mem|
            && GlobalsAt(m'.mem, m.regs[SP]) == SavedGlobals(m)
            && SameBelow(m.mem, m'.mem, m.regs[SP])
  {
    hide EnterHandler, SavedWindow, Windows, Stacked, GlobalsAt;
    CounterFits(m);
    HandlerEnters(m, handler, code, g1, g2);
    var m' := EnterHandler(m, handler, code, g1, g2).m;
    EnteringPushes(m, m', m.regs[SP] + GLOBALS_BYTES);
    LocalsAre(m');
  }

  /** `ret` pops one window; it cannot fault and does not touch memory or the other globals. */
  lemma RetCommutes(m: Machine)
    requires Stacked(m) && m.regs[WC] >= 1
    ensures var s := Ret(m);
            && s.out == Done(UpdatePC) && s.m.mem == m.mem
            && Stacked(s.m) && Windows(s.m) == Windows(m)[..m.regs[WC]]
            && s.m.regs[PC] == Get(m, LR) && SavedGlobals(s.m) == SavedGlobals(m)
            && s.m.regs[SP] == Get(m, FP) - SpillBytes(m.regs[WC] - 1)
  {
    hide Leave, SavedWindow, Windows, Stacked;
    LeavingPops(m);
    StackedFrame(m);
    LeaveFits(m);
  }

  /** `reti` pops one window and puts back the globals found below it. */
  lemma RetiCommutes(m: Machine)
    requires Stacked(m) && m.regs[WC] >= 1
    requires SpillBytes(m.regs[WC] - 1) + GLOBALS_BYTES <= Get(m, FP) <= |m.mem|
    ensures var s, sp := Reti(m), Get(m, FP) - SpillBytes(m.regs[WC] - 1) - GLOBALS_BYTES;
            && s.out == Done(UpdateNone) && s.m.mem == m.mem
            && Stacked(s.m) && Windows(s.m) == Windows(m)[..m.regs[WC]]
            && s.m.regs[PC] == Get(m, LR) && s.m.regs[SP] == sp
            && SavedGlobals(s.m) == GlobalsAt(m.mem, sp)
  {
    hide Leave, PopGlobals, SavedWindow, GlobalsAt, Windows, Stacked;
    LeavingPops(m);
    StackedFrame(m);
    LeaveFits(m);
    PopGlobalsFits(Leave(m).m);
    GlobalsLeaveWindows(Leave(m).m, Reti(m).m);
  }

  /** Writing global registers other than the counter does not change the list of windows. */
  lemma GlobalsLeaveWindows(m: Machine, m': Machine)
    requires Stacked(m) && m'.mem == m.mem && m'.regs[WC] == m.regs[WC] && WindowsKept(m, m')
    ensures Stacked(m') && Windows(m') == Windows(m)
  {
    hide SavedWindow;
    InFileKept(m.regs, m'.regs, Resident(m.regs[WC]));
    assert Get(m', FP) == Get(m, FP);
    assert Locals(m') == Locals(m);
  }

  lemma StackedFrame(m: Machine)
    requires Stacked(m) && m.regs[WC] >= 1
    ensures Spills(m.regs[WC] - 1) ==> WINDOW_BYTES <= Get(m, FP) <= |m.mem|
  {
  }
}
