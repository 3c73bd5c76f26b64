/** Closed forms of the operations that move words between the registers and the stack. */
module StackLemmas {
  import opened Words
  import opened MemoryModel
  import opened MachineModel

  /** The bytes a window or a set of globals takes on the stack. */
  const WINDOW_BYTES: nat := 32
  const GLOBALS_BYTES: nat := 20

  predicate SameBelow(mem: Bytes, mem': Bytes, limit: int) {
    |mem'| == |mem| && forall i :: 0 <= i < |mem| && i < limit ==> mem'[i] == mem[i]
  }

  /** Whether entering a deeper frame from counter `wc` moves the locals to the stack. */
  predicate Spills(wc: Word) {
    wc >= REGISTER_WINDOWS - 1
  }

  function SpillBytes(wc: Word): nat {
    if Spills(wc) then WINDOW_BYTES else 0
  }

  /** Eight words in memory, read as a window. */
  function SavedWindow(mem: Bytes, a: Word): (w: seq<Word>)
    requires a + WINDOW_BYTES <= |mem|
    ensures |w| == REGISTERS_PER_WINDOW
  {
    seq(REGISTERS_PER_WINDOW, i requires 0 <= i < REGISTERS_PER_WINDOW => WordAt(mem, a + 4 * i))
  }

  lemma SameWord(mem: Bytes, mem': Bytes, a: Word)
    requires InRange(mem, a, 4) && InRange(mem', a, 4)
    requires forall i :: a <= i < a + 4 ==> mem'[i] == mem[i]
    ensures WordAt(mem', a) == WordAt(mem, a)
  {
  }

  /** The five words an interrupt saves, read back: IP, G0, G1, G2, G3. */
  function GlobalsAt(mem: Bytes, a: Word): (w: seq<Word>)
    requires a + GLOBALS_BYTES <= |mem|
    ensures |w| == 5
  {
    seq(5, i requires 0 <= i < 5 => WordAt(mem, a + 4 * i))
  }

  /** Pushing succeeds exactly when all the words fit below the end of memory; what was pushed
      is there afterwards, and nothing outside the pushed range changes even on a fault. */
  lemma {:induction false} PushAllFits(mem: Bytes, sp: Word, ws: seq<Word>)
    ensures var (mem', r) := PushAll(mem, sp, ws);
            && SameBelow(mem, mem', sp)
            && (forall i :: sp + 4 * |ws| <= i < |mem| ==> mem'[i] == mem[i])
            && (r.Value? <==> ws == [] || sp + 4 * |ws| <= |mem|)
            && (r.Value? ==> r.value == sp + 4 * |ws|)
            && (r.Value? ==> forall k :: 0 <= k < |ws| ==> WordAt(mem', sp + 4 * k) == ws[k])
    decreases |ws|
  {
    hide WordAt, PutWord;
    if ws == [] || !InRange(mem, sp, 4) {
    } else {
      var mem1 := PutWord(mem, sp, ws[0]);
      WordRoundTrip(mem, sp, ws[0]);
      PushAllFits(mem1, sp + 4, ws[1..]);
      var (mem', r) := PushAll(mem1, sp + 4, ws[1..]);
      assert PushAll(mem, sp, ws) == (mem', r);
      if r.Value? {
        forall k | 0 <= k < |ws|
          ensures WordAt(mem', sp + 4 * k) == ws[k]
        {
          if k == 0 {
            SameWord(mem1, mem', sp);
          } else {
            assert WordAt(mem', (sp + 4) + 4 * (k - 1)) == ws[1..][k - 1];
          }
        }
      }
    }
  }

  /** Registers outside the globals and the window in use are the same. */
  predicate OtherWindowsKept(m: Machine, m': Machine) {
    var base := GLOBAL_REGISTERS + Slot(m.regs[WC]) * 8;
    forall i :: GLOBAL_REGISTERS <= i < TOTAL_REGISTERS && !(base <= i < base + REGISTERS_PER_WINDOW) ==>
      m'.regs[i] == m.regs[i]
  }

  predicate WindowsKept(m: Machine, m': Machine) {
    forall i :: GLOBAL_REGISTERS <= i < TOTAL_REGISTERS ==> m'.regs[i] == m.regs[i]
  }

  predicate Distinct(rs: seq<Reg>) {
    forall i, j :: 0 <= i < j < |rs| ==> rs[i] != rs[j]
  }

  /** Writing a register other than the window counter changes that register alone. */
  lemma SetGet(m: Machine, r: Reg, w: Word)
    requires r != WC
    ensures var m' := Set(m, r, w);
            && m'.regs[WC] == m.regs[WC] && m'.mem == m.mem && m'.running == m.running
            && (forall q: Reg :: Get(m', q) == if q == r then w else Get(m, q))
            && OtherWindowsKept(m, m')
  {
  }

  /** The word `k` places below the top of a stack that ends at `sp`. */
  function FromTop(mem: Bytes, sp: Word, k: nat): Word
    requires 4 * (k + 1) <= sp <= |mem|
  {
    WordAt(mem, sp - 4 * (k + 1))
  }

  /** Popping distinct registers when the words are there touches those registers and SP only. */
  lemma {:induction false} PopAllFits(m: Machine, sp: Word, rs: seq<Reg>)
    requires 4 * |rs| <= sp <= |m.mem|
    requires Distinct(rs) && WC !in rs && SP !in rs
    ensures var s := PopAll(m, sp, rs);
            && s.out == Done(UpdateNone)
            && s.m.mem == m.mem && s.m.running == m.running
            && s.m.regs[SP] == sp - 4 * |rs| && s.m.regs[WC] == m.regs[WC]
            && (forall r: Reg :: r !in rs && r != SP ==> Get(s.m, r) == Get(m, r))
            && OtherWindowsKept(m, s.m)
    decreases |rs|
  {
    hide WordAt;
    if rs == [] {
      SetGet(m, SP, sp);
    } else {
      var top := sp - 4;
      var m1 := Set(m, rs[0], WordAt(m.mem, top));
      SetGet(m, rs[0], WordAt(m.mem, top));
      PopAllFits(m1, top, rs[1..]);
      var s := PopAll(m1, top, rs[1..]);
      assert PopAll(m, sp, rs) == s;
      forall r: Reg | r !in rs && r != SP
        ensures Get(s.m, r) == Get(m, r)
      {
        assert r !in rs[1..];
      }
    }
  }

  /** The `k`-th register popped gets the `k`-th word from the top. */
  lemma {:induction false} PopAllValue(m: Machine, sp: Word, rs: seq<Reg>, k: nat)
    requires 4 * |rs| <= sp <= |m.mem| && k < |rs|
    requires Distinct(rs) && WC !in rs && SP !in rs
    ensures Get(PopAll(m, sp, rs).m, rs[k]) == FromTop(m.mem, sp, k)
    decreases |rs|
  {
    hide WordAt;
    var top := sp - 4;
    var m1 := Set(m, rs[0], WordAt(m.mem, top));
    assert PopAll(m, sp, rs) == PopAll(m1, top, rs[1..]);
    if k == 0 {
      SetGet(m, rs[0], WordAt(m.mem, top));
      PopAllFits(m1, top, rs[1..]);
    } else {
      PopAllValue(m1, top, rs[1..], k - 1);
    }
  }

  lemma LocalsAre(m: Machine)
    ensures forall i :: 0 <= i < REGISTERS_PER_WINDOW ==> Locals(m)[i] == Get(m, GLOBAL_REGISTERS + i)
  {
  }

  lemma PushLocalsFits(m: Machine)
    ensures var s, sp := PushLocals(m), m.regs[SP];
            && SameBelow(m.mem, s.m.mem, sp) && s.m.running == m.running
            && (s.out.Done? <==> sp + WINDOW_BYTES <= |m.mem|)
            && (!s.out.Done? ==> s.out.MemoryError? && s.m.regs == m.regs)
            && (s.out.Done? ==> s.out == Done(UpdateNone) && s.m.regs == m.regs[SP := Wrap(sp + WINDOW_BYTES)]
                                && SavedWindow(s.m.mem, sp) == Locals(m))
  {
    hide WordAt, PushAll, Locals;
    PushAllFits(m.mem, m.regs[SP], Locals(m));
  }

  /** Entering a deeper window: from the last window on, the locals go on the stack, and it
      fails exactly when they do not fit; then the registers are as they were. */
  lemma IncreaseFits(m: Machine)
    ensures var s, sp, wc := IncreaseWindow(m), m.regs[SP], m.regs[WC];
            && SameBelow(m.mem, s.m.mem, sp) && s.m.running == m.running
            && (s.out.Done? <==> !Spills(wc) || sp + WINDOW_BYTES <= |m.mem|)
            && (!s.out.Done? ==> s.out.MemoryError? && s.m.regs == m.regs)
            && (s.out.Done? ==>
                  s.out == Done(UpdateNone)
                  && s.m.regs == m.regs[SP := Wrap(sp + SpillBytes(wc))][WC := Plus(wc, 1)])
            && (s.out.Done? && !Spills(wc) ==> s.m.mem == m.mem)
            && (s.out.Done? && Spills(wc) ==> SavedWindow(s.m.mem, sp) == Locals(m))
  {
    hide PushLocals, SavedWindow, Locals;
    if Spills(m.regs[WC]) {
      PushLocalsFits(m);
    }
  }

  lemma PopLocalsWindow(m: Machine)
    requires WINDOW_BYTES <= m.regs[SP] <= |m.mem|
    ensures Locals(PopLocals(m).m) == SavedWindow(m.mem, m.regs[SP] - WINDOW_BYTES)
  {
    hide WordAt, PopAll;
    var m', sp := PopLocals(m).m, m.regs[SP];
    var saved := SavedWindow(m.mem, sp - WINDOW_BYTES);
    LocalsAre(m');
    forall i | 0 <= i < REGISTERS_PER_WINDOW
      ensures Locals(m')[i] == saved[i]
    {
      var k := 7 - i;
      assert LOCALS_DOWNWARDS[k] == 8 + i && sp - 4 * (k + 1) == sp - WINDOW_BYTES + 4 * i;
      PopAllValue(m, sp, LOCALS_DOWNWARDS, k);
    }
  }

  /** `n` is `m` with the window counter at `wc` and, past the last window, the locals that lay
      below the stack pointer back in their registers. */
  predicate WindowPopped(m: Machine, n: Machine, wc: Word) {
    var sp := m.regs[SP];
    && n.mem == m.mem && n.running == m.running
    && n.regs[WC] == wc && n.regs[SP] == sp - SpillBytes(wc)
    && (forall r: Reg :: r < GLOBAL_REGISTERS && r != WC && r != SP ==> n.regs[r] == m.regs[r])
    && (forall i :: GLOBAL_REGISTERS <= i < TOTAL_REGISTERS && (i < 128 || !Spills(wc)) ==> n.regs[i] == m.regs[i])
    && (Spills(wc) ==> WINDOW_BYTES <= sp <= |m.mem| && Locals(n) == SavedWindow(m.mem, sp - WINDOW_BYTES))
  }

  /** Filling the last window from the stack. */
  lemma PopLocalsFits(m: Machine)
    requires Spills(m.regs[WC])
    requires WINDOW_BYTES <= m.regs[SP] <= |m.mem|
    ensures PopLocals(m).out == Done(UpdateNone) && WindowPopped(m, PopLocals(m).m, m.regs[WC])
  {
    hide WordAt, PopAll;
    var sp := m.regs[SP];
    PopAllFits(m, sp, LOCALS_DOWNWARDS);
    var s := PopLocals(m);
    PopLocalsWindow(m);
    forall r: Reg | r < GLOBAL_REGISTERS && r != SP
      ensures s.m.regs[r] == m.regs[r]
    {
      assert Get(s.m, r) == Get(m, r);
    }
  }

  /** Going back one window: down to the last window, the locals come back from the stack. */
  lemma DecreaseFits(m: Machine)
    requires !Spills(Plus(m.regs[WC], -1)) || WINDOW_BYTES <= m.regs[SP] <= |m.mem|
    ensures DecreaseWindow(m).out == Done(UpdateNone) && WindowPopped(m, DecreaseWindow(m).m, Plus(m.regs[WC], -1))
  {
    hide PopLocals;
    var wc := Plus(m.regs[WC], -1);
    if Spills(wc) {
      PopLocalsFits(Set(m, WC, wc));
    }
  }

  /** Popping the globals an interrupt saved. */
  lemma PopGlobalsFits(m: Machine)
    requires GLOBALS_BYTES <= m.regs[SP] <= |m.mem|
    ensures var s, sp := PopGlobals(m), m.regs[SP];
            && s.out == Done(UpdateNone) && s.m.mem == m.mem && s.m.running == m.running
            && s.m.regs[SP] == sp - GLOBALS_BYTES
            && s.m.regs[WC] == m.regs[WC] && s.m.regs[PC] == m.regs[PC]
            && WindowsKept(m, s.m)
            && SavedGlobals(s.m) == GlobalsAt(m.mem, sp - GLOBALS_BYTES)
  {
    hide WordAt, PopAll;
    var sp := m.regs[SP];
    PopAllFits(m, sp, GLOBALS_DOWNWARDS);
    var s := PopGlobals(m);
    assert Get(s.m, PC) == Get(m, PC);
    var saved := GlobalsAt(m.mem, sp - GLOBALS_BYTES);
    forall i | 0 <= i < 5
      ensures SavedGlobals(s.m)[i] == saved[i]
    {
      var k := 4 - i;
      assert GLOBALS_DOWNWARDS[k] == 3 + i && sp - 4 * (k + 1) == sp - GLOBALS_BYTES + 4 * i;
      PopAllValue(m, sp, GLOBALS_DOWNWARDS, k);
      assert SavedGlobals(s.m)[i] == s.m.regs[3 + i];
    }
    LocalsKept(m, s.m);
  }

  /** When no local changed and no other window did, no windowed register did. */
  lemma LocalsKept(m: Machine, m': Machine)
    requires m'.regs[WC] == m.regs[WC]
    requires forall r: Reg :: r >= GLOBAL_REGISTERS ==> Get(m', r) == Get(m, r)
    requires OtherWindowsKept(m, m')
    ensures WindowsKept(m, m')
  {
    forall i | GLOBAL_REGISTERS <= i < TOTAL_REGISTERS
      ensures m'.regs[i] == m.regs[i]
    {
      var base := GLOBAL_REGISTERS + Slot(m.regs[WC]) * 8;
      if base <= i < base + REGISTERS_PER_WINDOW {
        var r: Reg := GLOBAL_REGISTERS + i - base;
        assert Get(m', r) == Get(m, r);
      }
    }
  }
}
