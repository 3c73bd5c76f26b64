/** What the moving instructions of simpleworld/cpu/operations_move.cpp give each other: a load
    finds what a store left, and a pop what a push left. */
module Transfers {
  import opened Words
  import opened MemoryModel
  import opened MachineModel

  /** The number of values a width holds. */
  function Values(width: Width): int {
    match width case FullWord => 0x1_0000_0000 case Half => 0x1_0000 case Quarter => 0x100
  }

  /** The register a store takes its value from. */
  function Source(mode: Mode, inst: Instruction): Reg {
    if mode.Relative? then inst.first else inst.second
  }

  lemma StoredIsLoaded(mem: Bytes, width: Width, a: Word, w: Word)
    requires InRange(mem, a, Bytewidth(width))
    ensures var n := StoreAt(mem, width, a, w);
            && LoadAt(n, width, a) == w % Values(width)
            && (forall i :: 0 <= i < |mem| && !(a <= i < a + Bytewidth(width)) ==> n[i] == mem[i])
  {
    if width.FullWord? {
      WordRoundTrip(mem, a, w);
    }
  }

  /** A store that ends normally changes only the bytes of its width at its address, and a load in
      the same mode, based on the register the store was based on, reads the stored value cut to
      the width. Both reach the same address, and fault together. */
  lemma StoreThenLoad(m: Machine, width: Width, mode: Mode, store: Instruction, load: Instruction)
    requires load.second == store.first && load.data == store.data
    ensures var s := Store(m, width, mode, store);
            && s.m.regs == m.regs && s.m.running == m.running && |s.m.mem| == |m.mem|
            && s.out == (match Load(m, width, mode, load).out
                         case MemoryError(a) => MemoryError(a)
                         case _ => Done(UpdatePC))
            && (s.out.Done? ==>
                  Load(s.m, width, mode, load) ==
                  Step(Set(s.m, load.first, Get(m, Source(mode, store)) % Values(width)), Done(UpdatePC)))
  {
    hide LoadAt, StoreAt, GetByData;
    var a := EffectiveAddress(m, mode, store.first, store.data);
    if a.Value? && InRange(m.mem, a.value, Bytewidth(width)) {
      StoredIsLoaded(m.mem, width, a.value, Get(m, Source(mode, store)));
      SameRegister(m, Store(m, width, mode, store).m, store.data);
    }
  }

  lemma SameRegister(m: Machine, n: Machine, data: HalfWord)
    requires n.regs == m.regs
    ensures GetByData(n, data) == GetByData(m, data)
  {
  }

  /** Pushing a register and popping another moves the value there and puts the stack pointer back,
      wherever the stack is; memory outside the pushed word is as it was. */
  lemma PushThenPop(m: Machine, push: Instruction, pop: Instruction)
    requires Push(m, push).out.Done? && pop.first != SP && pop.first != WC
    ensures var s := Pop(Push(m, push).m, pop);
            && s.out == Done(UpdatePC)
            && s.m.regs == Set(m, pop.first, Get(m, push.first)).regs
            && (forall i :: 0 <= i < |m.mem| && !(m.regs[SP] <= i < m.regs[SP] + 4) ==> s.m.mem[i] == m.mem[i])
  {
    hide PutWord, WordAt;
    WordRoundTrip(m.mem, m.regs[SP], Get(m, push.first));
    BackAgain(m.regs[SP]);
    var p := Push(m, push).m;
    assert p.regs == m.regs[SP := Plus(m.regs[SP], 4)];
    assert Set(p, SP, m.regs[SP]).regs == m.regs;
  }

  lemma BackAgain(w: Word)
    ensures Plus(Plus(w, 4), -4) == w
  {
  }

  /** Restarting from register `i` on, once the counter is zero: the registers are those of window 0. */
  lemma {:induction false} RestartFrom(m: Machine, i: nat)
    requires 1 <= i <= 16 && m.regs[WC] == 0
    ensures var n := Restart(m, i);
            && n.mem == m.mem && n.running == m.running
            && |n.regs| == |m.regs|
            && (forall k :: 0 <= k < |m.regs| ==> n.regs[k] == if i <= k < 16 then 0 else m.regs[k])
    decreases 16 - i
  {
    if i == 16 {
    } else {
      RestartFrom(Set(m, i, 0), i + 1);
    }
  }

  /** `restart` clears the globals and window 0, whatever window was current, because the counter is
      the first register it clears; the other windows and memory stay. */
  lemma RestartClears(m: Machine)
    ensures var n := Restart(m, 0);
            && n.mem == m.mem && n.running == m.running
            && |n.regs| == |m.regs|
            && (forall k :: 0 <= k < |m.regs| ==> n.regs[k] == if k < 16 then 0 else m.regs[k])
  {
    RestartFrom(Set(m, WC, 0), 1);
  }
}
