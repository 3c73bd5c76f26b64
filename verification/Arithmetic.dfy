/** Arithmetic and rotations (simpleworld/cpu/operations_arithmetic.cpp and operations_shift.cpp),
    as part of the instructions that write one register of `MachineModel`. */
module ArithmeticUnit {
  import opened Words
  import opened MemoryModel
  import opened MachineModel

  function Pow2(n: nat): (p: nat)
    ensures p > 0
  {
    if n == 0 then 1 else 2 * Pow2(n - 1)
  }

  /** Bitwise or. */
  function Or(a: nat, b: nat): nat {
    if a == 0 then b else (if a % 2 == 1 || b % 2 == 1 then 1 else 0) + 2 * Or(a / 2, b / 2)
  }

  // ----- Products, one step at a time

  lemma NonNegative(a: nat, b: nat)
    ensures a * b >= 0
  {
  }

  lemma Scales(a: nat, b: nat, c: nat)
    requires a <= b
    ensures a * c <= b * c
  {
    NonNegative(b - a, c);
    assert (b - a) * c == b * c - a * c;
  }

  lemma Associates(a: nat, b: nat, c: nat)
    ensures (a * b) * c == a * (b * c)
  {
  }

  lemma Distributes(a: nat, b: nat, c: nat)
    ensures (a + b) * c == a * c + b * c
  {
  }

  lemma Divides(x: nat, p: nat)
    requires p > 0
    ensures x == (x / p) * p + x % p && 0 <= x % p < p
  {
  }

  // ----- Shifts

  function ShiftLeft(x: Word, n: nat): Word {
    Wrap(x * Pow2(n))
  }

  function ShiftRight(x: Word, n: nat): (r: Word)
  {
    Shrinks(x, Pow2(n));
    x / Pow2(n)
  }

  lemma Shrinks(x: nat, p: nat)
    requires p > 0
    ensures 0 <= x / p <= x
  {
    Divides(x, p);
    Scales(1, p, x / p);
  }

  /** What `or` gives for two words fits in a word. */
  lemma {:induction false} OrFits(a: nat, b: nat, n: nat)
    requires a < Pow2(n) && b < Pow2(n)
    ensures Or(a, b) < Pow2(n)
    decreases n
  {
    if a == 0 {
    } else {
      OrFits(a / 2, b / 2, n - 1);
    }
  }

  lemma WordSize()
    ensures Pow2(32) == WORD_LIMIT
  {
    assert Pow2(8) == 0x100;
    PowAdds(8, 8);
    PowAdds(16, 16);
  }

  lemma {:induction false} PowAdds(m: nat, n: nat)
    ensures Pow2(m + n) == Pow2(m) * Pow2(n)
    decreases m
  {
    if m == 0 {
    } else {
      PowAdds(m - 1, n);
      Associates(2, Pow2(m - 1), Pow2(n));
    }
  }

  function OrWords(a: Word, b: Word): Word {
    WordSize();
    OrFits(a, b, 32);
    Or(a, b)
  }

  /** Rotations, for the counts whose two shifts C++ defines. */
  function RotateLeft(x: Word, n: nat): Word
    requires 1 <= n <= 31
  {
    OrWords(ShiftLeft(x, n), ShiftRight(x, 32 - n))
  }

  function RotateRight(x: Word, n: nat): Word
    requires 1 <= n <= 31
  {
    OrWords(ShiftRight(x, n), ShiftLeft(x, 32 - n))
  }

  // ----- The instructions

  /** The last operand: a register in the even codes, the data itself in the odd ones. */
  function Operand(regs: Registers, inst: Instruction): Access<Word> {
    if inst.code % 2 == 0 then GetByData(Machine(regs, [], true), inst.data) else Value(inst.data)
  }

  predicate Covers(code: Byte) {
    (0x60 <= code <= 0x6d && code != 0x66 && code != 0x67) || 0x96 <= code <= 0x99
  }

  /** The result for two operands; `rest` is asked about counts that C++ leaves undefined. */
  function Operate(code: Byte, a: Word, b: Word, rest: Effect): Effect
    requires Covers(code)
  {
    match code / 2
    case 0x30 => Write(Plus(a, b))
    case 0x31 => Write(Minus(a, b))
    case 0x32 => Write(Wrap(a * b))
    case 0x34 => HighWord(a, b); Write((a * b) / WORD_LIMIT)
    case 0x35 => if b == 0 then DivisionByZero(a) else (Shrinks(a, b); Write(a / b))
    case 0x36 => if b == 0 then DivisionByZero(a) else Write(a % b)
    case 0x4b => if 1 <= b <= 31 then Write(RotateLeft(a, b)) else rest
    case _ => if 1 <= b <= 31 then Write(RotateRight(a, b)) else rest
  }

  lemma HighWord(a: Word, b: Word)
    ensures 0 <= (a * b) / WORD_LIMIT < WORD_LIMIT
  {
    Scales(a, 0xFFFF_FFFF, b);
    Scales(b, 0xFFFF_FFFF, 0xFFFF_FFFF);
    NonNegative(a, b);
    BelowSquare(a * b);
  }

  lemma BelowSquare(p: nat)
    requires p <= 0xFFFF_FFFF * 0xFFFF_FFFF
    ensures p / 0x1_0000_0000 < 0x1_0000_0000
  {
  }

  function Effects(rest: Alu, regs: Registers, inst: Instruction): Effect {
    if !Covers(inst.code) then rest(regs, inst)
    else
      match Operand(regs, inst)
      case OutOfRange(a) => BadRegister(a)
      case Value(b) => Operate(inst.code, regs[Index(regs, inst.second)], b, rest(regs, inst))
  }

  /** An arithmetic unit with these instructions, the others being those of `rest`. */
  function With(rest: Alu): Alu {
    (regs: Registers, inst: Instruction) => Effects(rest, regs, inst)
  }

  // ----- Products and quotients

  /** `multhu` and `mult`, or their immediate forms, give the two halves of the exact product. */
  lemma ProductIsExact(rest: Alu, regs: Registers, high: Instruction, low: Instruction)
    requires high.code == 0x68 || high.code == 0x69
    requires low.code == high.code - 4 && low.second == high.second && low.data == high.data
    ensures var a, b := regs[Index(regs, high.second)], Operand(regs, high);
            var h, l := With(rest)(regs, high), With(rest)(regs, low);
            if b.OutOfRange? then h == BadRegister(b.address) && l == BadRegister(b.address)
            else h.Write? && l.Write? && h.value * 0x1_0000_0000 + l.value == a * b.value
  {
    var a, b := regs[Index(regs, high.second)], Operand(regs, high);
    hide GetByData, Index;
    if b.Value? {
      HighWord(a, b.value);
      NonNegative(a, b.value);
      Halves(a as int * b.value as int);
    }
  }

  lemma Halves(p: nat)
    ensures (p / WORD_LIMIT) * 0x1_0000_0000 + Wrap(p) == p
  {
  }

  /** `div` and `mod`, or their immediate forms, recombine to the dividend with a remainder below
      the divisor; both interrupt exactly when the divisor is zero. */
  lemma QuotientRecombines(rest: Alu, regs: Registers, div: Instruction, mod: Instruction)
    requires div.code == 0x6a || div.code == 0x6b
    requires mod.code == div.code + 2 && mod.second == div.second && mod.data == div.data
    ensures var a, b := regs[Index(regs, div.second)], Operand(regs, div);
            var q, r := With(rest)(regs, div), With(rest)(regs, mod);
            match b
            case OutOfRange(bad) => q == BadRegister(bad) && r == BadRegister(bad)
            case Value(v) =>
              if v == 0 then q == DivisionByZero(a) && r == DivisionByZero(a)
              else q.Write? && r.Write? && r.value < v && q.value * v + r.value == a
  {
    var a, b := regs[Index(regs, div.second)], Operand(regs, div);
    hide GetByData, Index;
    if b.Value? && b.value != 0 {
      Shrinks(a, b.value);
      Divides(a, b.value);
    }
  }

  // ----- Rotations

  /** Numbers without a common bit: `or` adds them. */
  lemma {:induction false} OrAdds(high: nat, low: nat, n: nat)
    requires low < Pow2(n)
    ensures Or(high * Pow2(n), low) == high * Pow2(n) + low
    ensures Or(low, high * Pow2(n)) == high * Pow2(n) + low
    decreases n
  {
    if n == 0 {
      OrZero(high);
    } else {
      var p := Pow2(n - 1);
      OrAdds(high, low / 2, n - 1);
      Associates(2, high, p);
      Associates(high, 2, p);
      assert (2 * (high * p)) / 2 == high * p && (2 * (high * p)) % 2 == 0;
      OrZero(high * Pow2(n));
      OrZero(low);
    }
  }

  lemma {:induction false} OrZero(a: nat)
    ensures Or(a, 0) == a && Or(0, a) == a
    decreases a
  {
    if a == 0 {
    } else {
      OrZero(a / 2);
    }
  }

  /** The two parts a rotation by `n` exchanges. */
  lemma Parts(x: Word, n: nat)
    requires 1 <= n <= 31
    ensures Pow2(n) * Pow2(32 - n) == 0x1_0000_0000
    ensures var q, r := x / Pow2(32 - n), x % Pow2(32 - n);
            && x == q * Pow2(32 - n) + r && 0 <= r < Pow2(32 - n) && 0 <= q < Pow2(n)
  {
    hide Pow2;
    WordSize();
    PowAdds(n, 32 - n);
    QuotientBelow(x, Pow2(32 - n), Pow2(n));
  }

  lemma QuotientBelow(x: nat, p: nat, k: nat)
    requires p > 0 && x < k * p
    ensures x == (x / p) * p + x % p && 0 <= x % p < p && 0 <= x / p < k
  {
    Divides(x, p);
    Shrinks(x, p);
    if x / p >= k {
      Scales(k, x / p, p);
    }
  }

  /** What is shifted out at the left is gone. */
  lemma ShiftedLeft(q: nat, r: nat, n: nat)
    requires 1 <= n <= 31 && q < Pow2(n) && r < Pow2(32 - n)
    ensures Pow2(n) * Pow2(32 - n) == 0x1_0000_0000
    ensures q * Pow2(32 - n) + r < WORD_LIMIT
    ensures ShiftLeft(q * Pow2(32 - n) + r, n) == r * Pow2(n)
    ensures ShiftRight(q * Pow2(32 - n) + r, 32 - n) == q
  {
    hide Pow2;
    WordSize();
    PowAdds(n, 32 - n);
    var p, k := Pow2(32 - n), Pow2(n);
    Scales(q + 1, k, p);
    Distributes(q, 1, p);
    ShiftedProduct(q, r, p, k);
    Scales(r + 1, p, k);
    Distributes(r, 1, k);
    Remainder((q * p + r) * k, 0x1_0000_0000, q, r * k);
    Remainder(q * p + r, p, q, r);
  }

  lemma ShiftedProduct(q: nat, r: nat, p: nat, k: nat)
    requires p * k == 0x1_0000_0000
    ensures (q * p + r) * k == q * 0x1_0000_0000 + r * k
  {
    Associates(q, p, k);
    Distributes(q * p, r, k);
  }

  /** A rotation exchanges the high `n` bits and the others. */
  lemma RotateMeans(x: Word, n: nat)
    requires 1 <= n <= 31
    ensures RotateLeft(x, n) == (x % Pow2(32 - n)) * Pow2(n) + x / Pow2(32 - n)
    ensures RotateRight(x, 32 - n) == RotateLeft(x, n)
  {
    hide Pow2, Or, ShiftLeft, ShiftRight;
    Parts(x, n);
    var q, r := x / Pow2(32 - n), x % Pow2(32 - n);
    ShiftedLeft(q, r, n);
    OrAdds(r, q, n);
  }

  /** Rotating left by `n` is multiplying by the `n`th power of two, modulo 2^32 - 1. */
  lemma RotateMultiplies(x: Word, n: nat)
    requires 1 <= n <= 31
    ensures (x * Pow2(n) - RotateLeft(x, n)) % 0xFFFF_FFFF == 0
  {
    hide Pow2, RotateLeft;
    Parts(x, n);
    RotateMeans(x, n);
    var q, r, p, k := x / Pow2(32 - n), x % Pow2(32 - n), Pow2(32 - n), Pow2(n);
    ShiftedProduct(q, r, p, k);
    Remainder(q * 0xFFFF_FFFF, 0xFFFF_FFFF, q, 0);
  }

  /** `rr` undoes `rl`, and `rl` undoes `rr`. */
  lemma RotateUndone(x: Word, n: nat)
    requires 1 <= n <= 31
    ensures RotateRight(RotateLeft(x, n), n) == x
    ensures RotateLeft(RotateRight(x, n), n) == x
  {
    RotateBack(x, n);
    RotateBack(x, 32 - n);
    RotateMeans(x, 32 - n);
    RotateMeans(RotateLeft(x, 32 - n), n);
    RotateMeans(RotateLeft(x, n), 32 - n);
  }

  lemma RotateBack(x: Word, n: nat)
    requires 1 <= n <= 31
    ensures RotateLeft(RotateLeft(x, n), 32 - n) == x
  {
    hide Pow2, RotateLeft;
    Parts(x, n);
    RotateMeans(x, n);
    var q, r := x / Pow2(32 - n), x % Pow2(32 - n);
    var y := RotateLeft(x, n);
    RotateMeans(y, 32 - n);
    Remainder(y, Pow2(n), r, q);
  }

  /** The instructions `rli` and `rri` with the same count undo each other, whatever else the unit
      does; so do `rl` and `rr` on a register that holds the count. */
  lemma RotationsCancel(rest: Alu, regs: Registers, left: Instruction, right: Instruction, regs': Registers)
    requires left.code == 0x96 || left.code == 0x97
    requires right.code == left.code + 2 && right.second == left.first
    requires Operand(regs, left).Value? && 1 <= Operand(regs, left).value <= 31
    requires Operand(regs', right) == Operand(regs, left)
    requires With(rest)(regs, left).Write? && regs'[Index(regs', right.second)] == With(rest)(regs, left).value
    ensures With(rest)(regs', right) == Write(regs[Index(regs, left.second)])
  {
    hide GetByData, Index, RotateLeft, RotateRight;
    RotateUndone(regs[Index(regs, left.second)], Operand(regs, left).value);
  }

  // ----- Which code is which operation

  /** What two operands have to give, by code; the immediate forms are the odd codes. */
  ghost predicate Gives(code: Byte, a: Word, b: Word, w: Word) {
    if code == 0x60 || code == 0x61 then (w - a - b) % 0x1_0000_0000 == 0
    else if code == 0x62 || code == 0x63 then (w - a + b) % 0x1_0000_0000 == 0
    else if code == 0x64 || code == 0x65 then (w - a * b) % 0x1_0000_0000 == 0
    else if code == 0x68 || code == 0x69 then w * 0x1_0000_0000 <= a * b < w * 0x1_0000_0000 + 0x1_0000_0000
    else if code == 0x6a || code == 0x6b then w * b <= a < w * b + b
    else if code == 0x6c || code == 0x6d then w < b && exists q: nat :: a == q * b + w
    else if code == 0x96 || code == 0x97 then 1 <= b <= 31 && w == LeftBy(a, b)
    else (code == 0x98 || code == 0x99) && 1 <= b <= 31 && a == LeftBy(w, b)
  }

  /** The high `n` bits change places with the others. */
  function LeftBy(x: int, n: nat): int
    requires n <= 32
  {
    (x % Pow2(32 - n)) * Pow2(n) + x / Pow2(32 - n)
  }

  lemma WrapGives(x: int)
    ensures (Wrap(x) - x) % 0x1_0000_0000 == 0
  {
    var q := x / 0x1_0000_0000;
    assert Wrap(x) - x == 0x1_0000_0000 * -q;
  }

  lemma SumGives(a: Word, b: Word)
    ensures (Plus(a, b) - a - b) % 0x1_0000_0000 == 0
    ensures (Minus(a, b) - a + b) % 0x1_0000_0000 == 0
  {
    WrapGives(a as int + b as int);
    WrapGives(a as int - b as int);
  }

  lemma ProductGives(a: Word, b: Word)
    ensures (Wrap(a as int * b as int) - a * b) % 0x1_0000_0000 == 0
    ensures var h := (a * b) / WORD_LIMIT; h * 0x1_0000_0000 <= a * b < h * 0x1_0000_0000 + 0x1_0000_0000
  {
    NonNegative(a, b);
    WrapGives(a as int * b as int);
    Divides(a * b, 0x1_0000_0000);
  }

  lemma DivisionGives(a: Word, b: Word)
    requires b > 0
    ensures (a / b) * b <= a < (a / b) * b + b && a % b < b && exists q: nat :: a == q * b + a % b
  {
    Divides(a, b);
    Shrinks(a, b);
  }

  lemma RotationGives(a: Word, b: Word)
    requires 1 <= b <= 31
    ensures RotateLeft(a, b) == LeftBy(a, b) && LeftBy(RotateRight(a, b), b) == a
  {
    hide RotateLeft, RotateRight, Pow2;
    RotateMeans(a, b);
    RotateUndone(a, b);
    RotateMeans(RotateRight(a, b), b);
  }

  /** The result of each code is the sum, the difference, a half of the product, the quotient, the
      remainder, or the rotation it is named for; a divisor of zero interrupts with the dividend. */
  lemma OperateGives(code: Byte, a: Word, b: Word, rest: Effect)
    requires Covers(code)
    ensures var e := Operate(code, a, b, rest);
            if 0x6a <= code <= 0x6d && b == 0 then e == DivisionByZero(a)
            else if code >= 0x96 && !(1 <= b <= 31) then e == rest
            else e.Write? && Gives(code, a, b, e.value)
  {
    hide RotateLeft, RotateRight, LeftBy;
    SumGives(a, b);
    ProductGives(a, b);
    if b > 0 {
      DivisionGives(a, b);
    }
    if 1 <= b <= 31 {
      RotationGives(a, b);
    }
  }

  /** The operands: the second register, and the data, or in the even codes the register it numbers. */
  lemma CodesMean(rest: Alu, regs: Registers, inst: Instruction)
    requires inst.code in {0x60, 0x61, 0x62, 0x63, 0x64, 0x65, 0x68, 0x69, 0x6a, 0x6b, 0x6c, 0x6d,
                           0x96, 0x97, 0x98, 0x99}
    ensures var e, a := With(rest)(regs, inst), regs[Index(regs, inst.second)];
            match if inst.code % 2 == 1 then Value(inst.data as Word) else GetByData(Machine(regs, [], true), inst.data)
            case OutOfRange(bad) => e == BadRegister(bad)
            case Value(b) =>
              if 0x6a <= inst.code <= 0x6d && b == 0 then e == DivisionByZero(a)
              else if inst.code >= 0x96 && !(1 <= b <= 31) then e == rest(regs, inst)
              else e.Write? && Gives(inst.code, a, b, e.value)
  {
    hide GetByData, Index, Operate, Gives;
    var b := Operand(regs, inst);
    if b.Value? {
      OperateGives(inst.code, regs[Index(regs, inst.second)], b.value, rest(regs, inst));
    }
  }
}
