/** Byte memory with big-endian words, half words and quarter words (simpleworld/cpu/memory.cpp),
    on a little-endian host. */
module MemoryModel {
  import opened Words

  type Bytes = s: seq<Byte> | |s| < WORD_LIMIT witness []

  /** The value of an access, or the address a `MemoryError` carries. */
  datatype Access<+T> = Value(value: T) | OutOfRange(address: Word)

  /** The bounds check of every access: `n` bytes from `a` exist. */
  predicate InRange(m: Bytes, a: Word, n: nat) {
    a + n <= |m|
  }

  function Join(b0: Byte, b1: Byte, b2: Byte, b3: Byte): Word {
    ((b0 * 0x100 + b1) * 0x100 + b2) * 0x100 + b3
  }

  function JoinHalf(b0: Byte, b1: Byte): HalfWord {
    b0 * 0x100 + b1
  }

  /** Byte `k` of a word, the most significant one first. */
  function ByteOf(w: Word, k: nat): Byte
    requires k < 4
  {
    if k == 0 then w / 0x100_0000
    else if k == 1 then w / 0x1_0000 % 0x100
    else if k == 2 then w / 0x100 % 0x100
    else w % 0x100
  }

  /** `change_byte_order`: the four bytes in reverse order. */
  function Swap(w: Word): Word {
    Join(ByteOf(w, 3), ByteOf(w, 2), ByteOf(w, 1), ByteOf(w, 0))
  }

  function SwapHalf(h: HalfWord): HalfWord {
    h % 0x100 * 0x100 + h / 0x100
  }

  function WordAt(m: Bytes, a: Word): Word
    requires InRange(m, a, 4)
  {
    Join(m[a], m[a + 1], m[a + 2], m[a + 3])
  }

  function HalfAt(m: Bytes, a: Word): HalfWord
    requires InRange(m, a, 2)
  {
    JoinHalf(m[a], m[a + 1])
  }

  function PutWord(m: Bytes, a: Word, w: Word): (r: Bytes)
    requires InRange(m, a, 4)
    ensures |r| == |m|
  {
    m[a := ByteOf(w, 0)][a + 1 := ByteOf(w, 1)][a + 2 := ByteOf(w, 2)][a + 3 := ByteOf(w, 3)]
  }

  function PutHalf(m: Bytes, a: Word, h: HalfWord): (r: Bytes)
    requires InRange(m, a, 2)
    ensures |r| == |m|
  {
    m[a := h / 0x100][a + 1 := h % 0x100]
  }

  /** What the host does when it stores through a pointer: the least significant byte first. */
  function PutNative(m: Bytes, a: Word, w: Word): (r: Bytes)
    requires InRange(m, a, 4)
    ensures |r| == |m|
  {
    m[a := ByteOf(w, 3)][a + 1 := ByteOf(w, 2)][a + 2 := ByteOf(w, 1)][a + 3 := ByteOf(w, 0)]
  }

  function PutNativeHalf(m: Bytes, a: Word, h: HalfWord): (r: Bytes)
    requires InRange(m, a, 2)
    ensures |r| == |m|
  {
    m[a := h % 0x100][a + 1 := h / 0x100]
  }

  /** `resize`: the common prefix is kept and the rest is zero. */
  function Resized(m: Bytes, size: Word): (r: Bytes)
    ensures |r| == size
    ensures forall i :: 0 <= i < size ==> r[i] == if i < |m| then m[i] else 0
  {
    seq(size, i requires 0 <= i < size => if i < |m| then m[i] else 0)
  }

  // ----- Byte order

  lemma SplitJoin(w: Word)
    ensures Join(ByteOf(w, 0), ByteOf(w, 1), ByteOf(w, 2), ByteOf(w, 3)) == w
  {
    var q := w / 0x100;
    var p := q / 0x100;
    assert w / 0x1_0000 == p && p / 0x100 == w / 0x100_0000;
    assert w == q * 0x100 + w % 0x100 && q == p * 0x100 + q % 0x100;
  }

  lemma JoinSplit(b0: Byte, b1: Byte, b2: Byte, b3: Byte)
    ensures var w := Join(b0, b1, b2, b3);
            ByteOf(w, 0) == b0 && ByteOf(w, 1) == b1 && ByteOf(w, 2) == b2 && ByteOf(w, 3) == b3
  {
    var w := Join(b0, b1, b2, b3);
    assert w / 0x100 == (b0 * 0x100 + b1) * 0x100 + b2;
    assert w / 0x1_0000 == b0 * 0x100 + b1;
  }

  lemma SwapJoinedHalf(b0: Byte, b1: Byte)
    ensures SwapHalf(JoinHalf(b0, b1)) == JoinHalf(b1, b0)
  {
    assert JoinHalf(b0, b1) / 0x100 == b0 && JoinHalf(b0, b1) % 0x100 == b1;
  }

  /** Reversing the byte order twice gives the word back. */
  lemma SwapTwice(w: Word)
    ensures Swap(Swap(w)) == w
  {
    JoinSplit(ByteOf(w, 3), ByteOf(w, 2), ByteOf(w, 1), ByteOf(w, 0));
    SplitJoin(w);
  }

  /** Storing the reversed word natively is storing the word big endian. */
  lemma NativeIsSwapped(m: Bytes, a: Word, w: Word)
    requires InRange(m, a, 4)
    ensures PutNative(m, a, Swap(w)) == PutWord(m, a, w)
    ensures PutNative(m, a, w) == PutWord(m, a, Swap(w))
  {
    JoinSplit(ByteOf(w, 3), ByteOf(w, 2), ByteOf(w, 1), ByteOf(w, 0));
  }

  lemma NativeHalfIsSwapped(m: Bytes, a: Word, h: HalfWord)
    requires InRange(m, a, 2)
    ensures PutNativeHalf(m, a, SwapHalf(h)) == PutHalf(m, a, h)
    ensures PutNativeHalf(m, a, h) == PutHalf(m, a, SwapHalf(h))
  {
  }

  // ----- One array of bytes, three views

  /** A stored word is read back, and every byte outside its four is untouched. */
  lemma WordRoundTrip(m: Bytes, a: Word, w: Word)
    requires InRange(m, a, 4)
    ensures WordAt(PutWord(m, a, w), a) == w
    ensures forall i :: 0 <= i < |m| && !(a <= i < a + 4) ==> PutWord(m, a, w)[i] == m[i]
  {
    SplitJoin(w);
  }

  /** A word is its two halves, read or written. */
  lemma WordIsTwoHalves(m: Bytes, a: Word, hi: HalfWord, lo: HalfWord)
    requires InRange(m, a, 4)
    ensures WordAt(m, a) == HalfAt(m, a) * 0x1_0000 + HalfAt(m, a + 2)
    ensures PutWord(m, a, hi * 0x1_0000 + lo) == PutHalf(PutHalf(m, a, hi), a + 2, lo)
  {
    JoinSplit(hi / 0x100, hi % 0x100, lo / 0x100, lo % 0x100);
    assert Join(hi / 0x100, hi % 0x100, lo / 0x100, lo % 0x100) == hi * 0x1_0000 + lo;
  }

  /** Writes to disjoint places commute and do not see each other. */
  lemma DisjointWords(m: Bytes, a: Word, v: Word, b: Word, w: Word)
    requires InRange(m, a, 4) && InRange(m, b, 4)
    requires a + 4 <= b || b + 4 <= a
    ensures WordAt(PutWord(m, a, v), b) == WordAt(m, b)
    ensures PutWord(PutWord(m, a, v), b, w) == PutWord(PutWord(m, b, w), a, v)
  {
  }

  /** Word-aligned accesses see a byte memory as an array of words: this is why the
      register memory, only ever used at `ADDRESS(reg)`, is an array of words below. */
  lemma AlignedWords(m: Bytes, i: nat, w: Word, j: nat)
    requires 4 * i + 4 <= |m| && 4 * j + 4 <= |m|
    ensures WordAt(PutWord(m, 4 * i, w), 4 * j) == if i == j then w else WordAt(m, 4 * j)
  {
    SplitJoin(w);
  }

  /** The host finds the first byte of memory in the least significant byte of a raw word. */
  lemma RawBytes(m: Bytes, a: Word)
    requires InRange(m, a, 4)
    ensures var w := Swap(WordAt(m, a));
            ByteOf(w, 3) == m[a] && ByteOf(w, 2) == m[a + 1] && ByteOf(w, 1) == m[a + 2] && ByteOf(w, 0) == m[a + 3]
  {
    JoinSplit(m[a], m[a + 1], m[a + 2], m[a + 3]);
    JoinSplit(m[a + 3], m[a + 2], m[a + 1], m[a]);
  }

  // ----- The class

  class Memory {
    var bytes: Bytes

    constructor (size: Word)
      ensures bytes == Resized([], size)
    {
      bytes := Resized([], size);
    }

    method Resize(size: Word)
      modifies this
      ensures bytes == Resized(old(bytes), size)
    {
      bytes := Resized(bytes, size);
    }

    /** With `systemEndian` the word is returned in the order of the host, otherwise the four
        stored bytes are handed over raw, which a little-endian host sees reversed. */
    method GetWord(address: Word, systemEndian: bool) returns (r: Access<Word>)
      ensures r == if !InRange(bytes, address, 4) then OutOfRange(address)
                   else Value(if systemEndian then WordAt(bytes, address) else Swap(WordAt(bytes, address)))
    {
      if address > |bytes| || address + 4 > |bytes| {
        return OutOfRange(address);
      }
      var raw := Join(bytes[address + 3], bytes[address + 2], bytes[address + 1], bytes[address]);
      JoinSplit(bytes[address + 3], bytes[address + 2], bytes[address + 1], bytes[address]);
      JoinSplit(bytes[address], bytes[address + 1], bytes[address + 2], bytes[address + 3]);
      return Value(if systemEndian then Swap(raw) else raw);
    }

    method GetHalfWord(address: Word, systemEndian: bool) returns (r: Access<HalfWord>)
      ensures r == if !InRange(bytes, address, 2) then OutOfRange(address)
                   else Value(if systemEndian then HalfAt(bytes, address) else SwapHalf(HalfAt(bytes, address)))
    {
      if address > |bytes| || address + 2 > |bytes| {
        return OutOfRange(address);
      }
      var raw := JoinHalf(bytes[address + 1], bytes[address]);
      SwapJoinedHalf(bytes[address], bytes[address + 1]);
      SwapJoinedHalf(bytes[address + 1], bytes[address]);
      return Value(if systemEndian then SwapHalf(raw) else raw);
    }

    method GetQuarterWord(address: Word) returns (r: Access<Byte>)
      ensures r == if InRange(bytes, address, 1) then Value(bytes[address]) else OutOfRange(address)
    {
      if address > |bytes| || address + 1 > |bytes| {
        return OutOfRange(address);
      }
      return Value(bytes[address]);
    }

    /** A failed write leaves the memory as it was. */
    method SetWord(address: Word, value: Word, systemEndian: bool) returns (r: Access<()>)
      modifies this
      ensures r == if InRange(old(bytes), address, 4) then Value(()) else OutOfRange(address)
      ensures bytes == if r.OutOfRange? then old(bytes)
                       else PutWord(old(bytes), address, if systemEndian then value else Swap(value))
    {
      if address > |bytes| || address + 4 > |bytes| {
        return OutOfRange(address);
      }
      NativeIsSwapped(bytes, address, value);
      bytes := PutNative(bytes, address, if systemEndian then Swap(value) else value);
      return Value(());
    }

    method SetHalfWord(address: Word, value: HalfWord, systemEndian: bool) returns (r: Access<()>)
      modifies this
      ensures r == if InRange(old(bytes), address, 2) then Value(()) else OutOfRange(address)
      ensures bytes == if r.OutOfRange? then old(bytes)
                       else PutHalf(old(bytes), address, if systemEndian then value else SwapHalf(value))
    {
      if address > |bytes| || address + 2 > |bytes| {
        return OutOfRange(address);
      }
      NativeHalfIsSwapped(bytes, address, value);
      bytes := PutNativeHalf(bytes, address, if systemEndian then SwapHalf(value) else value);
      return Value(());
    }

    method SetQuarterWord(address: Word, value: Byte) returns (r: Access<()>)
      modifies this
      ensures r == if InRange(old(bytes), address, 1) then Value(()) else OutOfRange(address)
      ensures bytes == if r.OutOfRange? then old(bytes) else old(bytes)[address := value]
    {
      if address > |bytes| || address + 1 > |bytes| {
        return OutOfRange(address);
      }
      bytes := bytes[address := value];
      return Value(());
    }

    method Assign(memory: Memory)
      modifies this
      ensures bytes == old(memory.bytes)
    {
      var source := memory.bytes;
      Resize(|source|);
      bytes := source;
    }
  }
}
