/** Machine integers of the Simple World CPU: unsigned 32-bit words and bytes. */
module Words {

  const WORD_LIMIT: int := 0x1_0000_0000

  type Byte = b: int | 0 <= b < 0x100
  type HalfWord = h: int | 0 <= h < 0x1_0000
  type Word = w: int | 0 <= w < WORD_LIMIT

  /** A cycle of the world. */
  type Time = Word

  /** Reduction to 32 bits: what assigning any integer to a `Uint32` stores. */
  function Wrap(x: int): Word {
    x % WORD_LIMIT
  }

  /** 32-bit addition of a word and any displacement. */
  function Plus(w: Word, d: int): Word {
    Wrap(w as int + d)
  }

  /** 32-bit subtraction. */
  function Minus(a: Word, b: Word): Word {
    Wrap(a as int - b as int)
  }

  /** A 16-bit immediate read as the signed `Offset`. */
  function SignedOffset(data: HalfWord): int {
    if data < 0x8000 then data else data - 0x1_0000
  }

  function Min(a: int, b: int): int {
    if a <= b then a else b
  }

  lemma Multiples(d: int, m: int)
    requires m > 0
    ensures d >= 1 ==> d * m >= m
    ensures d <= -1 ==> d * m <= -m
  {
    if d >= 1 {
      assert (d - 1) * m >= 0;
      assert (d - 1) * m == d * m - m;
    } else if d <= -1 {
      assert (-1 - d) * m >= 0;
      assert (-1 - d) * m == -m - d * m;
    }
  }

  /** Quotient and remainder are unique. */
  lemma Remainder(v: int, m: int, q: int, r: int)
    requires v == q * m + r && 0 <= r < m
    ensures v % m == r && v / m == q
  {
    var d := v / m - q;
    assert d * m == r - v % m;
    Multiples(d, m);
  }
}
