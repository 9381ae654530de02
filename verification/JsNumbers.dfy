/**
 JavaScript numbers as far as the hand-written crypto uses them: exact integers, converted
 to 32 bits by every bitwise operator. Only `>>>` gives an unsigned result.
 */
module JsNumbers {
  /** A UTF-16 code unit. */
  type Code = x: int | 0 <= x < 65536

  const TWO_31: int := 0x8000_0000
  const TWO_32: int := 0x1_0000_0000

  type Word = x: int | 0 <= x < 0x1_0000_0000

  function ToUint32(x: int): Word { x % TWO_32 }

  function ToInt32(x: int): int {
    var w := x % TWO_32;
    if w >= TWO_31 then w - TWO_32 else w
  }

  /** How many multiples of 2^32 the signed conversion adds. */
  function Wraps(x: int): int { -(x / TWO_32) - if x % TWO_32 >= TWO_31 then 1 else 0 }

  lemma ToInt32Wraps(x: int)
    ensures ToInt32(x) == x + TWO_32 * Wraps(x)
  {}

  /** The signed 32-bit number with the same residue, and no other. */
  lemma ToInt32Exactly(x: int, r: int)
    ensures r == ToInt32(x) <==> -0x8000_0000 <= r < 0x8000_0000 && (x - r) % 0x1_0000_0000 == 0
  {}

  // ---------------------------------------------------------------- operations on words

  function Xor(a: Word, b: Word): Word { ((a as bv32) ^ (b as bv32)) as int }

  function And(a: Word, b: Word): Word { ((a as bv32) & (b as bv32)) as int }

  function Or(a: Word, b: Word): Word { ((a as bv32) | (b as bv32)) as int }

  function Not(a: Word): Word { (!(a as bv32)) as int }

  function Shr(a: Word, n: nat): Word
    requires n <= 32
  {
    ((a as bv32) >> n) as int
  }

  function Shl(a: Word, n: nat): Word
    requires n <= 32
  {
    ((a as bv32) << n) as int
  }

  // ---------------------------------------------------------------- JavaScript operators

  function JsXor(a: int, b: int): int { ToInt32(Xor(ToUint32(a), ToUint32(b))) }

  function JsAnd(a: int, b: int): int { ToInt32(And(ToUint32(a), ToUint32(b))) }

  function JsOr(a: int, b: int): int { ToInt32(Or(ToUint32(a), ToUint32(b))) }

  function JsNot(a: int): int { ToInt32(Not(ToUint32(a))) }

  /** `a >>> n` */
  function JsShr(a: int, n: nat): int
    requires n < 32
  {
    Shr(ToUint32(a), n)
  }

  /** `a << n` */
  function JsShl(a: int, n: nat): int
    requires n < 32
  {
    ToInt32(Shl(ToUint32(a), n))
  }
}
