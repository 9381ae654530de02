/**
 SHA-256 as FIPS 180-4 defines it: functions, constants, padding, message schedule and
 hash computation. Nothing in this module follows the browser's code.
 */
module Fips180 {
  import opened BigEndians
  import opened JsNumbers

  // ---------------------------------------------------------------- FIPS 180-4, sections 3.2 and 4.1.2

  function Rotr(x: Word, n: nat): Word
    requires 0 < n < 32
  {
    Or(Shr(x, n), Shl(x, 32 - n))
  }

  function Ch(x: Word, y: Word, z: Word): Word { Xor(And(x, y), And(Not(x), z)) }

  function Maj(x: Word, y: Word, z: Word): Word { Xor(Xor(And(x, y), And(x, z)), And(y, z)) }

  function BigSigma0(x: Word): Word { Xor(Xor(Rotr(x, 2), Rotr(x, 13)), Rotr(x, 22)) }

  function BigSigma1(x: Word): Word { Xor(Xor(Rotr(x, 6), Rotr(x, 11)), Rotr(x, 25)) }

  function SmallSigma0(x: Word): Word { Xor(Xor(Rotr(x, 7), Rotr(x, 18)), Shr(x, 3)) }

  function SmallSigma1(x: Word): Word { Xor(Xor(Rotr(x, 17), Rotr(x, 19)), Shr(x, 10)) }

  // ---------------------------------------------------------------- constants

  /** Constants beside the prime numbers they come from. */
  datatype Table = End | Row(word: Word, prime: nat, rest: Table)

  function Rows(t: Table): nat { if t.End? then 0 else 1 + Rows(t.rest) }

  function RowAt(t: Table, i: nat): (row: Table)
    requires i < Rows(t)
    ensures row.Row?
  {
    if i == 0 then t else RowAt(t.rest, i - 1)
  }

  /** Section 4.2.2, in eight parts. */
  const CONSTANTS_0: Table :=
    Row(0x428a2f98, 2, Row(0x71374491, 3, Row(0xb5c0fbcf, 5, Row(0xe9b5dba5, 7,
    Row(0x3956c25b, 11, Row(0x59f111f1, 13, Row(0x923f82a4, 17, Row(0xab1c5ed5, 19,
    End))))))))

  const CONSTANTS_8: Table :=
    Row(0xd807aa98, 23, Row(0x12835b01, 29, Row(0x243185be, 31, Row(0x550c7dc3, 37,
    Row(0x72be5d74, 41, Row(0x80deb1fe, 43, Row(0x9bdc06a7, 47, Row(0xc19bf174, 53,
    End))))))))

  const CONSTANTS_16: Table :=
    Row(0xe49b69c1, 59, Row(0xefbe4786, 61, Row(0x0fc19dc6, 67, Row(0x240ca1cc, 71,
    Row(0x2de92c6f, 73, Row(0x4a7484aa, 79, Row(0x5cb0a9dc, 83, Row(0x76f988da, 89,
    End))))))))

  const CONSTANTS_24: Table :=
    Row(0x983e5152, 97, Row(0xa831c66d, 101, Row(0xb00327c8, 103, Row(0xbf597fc7, 107,
    Row(0xc6e00bf3, 109, Row(0xd5a79147, 113, Row(0x06ca6351, 127, Row(0x14292967, 131,
    End))))))))

  const CONSTANTS_32: Table :=
    Row(0x27b70a85, 137, Row(0x2e1b2138, 139, Row(0x4d2c6dfc, 149, Row(0x53380d13, 151,
    Row(0x650a7354, 157, Row(0x766a0abb, 163, Row(0x81c2c92e, 167, Row(0x92722c85, 173,
    End))))))))

  const CONSTANTS_40: Table :=
    Row(0xa2bfe8a1, 179, Row(0xa81a664b, 181, Row(0xc24b8b70, 191, Row(0xc76c51a3, 193,
    Row(0xd192e819, 197, Row(0xd6990624, 199, Row(0xf40e3585, 211, Row(0x106aa070, 223,
    End))))))))

  const CONSTANTS_48: Table :=
    Row(0x19a4c116, 227, Row(0x1e376c08, 229, Row(0x2748774c, 233, Row(0x34b0bcb5, 239,
    Row(0x391c0cb3, 241, Row(0x4ed8aa4a, 251, Row(0x5b9cca4f, 257, Row(0x682e6ff3, 263,
    End))))))))

  const CONSTANTS_56: Table :=
    Row(0x748f82ee, 269, Row(0x78a5636f, 271, Row(0x84c87814, 277, Row(0x8cc70208, 281,
    Row(0x90befffa, 283, Row(0xa4506ceb, 293, Row(0xbef9a3f7, 307, Row(0xc67178f2, 311,
    End))))))))

  /** Section 5.3.3. */
  const INITIAL_WORDS: Table :=
    Row(0x6a09e667, 2, Row(0xbb67ae85, 3, Row(0x3c6ef372, 5, Row(0xa54ff53a, 7,
    Row(0x510e527f, 11, Row(0x9b05688c, 13, Row(0x1f83d9ab, 17, Row(0x5be0cd19, 19,
    End))))))))

  function Constants(part: nat): Table {
    match part {
      case 0 => CONSTANTS_0 case 1 => CONSTANTS_8 case 2 => CONSTANTS_16 case 3 => CONSTANTS_24
      case 4 => CONSTANTS_32 case 5 => CONSTANTS_40 case 6 => CONSTANTS_48 case _ => CONSTANTS_56
    }
  }

  lemma TableSizes()
    ensures Rows(INITIAL_WORDS) == 8
    ensures forall part: nat :: Rows(Constants(part)) == 8
  {
    assert Rows(CONSTANTS_0) == 8 && Rows(CONSTANTS_8) == 8 && Rows(CONSTANTS_16) == 8 && Rows(CONSTANTS_24) == 8;
    assert Rows(CONSTANTS_32) == 8 && Rows(CONSTANTS_40) == 8 && Rows(CONSTANTS_48) == 8 && Rows(CONSTANTS_56) == 8;
  }

  function K(t: nat): Word
    requires t < 64
  {
    TableSizes();
    RowAt(Constants(t / 8), t % 8).word
  }

  function Prime(t: nat): nat
    requires t < 64
  {
    TableSizes();
    RowAt(Constants(t / 8), t % 8).prime
  }

  function H0(t: nat): Word
    requires t < 8
  {
    TableSizes();
    RowAt(INITIAL_WORDS, t).word
  }

  const INITIAL: Registers := Registers(H0(0), H0(1), H0(2), H0(3), H0(4), H0(5), H0(6), H0(7))

  function Cube(x: int): int { x * x * x }

  function Square(x: int): int { x * x }

  function CubeRoot(p: nat): nat {
    if p < 8 then 1 else if p < 27 then 2 else if p < 64 then 3
    else if p < 125 then 4 else if p < 216 then 5 else 6
  }

  function SquareRoot(p: nat): nat {
    if p < 4 then 1 else if p < 9 then 2 else if p < 16 then 3 else 4
  }

  /** `w` is the first 32 bits of the fractional part of the cube root of `p`, whose integer part is `r`. */
  predicate CubeRootFraction(w: Word, p: nat, r: nat) {
    && Cube(r) <= p < Cube(r + 1)
    && Cube(r * TWO_32 + w) <= p * Cube(TWO_32) < Cube(r * TWO_32 + w + 1)
  }

  predicate SquareRootFraction(w: Word, p: nat, r: nat) {
    && Square(r) <= p < Square(r + 1)
    && Square(r * TWO_32 + w) <= p * Square(TWO_32) < Square(r * TWO_32 + w + 1)
  }

  predicate CubeRootsIn(t: Table) {
    t.End? || (CubeRootFraction(t.word, t.prime, CubeRoot(t.prime)) && CubeRootsIn(t.rest))
  }

  predicate SquareRootsIn(t: Table) {
    t.End? || (SquareRootFraction(t.word, t.prime, SquareRoot(t.prime)) && SquareRootsIn(t.rest))
  }

  lemma FirstConstants()
    ensures CubeRootsIn(CONSTANTS_0) && CubeRootsIn(CONSTANTS_8)
  {}

  lemma SecondConstants()
    ensures CubeRootsIn(CONSTANTS_16) && CubeRootsIn(CONSTANTS_24)
  {}

  lemma ThirdConstants()
    ensures CubeRootsIn(CONSTANTS_32) && CubeRootsIn(CONSTANTS_40)
  {}

  lemma LastConstants()
    ensures CubeRootsIn(CONSTANTS_48) && CubeRootsIn(CONSTANTS_56)
  {}

  lemma {:induction false} RootsAt(t: Table, i: nat)
    requires i < Rows(t) && CubeRootsIn(t)
    ensures var row := RowAt(t, i); CubeRootFraction(row.word, row.prime, CubeRoot(row.prime))
  {
    if i > 0 { RootsAt(t.rest, i - 1); }
  }

  /** Each constant is the first 32 fractional bits of the cube root of the prime beside it. */
  lemma ConstantsAreCubeRoots(t: nat)
    requires t < 64
    ensures CubeRootFraction(K(t), Prime(t), CubeRoot(Prime(t)))
  {
    TableSizes();
    FirstConstants();
    SecondConstants();
    ThirdConstants();
    LastConstants();
    hide CubeRootsIn, Rows;
    RootsAt(Constants(t / 8), t % 8);
  }

  lemma InitialWordsAreSquareRoots()
    ensures SquareRootsIn(INITIAL_WORDS)
    ensures forall t: nat :: t < 8 ==> RowAt(INITIAL_WORDS, t).prime == Prime(t)
  {
    TableSizes();
    forall t: nat | t < 8 ensures RowAt(INITIAL_WORDS, t).prime == Prime(t) { SamePrimes(t); }
  }

  lemma SamePrimes(t: nat)
    requires t < 8
    ensures t < Rows(INITIAL_WORDS) && RowAt(INITIAL_WORDS, t).prime == Prime(t)
  {
    TableSizes();
    assert t / 8 == 0 && t % 8 == t;
    if t == 0 {
    } else if t == 1 {
    } else if t == 2 {
    } else if t == 3 {
    } else if t == 4 {
    } else if t == 5 {
    } else if t == 6 {
    } else {
      assert t == 7;
    }
  }

  // ---------------------------------------------------------------- section 5.1.1, padding

  function Zeros(n: nat): seq<byte> { seq(n, _ => 0) }

  /** The number of zero bits after the 1 bit. */
  function ZeroBits(l: nat): nat { (447 - l) % 512 }

  function BitLength(m: seq<byte>): nat { 8 * |m| }

  function Padded(m: seq<byte>): seq<byte> {
    m + [0x80] + Zeros(ZeroBits(BitLength(m)) / 8) + Bytes(BitLength(m), 8)
  }

  lemma PaddedLength(m: seq<byte>)
    ensures |Padded(m)| % 64 == 0
    ensures |Padded(m)| == |m| + 1 + ZeroBits(BitLength(m)) / 8 + 8
  {
    var n, z := |m|, ZeroBits(8 * |m|);
    assert 447 - 8 * n == 512 * ((447 - 8 * n) / 512) + z;
    assert n + 1 + z / 8 + 8 == 64 * (1 - (447 - 8 * n) / 512);
  }

  /** Most significant bit first. */
  function NumberBits(n: nat, width: nat): seq<bool> {
    if width == 0 then [] else NumberBits(n / 2, width - 1) + [n % 2 == 1]
  }

  function Bits(s: seq<byte>): seq<bool> {
    if s == [] then [] else NumberBits(s[0], 8) + Bits(s[1..])
  }

  function ZeroBitString(n: nat): seq<bool> { seq(n, _ => false) }

  lemma {:induction false} BitsOfConcat(s: seq<byte>, t: seq<byte>)
    ensures Bits(s + t) == Bits(s) + Bits(t)
  {
    hide NumberBits;
    if s == [] {
      assert s + t == t;
    } else {
      BitsOfConcat(s[1..], t);
      assert (s + t)[1..] == s[1..] + t && (s + t)[0] == s[0];
      assert Bits(s + t) == NumberBits(s[0], 8) + Bits(s[1..] + t);
    }
  }

  lemma {:induction false} BitsOfZeros(n: nat)
    ensures Bits(Zeros(n)) == ZeroBitString(8 * n)
  {
    if n > 0 {
      BitsOfZeros(n - 1);
      assert Zeros(n)[1..] == Zeros(n - 1);
      ZeroNumberBits(8);
      assert ZeroBitString(8) + ZeroBitString(8 * (n - 1)) == ZeroBitString(8 * n);
    }
  }

  lemma {:induction false} ZeroNumberBits(w: nat)
    ensures NumberBits(0, w) == ZeroBitString(w)
  {
    if w > 0 { ZeroNumberBits(w - 1); }
  }

  lemma Halve(n: nat, high: nat, half: nat, rest: nat)
    requires n == high * (2 * half) + rest
    ensures n / 2 == high * half + rest / 2 && n % 2 == rest % 2
  {
    ghost var x := high * half;
    assert high * (2 * half) == 2 * x;
  }

  lemma {:induction false} NumberBitsSplit(n: nat, high: nat, w: nat, rest: nat, low: nat)
    requires rest < Power2(low) && n == high * Power2(low) + rest
    ensures NumberBits(n, w + low) == NumberBits(high, w) + NumberBits(rest, low)
  {
    if low > 0 {
      ghost var half := Power2(low - 1);
      assert Power2(low) == 2 * half;
      Halve(n, high, half, rest);
      NumberBitsSplit(n / 2, high, w, rest / 2, low - 1);
    }
  }

  function Power2(n: nat): (r: nat)
    ensures r >= 1
  {
    if n == 0 then 1 else 2 * Power2(n - 1)
  }

  lemma {:induction false} BitsOfBytes(x: nat, n: nat)
    ensures Bits(Bytes(x, n)) == NumberBits(x, 8 * n)
  {
    if n > 0 {
      BitsOfBytes(x / 256, n - 1);
      BitsOfConcat(Bytes(x / 256, n - 1), [x % 256]);
      assert Bits([x % 256]) == NumberBits(x % 256, 8) by { assert [x % 256][1..] == []; }
      assert Power2(8) == 256;
      NumberBitsSplit(x, x / 256, 8 * (n - 1), x % 256, 8);
    }
  }

  lemma {:induction false} TopBit(w: nat)
    ensures NumberBits(Power2(w), w + 1) == [true] + ZeroBitString(w)
  {
    if w > 0 {
      TopBit(w - 1);
      assert ZeroBitString(w) == ZeroBitString(w - 1) + [false];
    } else {
      assert NumberBits(1, 1) == NumberBits(0, 0) + [true];
    }
  }

  /** The number of zeros is the least that brings the length to 448 modulo 512. */
  lemma ZeroBitsIsLeast(l: nat, k: nat)
    requires (l + 1 + k) % 512 == 448
    ensures (l + 1 + ZeroBits(l)) % 512 == 448 && ZeroBits(l) <= k
  {
    var q, z := (447 - l) / 512, ZeroBits(l);
    assert 447 - l == 512 * q + z;
    assert l + 1 + z == 512 * (-q) + 448;
  }

  /**
   Section 5.1.1 read on bits: the message, a 1, the zeros, and the length as 64 bits
   (`NumberBits` keeps the low 64 bits of a longer length).
   */
  lemma PaddingIsTheStandards(m: seq<byte>)
    ensures Bits(Padded(m)) == Bits(m) + [true] + ZeroBitString(ZeroBits(BitLength(m))) + NumberBits(BitLength(m), 64)
  {
    var l := BitLength(m);
    var zeros := ZeroBits(l) / 8;
    assert ZeroBits(l) == 8 * zeros + 7 by { PaddedLength(m); }
    BitsOf80();
    BitsOfZeros(zeros);
    BitsOfBytes(l, 8);
    BitsOfConcat(m + [0x80] + Zeros(zeros), Bytes(l, 8));
    BitsOfConcat(m + [0x80], Zeros(zeros));
    BitsOfConcat(m, [0x80]);
    assert ZeroBitString(7) + ZeroBitString(8 * zeros) == ZeroBitString(ZeroBits(l));
    hide Bits, NumberBits, Bytes, ZeroBits;
    var one, low, high := [true], ZeroBitString(7), ZeroBitString(8 * zeros);
    assert Bits(m) + (one + low) + high == Bits(m) + one + (low + high);
  }

  lemma BitsOf80()
    ensures Bits([0x80]) == [true] + ZeroBitString(7)
  {
    TopBit(7);
    assert Power2(7) == 0x80;
    var s: seq<byte> := [0x80];
    assert s[1..] == [];
  }

  // ---------------------------------------------------------------- section 6.2.2

  datatype Registers = Registers(a: Word, b: Word, c: Word, d: Word, e: Word, f: Word, g: Word, h: Word)

  function WordOf(s: seq<byte>): Word
    requires |s| == 4
  {
    BigEndianBound(s);
    Powers();
    BigEndian(s)
  }

  /** The message schedule word W_t of one 64-byte block. */
  function W(block: seq<byte>, t: nat): Word
    requires |block| == 64 && t < 64
  {
    if t < 16 then WordOf(block[4 * t..4 * t + 4])
    else (SmallSigma1(W(block, t - 2)) + W(block, t - 7) + SmallSigma0(W(block, t - 15)) + W(block, t - 16)) % TWO_32
  }

  function Round(r: Registers, k: Word, w: Word): Registers {
    hide Rotr, Ch, Maj, BigSigma0, BigSigma1;
    var t1 := (r.h + BigSigma1(r.e) + Ch(r.e, r.f, r.g) + k + w) % TWO_32;
    var t2 := (BigSigma0(r.a) + Maj(r.a, r.b, r.c)) % TWO_32;
    Registers((t1 + t2) % TWO_32, r.a, r.b, r.c, (r.d + t1) % TWO_32, r.e, r.f, r.g)
  }

  function Rounds(r: Registers, block: seq<byte>, t: nat): Registers
    requires |block| == 64 && t <= 64
  {
    if t == 0 then r else Round(Rounds(r, block, t - 1), K(t - 1), W(block, t - 1))
  }

  function Sum(x: Registers, y: Registers): Registers {
    Registers((x.a + y.a) % TWO_32, (x.b + y.b) % TWO_32, (x.c + y.c) % TWO_32, (x.d + y.d) % TWO_32,
              (x.e + y.e) % TWO_32, (x.f + y.f) % TWO_32, (x.g + y.g) % TWO_32, (x.h + y.h) % TWO_32)
  }

  /** The hash value after the first `n` blocks of a padded message. */
  function HashAfter(message: seq<byte>, n: nat): Registers
    requires 64 * n <= |message|
  {
    hide Rounds, Sum;
    if n == 0 then INITIAL
    else
      var h := HashAfter(message, n - 1);
      Sum(h, Rounds(h, message[64 * (n - 1)..64 * n], 64))
  }

  function Serialized(r: Registers): (s: seq<byte>)
    ensures |s| == 32
  {
    Bytes(r.a, 4) + Bytes(r.b, 4) + Bytes(r.c, 4) + Bytes(r.d, 4) +
    Bytes(r.e, 4) + Bytes(r.f, 4) + Bytes(r.g, 4) + Bytes(r.h, 4)
  }

  function Digest(m: seq<byte>): (s: seq<byte>)
    ensures |s| == 32
  {
    PaddedLength(m);
    Serialized(HashAfter(Padded(m), |Padded(m)| / 64))
  }
}
