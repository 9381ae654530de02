/**
 The operations of section 3.2 and the functions of section 4.1.2 of FIPS 180-4 on 32-bit
 vectors and on words with one bit set, where rotations and shifts can be read off.
 */
module Fips180Bits {
  import opened BigEndians
  import opened JsNumbers
  import opened Fips180

  function Vector(x: Word): bv32 { x as bv32 }

  lemma NotOnBits(x: Word)
    ensures Vector(Not(x)) == !Vector(x)
  {}

  lemma AndOnBits(x: Word, y: Word)
    ensures Vector(And(x, y)) == Vector(x) & Vector(y)
  {}

  lemma OrOnBits(x: Word, y: Word)
    ensures Vector(Or(x, y)) == Vector(x) | Vector(y)
  {}

  lemma XorOnBits(x: Word, y: Word)
    ensures Vector(Xor(x, y)) == Vector(x) ^ Vector(y)
  {}

  /** Choice and majority, bit by bit, the latter in the form that gives it its name. */
  lemma ChAndMajOnBits(x: Word, y: Word, z: Word)
    ensures Vector(Ch(x, y, z)) == (Vector(x) & Vector(y)) | (!Vector(x) & Vector(z))
    ensures Vector(Maj(x, y, z)) == (Vector(x) & Vector(y)) | (Vector(x) & Vector(z)) | (Vector(y) & Vector(z))
  {
    hide Vector, Xor, And, Not;
    XorOnBits(And(x, y), And(Not(x), z));
    NotOnBits(x);
    AndOnBits(Not(x), z);
    AndOnBits(x, y);
    AndOnBits(x, z);
    AndOnBits(y, z);
    XorOnBits(And(x, y), And(x, z));
    XorOnBits(Xor(And(x, y), And(x, z)), And(y, z));
  }

  lemma ShiftsOfOne()
    ensures Shr(1, 2) == Shr(1, 13) == Shr(1, 22) == Shr(1, 6) == Shr(1, 11) == Shr(1, 25) == 0
    ensures Shl(1, 30) == 0x4000_0000 && Shl(1, 19) == 0x8_0000 && Shl(1, 10) == 0x400
    ensures Shl(1, 26) == 0x400_0000 && Shl(1, 21) == 0x20_0000 && Shl(1, 7) == 0x80
  {}

  lemma SmallShiftsOfOne()
    ensures Shr(1, 7) == Shr(1, 18) == Shr(1, 3) == Shr(1, 17) == Shr(1, 19) == Shr(1, 10) == 0
    ensures Shl(1, 25) == 0x200_0000 && Shl(1, 14) == 0x4000 && Shl(1, 15) == 0x8000 && Shl(1, 13) == 0x2000
  {}

  /** A single bit goes where the rotations take it, and a shift drops it. */
  lemma BigSigmasOfOne()
    ensures BigSigma0(1) == Xor(Xor(Or(0, 0x4000_0000), Or(0, 0x8_0000)), Or(0, 0x400))
    ensures BigSigma1(1) == Xor(Xor(Or(0, 0x400_0000), Or(0, 0x20_0000)), Or(0, 0x80))
  {
    hide Xor, Or, Shr, Shl;
    ShiftsOfOne();
  }

  lemma SmallSigmasOfOne()
    ensures SmallSigma0(1) == Xor(Xor(Or(0, 0x200_0000), Or(0, 0x4000)), 0)
    ensures SmallSigma1(1) == Xor(Xor(Or(0, 0x8000), Or(0, 0x2000)), 0)
  {
    hide Xor, Or, Shr, Shl;
    SmallShiftsOfOne();
  }

  lemma ShiftsOfEight()
    ensures Shr(8, 7) == Shr(8, 18) == 0 && Shr(8, 3) == 1
    ensures Shl(8, 25) == 0x1000_0000 && Shl(8, 14) == 0x2_0000
  {}

  lemma RightShiftsOf400()
    ensures Shr(0x400, 17) == Shr(0x400, 19) == 0 && Shr(0x400, 10) == 1
  {}

  lemma LeftShiftsOf400()
    ensures Shl(0x400, 15) == 0x200_0000 && Shl(0x400, 13) == 0x80_0000
  {}

  /** The shifts' amounts: the lowest bit is left of a bit as high as the amount. */
  lemma SmallSigmasShift()
    ensures SmallSigma0(8) == Xor(Xor(Or(0, 0x1000_0000), Or(0, 0x2_0000)), 1)
    ensures SmallSigma1(0x400) == Xor(Xor(Or(0, 0x200_0000), Or(0, 0x80_0000)), 1)
  {
    hide Xor, Or, Shr, Shl;
    ShiftsOfEight();
    RightShiftsOf400();
    LeftShiftsOf400();
  }

  /** However many blocks the padding makes, all of them are hashed. */
  lemma DigestOfBlocks(m: seq<byte>, n: nat)
    requires |Padded(m)| == 64 * n
    ensures 64 * n >= |m| + 9 && 64 * (n - 1) < |m| + 9
    ensures Digest(m) == Serialized(HashAfter(Padded(m), n))
  {
    hide HashAfter, Serialized, Padded;
    PaddedLength(m);
  }
}
