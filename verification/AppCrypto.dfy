/**
 The crypto the browser falls back to without WebCrypto: SHA-256, HMAC-SHA256 and
 PBKDF2-HMAC-SHA256 over byte arrays, with JavaScript's 32-bit operators.
 */
module AppCrypto {
  import opened BigEndians
  import opened JsNumbers
  import opened Fips180
  import opened Rfc8018

  // ---------------------------------------------------------------- DataView

  lemma Digits(x: nat)
    ensures var low := x % TWO_32;
            && x / 256 / 256 / 256 / 256 == x / TWO_32
            && low % 256 == x % 256 && low / 256 % 256 == x / 256 % 256
            && low / 256 / 256 % 256 == x / 256 / 256 % 256
            && low / 256 / 256 / 256 % 256 == x / 256 / 256 / 256 % 256
  {
    var q, low := x / TWO_32, x % TWO_32;
    assert x / 256 == q * 0x100_0000 + low / 256;
    assert x / 256 / 256 == q * 0x1_0000 + low / 256 / 256;
    assert x / 256 / 256 / 256 == q * 0x100 + low / 256 / 256 / 256;
  }

  lemma BytesSplit(x: nat, n: nat)
    ensures Bytes(x, n + 4) == Bytes(x / TWO_32, n) + Bytes(x % TWO_32, 4)
  {
    FourBytes(x % TWO_32);
    LastByte(x, n + 3);
    LastByte(x / 256, n + 2);
    LastByte(x / 256 / 256, n + 1);
    LastByte(x / 256 / 256 / 256, n);
    hide Bytes;
    Digits(x);
  }

  lemma LastByte(x: nat, n: nat)
    ensures Bytes(x, n + 1) == Bytes(x / 256, n) + [x % 256]
  {}

  lemma FourBytes(x: nat)
    ensures Bytes(x, 4) == [x / 256 / 256 / 256 % 256, x / 256 / 256 % 256, x / 256 % 256, x % 256]
  {
    LastByte(x, 3);
    LastByte(x / 256, 2);
    LastByte(x / 256 / 256, 1);
    LastByte(x / 256 / 256 / 256, 0);
  }

  /** `s` with the part from `at` on overwritten by `t`. */
  function Splice(s: seq<byte>, at: nat, t: seq<byte>): (r: seq<byte>)
    requires at + |t| <= |s|
    ensures |r| == |s|
  {
    s[..at] + t + s[at + |t|..]
  }

  lemma ToUint32Twice(x: int)
    ensures ToUint32(ToUint32(x)) == ToUint32(x)
  {}

  /** `DataView.setUint32(at, value, false)`: the value is taken modulo 2^32. */
  method SetUint32(view: array<byte>, at: nat, value: int)
    requires at + 4 <= view.Length
    modifies view
    ensures view[..] == Splice(old(view[..]), at, Bytes(ToUint32(value), 4))
  {
    var x: nat := ToUint32(value);
    FourBytes(x);
    view[at] := x / 256 / 256 / 256 % 256;
    view[at + 1] := x / 256 / 256 % 256;
    view[at + 2] := x / 256 % 256;
    view[at + 3] := x % 256;
  }

  /** `DataView.getUint32(at, false)` */
  method GetUint32(view: array<byte>, at: nat) returns (w: Word)
    requires at + 4 <= view.Length
    ensures w == WordOf(view[..][at..at + 4])
  {
    FourByteNumber(view[at..at + 4]);
    assert view[at..at + 4] == view[..][at..at + 4];
    w := view[at] as int * 0x100_0000 + view[at + 1] as int * 0x1_0000 + view[at + 2] as int * 0x100 + view[at + 3];
  }

  lemma FourByteNumber(s: seq<byte>)
    requires |s| == 4
    ensures BigEndian(s) == s[0] as int * 0x100_0000 + s[1] as int * 0x1_0000 + s[2] as int * 0x100 + s[3]
  {
    assert s[..3][..2] == s[..2] && s[..2][..1] == s[..1];
    assert BigEndian(s[..1]) == s[0];
    assert BigEndian(s[..2]) == BigEndian(s[..1]) * 256 + s[1];
    assert BigEndian(s[..3]) == BigEndian(s[..2]) * 256 + s[2];
  }

  /** `target.set(source, at)` */
  method Set(target: array<byte>, source: seq<byte>, at: nat)
    requires at + |source| <= target.Length
    modifies target
    ensures target[..] == Splice(old(target[..]), at, source)
  {
    forall i | 0 <= i < |source| { target[at + i] := source[i]; }
  }

  // ---------------------------------------------------------------- sha256

  /** `rotr32`: the result is negative whenever its top bit is set. */
  function Rotr32(value: int, count: nat): int
    requires 0 < count < 32
  {
    JsOr(JsShr(value, count), JsShl(value, 32 - count))
  }

  lemma Rotr32Rotates(value: int, count: nat)
    requires 0 < count < 32
    ensures ToUint32(Rotr32(value, count)) == Rotr(ToUint32(value), count)
  {
    hide Or, Shr, Shl;
  }

  lemma ZeroLength(length: nat)
    ensures var remainder := (length + 1) % 64;
            (if remainder <= 56 then 56 - remainder else 120 - remainder) == ZeroBits(8 * length) / 8
  {
    var q, r := (length + 1) / 64, (length + 1) % 64;
    assert 447 - 8 * length == 512 * (-q) + (455 - 8 * r);
    if r > 56 { assert 447 - 8 * length == 512 * (-q - 1) + (967 - 8 * r); }
  }

  lemma LastFour(x: nat)
    ensures Bytes(ToUint32(x), 4) == Bytes(x, 4)
  {
    assert Bytes(x / TWO_32, 0) == [];
    hide Bytes;
    BytesSplit(x, 0);
  }

  lemma LengthBytes(bitLength: nat)
    ensures Bytes(ToUint32(bitLength / TWO_32), 4) + Bytes(ToUint32(bitLength), 4) == Bytes(bitLength, 8)
  {
    hide Bytes;
    BytesSplit(bitLength, 4);
    LastFour(bitLength / TWO_32);
  }

  lemma WrittenInOrder(m: seq<byte>, zeros: nat, high: seq<byte>, low: seq<byte>)
    requires |high| == |low| == 4
    ensures var total := |m| + 1 + zeros + 8;
            Splice(Splice(Splice(Zeros(total), 0, m)[|m| := 0x80], total - 8, high), total - 4, low)
              == m + [0x80] + Zeros(zeros) + high + low
  {
    var total := |m| + 1 + zeros + 8;
    var front := m + [0x80] + Zeros(zeros);
    assert Splice(Zeros(total), 0, m)[|m| := 0x80] == front + Zeros(8);
    assert Splice(front + Zeros(8), total - 8, high) == front + high + Zeros(4);
    assert Splice(front + high + Zeros(4), total - 4, low) == front + high + low;
  }

  lemma PaddedIs(m: seq<byte>)
    ensures Padded(m) == m + [0x80] + Zeros(ZeroBits(8 * |m|) / 8) + Bytes(8 * |m|, 8)
  {}

  method PadMessage(input: array<byte>) returns (message: array<byte>)
    ensures fresh(message) && message[..] == Padded(input[..])
  {
    hide Padded, ZeroBits, Bytes, Splice, ToUint32;
    var length := input.Length;
    var remainder := (length + 1) % 64;
    var zeroLen := if remainder <= 56 then 56 - remainder else 120 - remainder;
    var total := length + 1 + zeroLen + 8;
    message := new byte[total](_ => 0);
    ghost var m, high, low := input[..], Bytes(ToUint32(length * 8 / TWO_32), 4), Bytes(ToUint32(length * 8), 4);
    assert message[..] == Zeros(total);
    Set(message, input[..], 0);
    ghost var s := message[..];
    message[length] := 0x80;
    assert message[..] == s[length := 0x80];
    var bitLength := length * 8;
    SetUint32(message, total - 8, bitLength / TWO_32);
    SetUint32(message, total - 4, ToUint32(bitLength));
    assert message[..] == Splice(Splice(s[length := 0x80], total - 8, high), total - 4, low) by {
      assert ToUint32(ToUint32(bitLength)) == ToUint32(bitLength) by { ToUint32Twice(bitLength); }
    }
    WrittenInOrder(m, zeroLen, high, low);
    assert Padded(m) == m + [0x80] + Zeros(zeroLen) + (high + low) by {
      ZeroLength(length);
      LengthBytes(length * 8);
      PaddedIs(m);
    }
    assert m + [0x80] + Zeros(zeroLen) + high + low == m + [0x80] + Zeros(zeroLen) + (high + low);
  }

  // ---------------------------------------------------------------- signed intermediate values

  lemma XorOfSigned(a: int, b: int)
    ensures ToUint32(JsXor(a, b)) == Xor(ToUint32(a), ToUint32(b))
  {
    hide Xor;
  }

  lemma AndOfSigned(a: int, b: int)
    ensures ToUint32(JsAnd(a, b)) == And(ToUint32(a), ToUint32(b))
  {
    hide And;
  }

  lemma NotOfSigned(a: int)
    ensures ToUint32(JsNot(a)) == Not(ToUint32(a))
  {
    hide Not;
  }

  lemma WordsStay(x: Word)
    ensures ToUint32(x) == x
  {}

  /** Three rotations xor-ed, as in the two big sigma functions. */
  lemma RotationsOfSigned(x: Word, i: nat, j: nat, k: nat)
    requires 0 < i < 32 && 0 < j < 32 && 0 < k < 32
    ensures ToUint32(JsXor(JsXor(Rotr32(x, i), Rotr32(x, j)), Rotr32(x, k)))
         == Xor(Xor(Rotr(x, i), Rotr(x, j)), Rotr(x, k))
  {
    hide Rotr, Rotr32, JsXor, Xor, ToUint32;
    XorOfSigned(JsXor(Rotr32(x, i), Rotr32(x, j)), Rotr32(x, k));
    XorOfSigned(Rotr32(x, i), Rotr32(x, j));
    Rotr32Rotates(x, i);
    Rotr32Rotates(x, j);
    Rotr32Rotates(x, k);
    WordsStay(x);
  }

  /** Two rotations and a shift, as in the two small sigma functions. */
  lemma ShiftOfSigned(x: Word, i: nat, j: nat, k: nat)
    requires 0 < i < 32 && 0 < j < 32 && k < 32
    ensures ToUint32(JsXor(JsXor(Rotr32(x, i), Rotr32(x, j)), JsShr(x, k)))
         == Xor(Xor(Rotr(x, i), Rotr(x, j)), Shr(x, k))
  {
    hide Rotr, Rotr32, JsXor, Xor, ToUint32, JsShr, Shr;
    XorOfSigned(JsXor(Rotr32(x, i), Rotr32(x, j)), JsShr(x, k));
    XorOfSigned(Rotr32(x, i), Rotr32(x, j));
    Rotr32Rotates(x, i);
    Rotr32Rotates(x, j);
    ShrIsUnsigned(x, k);
    WordsStay(x);
  }

  lemma ShrIsUnsigned(x: Word, k: nat)
    requires k < 32
    ensures ToUint32(JsShr(x, k)) == Shr(x, k)
  {
    hide Shr;
  }

  lemma ChOfSigned(e: Word, f: Word, g: Word)
    ensures ToUint32(JsXor(JsAnd(e, f), JsAnd(JsNot(e), g))) == Ch(e, f, g)
  {
    hide JsXor, JsAnd, JsNot, Xor, And, Not, ToUint32;
    XorOfSigned(JsAnd(e, f), JsAnd(JsNot(e), g));
    AndOfSigned(e, f);
    AndOfSigned(JsNot(e), g);
    NotOfSigned(e);
    WordsStay(e);
    WordsStay(f);
    WordsStay(g);
  }

  lemma MajOfSigned(a: Word, b: Word, c: Word)
    ensures ToUint32(JsXor(JsXor(JsAnd(a, b), JsAnd(a, c)), JsAnd(b, c))) == Maj(a, b, c)
  {
    hide JsXor, JsAnd, Xor, And, ToUint32;
    XorOfSigned(JsXor(JsAnd(a, b), JsAnd(a, c)), JsAnd(b, c));
    XorOfSigned(JsAnd(a, b), JsAnd(a, c));
    AndOfSigned(a, b);
    AndOfSigned(a, c);
    AndOfSigned(b, c);
    WordsStay(a);
    WordsStay(b);
    WordsStay(c);
  }

  /** A sum may be reduced once at the end, whatever the signs of two of its terms. */
  lemma ReducedOnce(x: int, s: int, y: int, t: int)
    ensures ToUint32(x + s + y + t) == (x + ToUint32(s) + y + ToUint32(t)) % TWO_32
  {
    var p, q := s / TWO_32, t / TWO_32;
    assert x + s + y + t == (x + s % TWO_32 + y + t % TWO_32) + TWO_32 * (p + q);
  }

  // ---------------------------------------------------------------- the constants

  /** `SHA256_K`, a source line at a time. */
  function LineOfK(line: nat): seq<Word> {
    match line
    case 0 => [0x428a2f98, 0x71374491, 0xb5c0fbcf, 0xe9b5dba5, 0x3956c25b, 0x59f111f1, 0x923f82a4, 0xab1c5ed5]
    case 1 => [0xd807aa98, 0x12835b01, 0x243185be, 0x550c7dc3, 0x72be5d74, 0x80deb1fe, 0x9bdc06a7, 0xc19bf174]
    case 2 => [0xe49b69c1, 0xefbe4786, 0x0fc19dc6, 0x240ca1cc, 0x2de92c6f, 0x4a7484aa, 0x5cb0a9dc, 0x76f988da]
    case 3 => [0x983e5152, 0xa831c66d, 0xb00327c8, 0xbf597fc7, 0xc6e00bf3, 0xd5a79147, 0x06ca6351, 0x14292967]
    case 4 => [0x27b70a85, 0x2e1b2138, 0x4d2c6dfc, 0x53380d13, 0x650a7354, 0x766a0abb, 0x81c2c92e, 0x92722c85]
    case 5 => [0xa2bfe8a1, 0xa81a664b, 0xc24b8b70, 0xc76c51a3, 0xd192e819, 0xd6990624, 0xf40e3585, 0x106aa070]
    case 6 => [0x19a4c116, 0x1e376c08, 0x2748774c, 0x34b0bcb5, 0x391c0cb3, 0x4ed8aa4a, 0x5b9cca4f, 0x682e6ff3]
    case _ => [0x748f82ee, 0x78a5636f, 0x84c87814, 0x8cc70208, 0x90befffa, 0xa4506ceb, 0xbef9a3f7, 0xc67178f2]
  }

  /** Eight words in order, as the rows of a table have them. */
  predicate SameWords(t: Table, line: seq<Word>) {
    |line| == 8 && Rows(t) == 8
    && line[0] == RowAt(t, 0).word && line[1] == RowAt(t, 1).word && line[2] == RowAt(t, 2).word && line[3] == RowAt(t, 3).word
    && line[4] == RowAt(t, 4).word && line[5] == RowAt(t, 5).word && line[6] == RowAt(t, 6).word && line[7] == RowAt(t, 7).word
  }

  lemma LowerLines()
    ensures SameWords(CONSTANTS_0, LineOfK(0)) && SameWords(CONSTANTS_8, LineOfK(1))
    ensures SameWords(CONSTANTS_16, LineOfK(2)) && SameWords(CONSTANTS_24, LineOfK(3))
  {}

  lemma UpperLines()
    ensures SameWords(CONSTANTS_32, LineOfK(4)) && SameWords(CONSTANTS_40, LineOfK(5))
    ensures SameWords(CONSTANTS_48, LineOfK(6)) && SameWords(CONSTANTS_56, LineOfK(7))
  {}

  lemma LinesAreTheStandards(line: nat)
    requires line < 8
    ensures SameWords(Constants(line), LineOfK(line))
  {
    hide SameWords, LineOfK;
    LowerLines();
    UpperLines();
  }

  lemma SameWordAt(t: Table, line: seq<Word>, i: nat)
    requires SameWords(t, line) && i < 8
    ensures line[i] == RowAt(t, i).word
  {
    hide Rows;
  }

  const SHA256_K: seq<Word> := seq(64, t requires 0 <= t < 64 => (LineLengths(t / 8); LineOfK(t / 8)[t % 8]))

  lemma LineLengths(line: nat)
    ensures |LineOfK(line)| == 8
  {}

  /** The browser's table is the standard's. */
  lemma TableIsTheStandards(t: nat)
    requires t < 64
    ensures |SHA256_K| == 64 && SHA256_K[t] == K(t)
  {
    TableSizes();
    LineLengths(t / 8);
    hide SameWords, LineOfK, Constants;
    LinesAreTheStandards(t / 8);
    SameWordAt(Constants(t / 8), LineOfK(t / 8), t % 8);
  }

  // ---------------------------------------------------------------- one block

  lemma FirstWord(message: seq<byte>, offset: nat, i: nat)
    requires offset + 64 <= |message| && i < 16
    ensures WordOf(message[offset + i * 4..offset + i * 4 + 4]) == W(message[offset..offset + 64], i)
  {
    var word, block := message[offset + i * 4..offset + i * 4 + 4], message[offset..offset + 64];
    forall k | 0 <= k < 4 ensures word[k] == block[4 * i..4 * i + 4][k] {
      assert word[k] == message[offset + (4 * i + k)] == block[4 * i + k];
    }
    assert word == block[4 * i..4 * i + 4];
  }

  lemma NextWord(block: seq<byte>, i: nat, w16: Word, w15: Word, w7: Word, w2: Word, s0: int, s1: int)
    requires |block| == 64 && 16 <= i < 64
    requires w16 == W(block, i - 16) && w15 == W(block, i - 15) && w7 == W(block, i - 7) && w2 == W(block, i - 2)
    requires s0 == JsXor(JsXor(Rotr32(w15, 7), Rotr32(w15, 18)), JsShr(w15, 3))
    requires s1 == JsXor(JsXor(Rotr32(w2, 17), Rotr32(w2, 19)), JsShr(w2, 10))
    ensures ToUint32(w16 + s0 + w7 + s1) == W(block, i)
  {
    hide Xor, Shr, Rotr, JsXor, JsShr, Rotr32, ToUint32;
    ShiftOfSigned(w15, 7, 18, 3);
    ShiftOfSigned(w2, 17, 19, 10);
    ReducedOnce(w16, s0, w7, s1);
  }

  method MessageSchedule(message: array<byte>, offset: nat) returns (w: array<Word>)
    requires offset + 64 <= message.Length
    ensures fresh(w) && w.Length == 64
    ensures forall t :: 0 <= t < 64 ==> w[t] == W(message[offset..offset + 64], t)
  {
    hide Xor, Shr, Rotr, JsXor, JsShr, Rotr32, ToUint32, W, WordOf;
    ghost var block := message[offset..offset + 64];
    w := new Word[64](_ => 0);
    for i := 0 to 16
      invariant message[..] == old(message[..])
      invariant forall t :: 0 <= t < i ==> w[t] == W(block, t)
    {
      FirstWord(message[..], offset, i);
      w[i] := GetUint32(message, offset + i * 4);
    }
    for i := 16 to 64
      invariant forall t :: 0 <= t < i ==> w[t] == W(block, t)
    {
      var s0 := JsXor(JsXor(Rotr32(w[i - 15], 7), Rotr32(w[i - 15], 18)), JsShr(w[i - 15], 3));
      var s1 := JsXor(JsXor(Rotr32(w[i - 2], 17), Rotr32(w[i - 2], 19)), JsShr(w[i - 2], 10));
      NextWord(block, i, w[i - 16], w[i - 15], w[i - 7], w[i - 2], s0, s1);
      w[i] := ToUint32(w[i - 16] + s0 + w[i - 7] + s1);
    }
  }

  /** One round as the browser computes it, with signed intermediate values. */
  lemma RoundOfSigned(r: Registers, k: Word, w: Word, sum1: int, ch: int, sum0: int, maj: int, temp1: Word, temp2: Word)
    requires sum1 == JsXor(JsXor(Rotr32(r.e, 6), Rotr32(r.e, 11)), Rotr32(r.e, 25))
    requires ch == JsXor(JsAnd(r.e, r.f), JsAnd(JsNot(r.e), r.g))
    requires temp1 == ToUint32(r.h + sum1 + ch + k + w)
    requires sum0 == JsXor(JsXor(Rotr32(r.a, 2), Rotr32(r.a, 13)), Rotr32(r.a, 22))
    requires maj == JsXor(JsXor(JsAnd(r.a, r.b), JsAnd(r.a, r.c)), JsAnd(r.b, r.c))
    requires temp2 == ToUint32(sum0 + maj)
    ensures Registers(ToUint32(temp1 + temp2), r.a, r.b, r.c, ToUint32(r.d + temp1), r.e, r.f, r.g) == Round(r, k, w)
  {
    hide Xor, Rotr, JsXor, JsAnd, JsNot, Rotr32, Ch, Maj, ToUint32;
    RotationsOfSigned(r.e, 6, 11, 25);
    RotationsOfSigned(r.a, 2, 13, 22);
    ChOfSigned(r.e, r.f, r.g);
    MajOfSigned(r.a, r.b, r.c);
    ReducedOnce(r.h, sum1, k + w, ch);
    ReducedOnce(0, sum0, 0, maj);
    ReducedOnce(temp1 + temp2, 0, 0, 0);
    ReducedOnce(r.d + temp1, 0, 0, 0);
    WordsStay(0);
  }

  method SixtyFourRounds(h: Registers, w: array<Word>, ghost block: seq<byte>) returns (r: Registers)
    requires |block| == 64 && w.Length == 64
    requires forall t :: 0 <= t < 64 ==> w[t] == W(block, t)
    ensures r == Rounds(h, block, 64)
  {
    hide Xor, Rotr, JsXor, JsAnd, JsNot, Rotr32, ToUint32, Round, K, W, SHA256_K;
    var a: Word, b: Word, c: Word, d: Word, e: Word, f: Word, g: Word, hh: Word := h.a, h.b, h.c, h.d, h.e, h.f, h.g, h.h;
    for i := 0 to 64
      invariant Registers(a, b, c, d, e, f, g, hh) == Rounds(h, block, i)
    {
      ghost var before := Registers(a, b, c, d, e, f, g, hh);
      var sum1 := JsXor(JsXor(Rotr32(e, 6), Rotr32(e, 11)), Rotr32(e, 25));
      var ch := JsXor(JsAnd(e, f), JsAnd(JsNot(e), g));
      TableIsTheStandards(i);
      var temp1 := ToUint32(hh + sum1 + ch + SHA256_K[i] + w[i]);
      var sum0 := JsXor(JsXor(Rotr32(a, 2), Rotr32(a, 13)), Rotr32(a, 22));
      var maj := JsXor(JsXor(JsAnd(a, b), JsAnd(a, c)), JsAnd(b, c));
      var temp2 := ToUint32(sum0 + maj);
      RoundOfSigned(before, K(i), w[i], sum1, ch, sum0, maj, temp1, temp2);
      hh := g;
      g := f;
      f := e;
      e := ToUint32(d as int + temp1);
      d := c;
      c := b;
      b := a;
      a := ToUint32(temp1 as int + temp2);
    }
    r := Registers(a, b, c, d, e, f, g, hh);
  }

  lemma SpliceExtends(s: seq<byte>, at: nat, t: seq<byte>)
    requires at + |t| <= |s|
    ensures Splice(s, at, t)[..at + |t|] == s[..at] + t
  {}

  method WriteDigest(h: Registers) returns (out: array<byte>)
    ensures fresh(out) && out[..] == Serialized(h)
  {
    hide Splice, Bytes;
    out := new byte[32](_ => 0);
    var words := [h.a, h.b, h.c, h.d, h.e, h.f, h.g, h.h];
    ghost var written: seq<byte> := [];
    for i := 0 to 8
      invariant |written| == 4 * i && out[..4 * i] == written
      invariant written == Written(words, i)
    {
      ghost var s := out[..];
      SetUint32(out, 4 * i, words[i]);
      WordsStay(words[i]);
      SpliceExtends(s, 4 * i, Bytes(words[i], 4));
      written := written + Bytes(words[i], 4);
    }
    assert out[..] == out[..32];
    WrittenIsSerialized(h);
  }

  function Written(words: seq<Word>, n: nat): seq<byte>
    requires n <= |words|
  {
    if n == 0 then [] else Written(words, n - 1) + Bytes(words[n - 1], 4)
  }

  lemma WrittenIsSerialized(h: Registers)
    ensures Written([h.a, h.b, h.c, h.d, h.e, h.f, h.g, h.h], 8) == Serialized(h)
  {
    hide Bytes;
    var words := [h.a, h.b, h.c, h.d, h.e, h.f, h.g, h.h];
    assert Written(words, 1) == [] + Bytes(h.a, 4) == Bytes(h.a, 4);
    assert Written(words, 2) == Written(words, 1) + Bytes(h.b, 4);
    assert Written(words, 3) == Written(words, 2) + Bytes(h.c, 4);
    assert Written(words, 4) == Written(words, 3) + Bytes(h.d, 4);
    assert Written(words, 5) == Written(words, 4) + Bytes(h.e, 4);
    assert Written(words, 6) == Written(words, 5) + Bytes(h.f, 4);
    assert Written(words, 7) == Written(words, 6) + Bytes(h.g, 4);
  }

  /** Adding the working variables, as the browser writes it. */
  lemma SumOfSigned(x: Registers, y: Registers)
    ensures Sum(x, y) == Registers(ToUint32(x.a + y.a), ToUint32(x.b + y.b), ToUint32(x.c + y.c), ToUint32(x.d + y.d),
                                   ToUint32(x.e + y.e), ToUint32(x.f + y.f), ToUint32(x.g + y.g), ToUint32(x.h + y.h))
  {}

  /** `sha256` */
  method Sha256(input: array<byte>) returns (out: array<byte>)
    ensures fresh(out) && out[..] == Digest(input[..])
  {
    hide K, W, Rounds, ToUint32, Padded, Sum, Serialized;
    var message := PadMessage(input);
    var total := message.Length;
    PaddedLength(input[..]);
    InitialWords();
    var h := Registers(0x6a09e667, 0xbb67ae85, 0x3c6ef372, 0xa54ff53a,
                       0x510e527f, 0x9b05688c, 0x1f83d9ab, 0x5be0cd19);
    var offset := 0;
    while offset < total
      invariant offset % 64 == 0 && offset <= total
      invariant message[..] == Padded(input[..])
      invariant h == HashAfter(message[..], offset / 64)
    {
      var w := MessageSchedule(message, offset);
      var r := SixtyFourRounds(h, w, message[offset..offset + 64]);
      ghost var n := offset / 64 + 1;
      assert message[..][64 * (n - 1)..64 * n] == message[offset..offset + 64];
      SumOfSigned(h, r);
      h := Registers(ToUint32(h.a + r.a), ToUint32(h.b + r.b), ToUint32(h.c + r.c), ToUint32(h.d + r.d),
                     ToUint32(h.e + r.e), ToUint32(h.f + r.f), ToUint32(h.g + r.g), ToUint32(h.h + r.h));
      offset := offset + 64;
    }
    out := WriteDigest(h);
  }

  lemma InitialWords()
    ensures INITIAL == Registers(0x6a09e667, 0xbb67ae85, 0x3c6ef372, 0xa54ff53a,
                                 0x510e527f, 0x9b05688c, 0x1f83d9ab, 0x5be0cd19)
  {}

  // ---------------------------------------------------------------- hmacSHA256

  lemma StoredXor(a: byte, b: byte)
    ensures JsXor(a, b) % 256 == ByteXor(a, b)
  {
    hide Xor;
    WordsStay(a);
    WordsStay(b);
    LowByte(Xor(a, b));
  }

  lemma LowByte(w: Word)
    ensures ToInt32(w) % 256 == w % 256
  {}

  /** Every byte of the key xor-ed with one constant. */
  method Pad(k: array<byte>, b: byte) returns (pad: array<byte>)
    ensures fresh(pad) && pad[..] == XorBytes(k[..], Repeated(b, k.Length))
  {
    hide Xor, JsXor, ByteXor;
    pad := new byte[k.Length](_ => 0);
    for i := 0 to k.Length
      invariant forall j :: 0 <= j < i ==> pad[j] == ByteXor(k[j], b)
    {
      StoredXor(k[i], b);
      pad[i] := JsXor(k[i], b) % 256;
    }
  }

  method HmacSha256(key: array<byte>, message: array<byte>) returns (mac: array<byte>)
    ensures fresh(mac) && mac[..] == Hmac(key[..], message[..])
  {
    hide Digest, XorBytes, Splice;
    var k := new byte[64](_ => 0);
    var short := key;
    if key.Length > 64 { short := Sha256(key); }
    assert k[..] == Zeros(64);
    Set(k, short[..], 0);
    assert k[..] == BlockKey(key[..]) by { SpliceIntoZeros(short[..], 64); }
    var ipad := Pad(k, 0x36);
    var opad := Pad(k, 0x5c);
    var inner := Joined(ipad, message);
    var innerHash := Sha256(inner);
    var outer := Joined(opad, innerHash);
    mac := Sha256(outer);
  }

  lemma SpliceIntoZeros(s: seq<byte>, n: nat)
    requires |s| <= n
    ensures Splice(Zeros(n), 0, s) == s + Repeated(0, n - |s|)
  {}

  /** A new array holding `pad` followed by `message`, filled by two `set` calls. */
  method Joined(pad: array<byte>, message: array<byte>) returns (joined: array<byte>)
    ensures fresh(joined) && joined[..] == pad[..] + message[..]
  {
    joined := new byte[pad.Length + message.Length](_ => 0);
    Set(joined, pad[..], 0);
    Set(joined, message[..], pad.Length);
  }

  // ---------------------------------------------------------------- pbkdf2SHA256

  /** How often one block pauses to the event loop. */
  function Pauses(iterations: int, batchSize: int): nat {
    if iterations >= 1 && batchSize > 0 then (iterations - 1) / batchSize else 0
  }

  lemma NextPause(i: nat, batchSize: nat)
    requires i >= 1 && batchSize >= 1
    ensures i / batchSize == (i - 1) / batchSize + if i % batchSize == 0 then 1 else 0
  {
    var q, r := (i - 1) / batchSize, (i - 1) % batchSize;
    if r + 1 == batchSize {
      Quotient(i, batchSize, q + 1, 0);
    } else {
      Quotient(i, batchSize, q, r + 1);
    }
  }

  lemma Quotient(n: int, d: int, q: int, r: int)
    requires n == q * d + r && 0 <= r < d
    ensures n / d == q && n % d == r
  {
    var e := n / d - q;
    assert n == (q + e) * d + n % d;
    assert (q + e) * d == q * d + e * d;
    assert e >= 1 ==> e * d >= d;
    assert e <= -1 ==> e * d <= -d;
  }

  /** `t[j] ^= u[j]` for every byte, in place. */
  method XorInto(t: array<byte>, u: array<byte>)
    requires t != u && t.Length == u.Length
    modifies t
    ensures t[..] == XorBytes(old(t[..]), u[..])
  {
    hide Xor, JsXor, ByteXor;
    for j := 0 to t.Length
      invariant forall i :: 0 <= i < j ==> t[i] == ByteXor(old(t[i]), u[i])
      invariant forall i :: j <= i < t.Length ==> t[i] == old(t[i])
    {
      StoredXor(t[j], u[j]);
      t[j] := JsXor(t[j], u[j]) % 256;
    }
  }

  method DeriveBlock(password: array<byte>, saltBlock: array<byte>, iterations: int, batchSize: int,
                     ghost salt: seq<byte>, ghost block: nat)
    returns (t: array<byte>, pauses: nat)
    requires saltBlock[..] == salt + Bytes(block, 4)
    ensures fresh(t) && t.Length == 32
    ensures iterations >= 1 ==> t[..] == F(password[..], salt, iterations, block)
    ensures iterations < 1 ==> t[..] == F(password[..], salt, 1, block)
    ensures pauses == Pauses(iterations, batchSize)
  {
    hide Hmac, XorBytes;
    var u := HmacSha256(password, saltBlock);
    t := new byte[32](_ => 0);
    Set(t, u[..], 0);
    pauses := 0;
    FirstIteration(password[..], salt, block);
    hide F, U, Pauses;
    var i := 1;
    while i < iterations
      invariant 1 <= i && (iterations >= 1 ==> i <= iterations) && (iterations < 1 ==> i == 1)
      invariant fresh(t) && fresh(u) && t != u && t.Length == u.Length == 32
      invariant u[..] == U(password[..], salt, block, i)
      invariant t[..] == F(password[..], salt, i, block)
      invariant pauses == if batchSize > 0 then (i - 1) / batchSize else 0
    {
      NextIteration(password[..], salt, i, block);
      u := HmacSha256(password, u);
      XorInto(t, u);
      if batchSize > 0 {
        NextPause(i, batchSize);
        if i % batchSize == 0 { pauses := pauses + 1; }
      }
      i := i + 1;
    }
    LoopPauses(iterations, batchSize);
  }

  lemma FirstIteration(password: seq<byte>, salt: seq<byte>, block: nat)
    ensures U(password, salt, block, 1) == Hmac(password, salt + Bytes(block, 4)) == F(password, salt, 1, block)
  {
    hide Hmac;
  }

  lemma NextIteration(password: seq<byte>, salt: seq<byte>, i: nat, block: nat)
    requires i >= 1
    ensures U(password, salt, block, i + 1) == Hmac(password, U(password, salt, block, i))
    ensures F(password, salt, i + 1, block) == XorBytes(F(password, salt, i, block), U(password, salt, block, i + 1))
  {
    hide Hmac, XorBytes;
  }

  lemma LoopPauses(iterations: int, batchSize: int)
    ensures var i := if iterations >= 1 then iterations else 1;
            Pauses(iterations, batchSize) == if batchSize > 0 then (i - 1) / batchSize else 0
  {}

  /** Overwriting the output from block `n` on with (the front of) that block's key bytes. */
  lemma BlockAppended(blocks: seq<byte>, block: seq<byte>, n: nat, dkLen: nat, out: seq<byte>)
    requires |out| == dkLen && 32 * n < dkLen
    requires |blocks| == 32 * n && |block| == 32 && out[..32 * n] == blocks
    ensures var chunk := block[..Least(32, dkLen - 32 * n)];
            Splice(out, 32 * n, chunk)[..Least(32 * (n + 1), dkLen)] == (blocks + block)[..Least(32 * (n + 1), dkLen)]
  {
    hide Splice;
    SpliceExtends(out, 32 * n, block[..Least(32, dkLen - 32 * n)]);
  }

  /** The block number goes behind the salt. */
  method NumberSalt(saltBlock: array<byte>, saltLength: nat, block: nat)
    requires saltBlock.Length == saltLength + 4
    modifies saltBlock
    ensures saltBlock[..] == old(saltBlock[..saltLength]) + Bytes(block, 4)
  {
    hide Splice, Bytes, ToUint32;
    SpliceExtends(saltBlock[..], saltLength, Bytes(ToUint32(block), 4));
    SetUint32(saltBlock, saltLength, block);
    LastFour(block);
    assert saltBlock[..] == saltBlock[..saltLength + 4];
  }

  /** Block `n`, counted from 0, is copied into its place, the last one as far as it fits. */
  method SetBlock(out: array<byte>, t: array<byte>, n: nat, ghost blocks: seq<byte>)
    requires t != out && t.Length == 32 && 32 * n < out.Length && |blocks| == 32 * n && out[..32 * n] == blocks
    modifies out
    ensures out[..Least(32 * (n + 1), out.Length)] == (blocks + t[..])[..Least(32 * (n + 1), out.Length)]
  {
    hide Splice;
    var targetStart := n * 32;
    var chunkLen := Least(32, out.Length - targetStart);
    BlockAppended(blocks, t[..], n, out.Length, out[..]);
    assert t[..][..chunkLen] == t[..chunkLen];
    Set(out, t[..chunkLen], targetStart);
  }

  /** The salt, and four bytes of room for the block number. */
  method SaltBlock(salt: array<byte>) returns (saltBlock: array<byte>)
    ensures fresh(saltBlock) && saltBlock.Length == salt.Length + 4
    ensures saltBlock[..salt.Length] == salt[..]
  {
    saltBlock := new byte[salt.Length + 4](_ => 0);
    Set(saltBlock, salt[..], 0);
  }

  /** One turn of the outer loop: block `n`, counted from 0, is numbered, derived and copied into its place. */
  method AppendBlock(out: array<byte>, saltBlock: array<byte>, password: array<byte>, salt: array<byte>,
                     iterations: int, batchSize: int, n: nat, ghost c: nat, ghost blocks: seq<byte>)
    returns (more: nat)
    requires out != saltBlock && out != password && out != salt && saltBlock != password && saltBlock != salt
    requires c == if iterations >= 1 then iterations else 1
    requires 32 * n < out.Length && |blocks| == 32 * n && out[..32 * n] == blocks
    requires saltBlock.Length == salt.Length + 4 && saltBlock[..salt.Length] == salt[..]
    modifies out, saltBlock
    ensures saltBlock[..salt.Length] == salt[..]
    ensures out[..Least(32 * (n + 1), out.Length)]
         == (blocks + F(password[..], salt[..], c, n + 1))[..Least(32 * (n + 1), out.Length)]
    ensures more == Pauses(iterations, batchSize)
  {
    hide F, Bytes, Splice, Pauses;
    var block := n + 1;
    NumberSalt(saltBlock, salt.Length, block);
    var t: array<byte>;
    t, more := DeriveBlock(password, saltBlock, iterations, batchSize, salt[..], block);
    SetBlock(out, t, n, blocks);
  }

  /** `pbkdf2SHA256`; `pauses` counts the returns to the event loop. */
  method Pbkdf2Sha256(password: array<byte>, salt: array<byte>, iterations: int, dkLen: nat, batchSize: int)
    returns (out: array<byte>, pauses: nat)
    ensures fresh(out)
    ensures iterations >= 1 ==> out[..] == Pbkdf2(password[..], salt[..], iterations, dkLen)
    ensures iterations < 1 ==> out[..] == Pbkdf2(password[..], salt[..], 1, dkLen)
    ensures pauses == (dkLen + 31) / 32 * if iterations >= 1 && batchSize > 0 then (iterations - 1) / batchSize else 0
  {
    ghost var c := if iterations >= 1 then iterations else 1;
    ghost var each := Pauses(iterations, batchSize);
    hide F, Bytes, Splice, ToUint32, Pauses, Pbkdf2;
    var blockCount := BlockCount(dkLen);
    out := new byte[dkLen](_ => 0);
    pauses := 0;
    var saltBlock := SaltBlock(salt);
    assert Blocks(password[..], salt[..], c, 0) == [] && out[..Least(0, dkLen)] == [];
    AllBlocksFit(dkLen);
    hide Blocks, Least, BlockCount;
    for n := 0 to blockCount
      invariant fresh(out) && fresh(saltBlock) && saltBlock != out && saltBlock.Length == salt.Length + 4
      invariant saltBlock[..salt.Length] == salt[..]
      invariant out[..Least(32 * n, dkLen)] == Blocks(password[..], salt[..], c, n)[..Least(32 * n, dkLen)]
      invariant pauses == n * each
    {
      NextBlock(password[..], salt[..], c, n);
      EarlierFit(n, dkLen);
      var more := AppendBlock(out, saltBlock, password, salt, iterations, batchSize, n, c,
                              Blocks(password[..], salt[..], c, n));
      pauses := pauses + more;
    }
    WholeKey(password[..], salt[..], c, dkLen);
    PausesInAll(iterations, batchSize, dkLen);
  }

  lemma AllBlocksFit(dkLen: nat)
    ensures Least(32 * BlockCount(dkLen), dkLen) == dkLen
  {}

  lemma EarlierFit(n: nat, dkLen: nat)
    requires n < BlockCount(dkLen)
    ensures Least(32 * n, dkLen) == 32 * n < dkLen
  {}

  lemma WholeKey(password: seq<byte>, salt: seq<byte>, c: nat, dkLen: nat)
    requires c >= 1
    ensures Blocks(password, salt, c, BlockCount(dkLen))[..dkLen] == Pbkdf2(password, salt, c, dkLen)
  {
    hide Blocks;
  }

  lemma PausesInAll(iterations: int, batchSize: int, dkLen: nat)
    ensures BlockCount(dkLen) * Pauses(iterations, batchSize)
         == (dkLen + 31) / 32 * if iterations >= 1 && batchSize > 0 then (iterations - 1) / batchSize else 0
  {}

  function Least(x: nat, y: nat): nat { if x < y then x else y }

  lemma NextBlock(password: seq<byte>, salt: seq<byte>, c: nat, n: nat)
    requires c >= 1
    ensures Blocks(password, salt, c, n + 1) == Blocks(password, salt, c, n) + F(password, salt, c, n + 1)
  {
    hide F;
  }
}
