/**
 Base64 salts: the browser's decoder with its 32-bit accumulator, the server's
 first-success-of-four decoder, and the encodings of RFC 4648 both must undo.
 */
module Base64 {
  import opened BigEndians
  import opened GoStrings
  import opened JsNumbers
  import opened Options

  type Sextet = x: int | 0 <= x < 64

  const EQUALS: Code := 61
  const NEXT_LINE: Code := 0x85

  // ---------------------------------------------------------------- RFC 4648

  datatype Alphabet = Standard | Url

  /** Tables 1 and 2: the alphabets of sections 4 and 5 differ in the last two characters. */
  function CharOf(v: Sextet, alphabet: Alphabet): Code {
    if v < 26 then 65 + v
    else if v < 52 then 97 + (v - 26)
    else if v < 62 then 48 + (v - 52)
    else if v == 62 then (if alphabet.Url? then 45 else 43)
    else (if alphabet.Url? then 95 else 47)
  }

  function ValueOf(c: Code, alphabet: Alphabet): (v: Option<Sextet>)
    ensures v.Some? ==> CharOf(v.value, alphabet) == c
  {
    if 65 <= c <= 90 then Some(c - 65)
    else if 97 <= c <= 122 then Some(c - 97 + 26)
    else if 48 <= c <= 57 then Some(c - 48 + 52)
    else if c == CharOf(62, alphabet) then Some(62)
    else if c == CharOf(63, alphabet) then Some(63)
    else None
  }

  /** The alphabet as section 4 prints it; that of section 5 differs in the last two characters. */
  const ALPHABET: string := CAPITALS + SMALLS + "0123456789+/"

  const CAPITALS: string := "ABCDEFGHIJKLMNOPQRSTUVWXYZ"

  const SMALLS: string := "abcdefghijklmnopqrstuvwxyz"

  lemma Letters(v: nat)
    requires v < 26
    ensures CAPITALS[v] as int == 65 + v && SMALLS[v] as int == 97 + v
  {}

  lemma AlphabetInFull(v: Sextet)
    ensures |ALPHABET| == 64 && CharOf(v, Standard) == ALPHABET[v] as int
    ensures CharOf(v, Url) == if v == 62 then 45 else if v == 63 then 95 else CharOf(v, Standard)
  {
    if v < 26 { Letters(v); } else if v < 52 { Letters(v - 26); }
  }

  lemma ValueOfChar(v: Sextet, alphabet: Alphabet)
    ensures ValueOf(CharOf(v, alphabet), alphabet) == Some(v)
    ensures CharOf(v, alphabet) != EQUALS && CharOf(v, alphabet) < 128
  {}

  /** The six-bit groups of section 4, zero bits added to the last one. */
  function Sextets(bytes: seq<byte>): seq<Sextet> {
    if bytes == [] then []
    else if |bytes| == 1 then [bytes[0] / 4, bytes[0] % 4 * 16]
    else if |bytes| == 2 then [bytes[0] / 4, bytes[0] % 4 * 16 + bytes[1] / 16, bytes[1] % 16 * 4]
    else [bytes[0] / 4, bytes[0] % 4 * 16 + bytes[1] / 16, bytes[1] % 16 * 4 + bytes[2] / 64, bytes[2] % 64]
         + Sextets(bytes[3..])
  }

  function Chars(vs: seq<Sextet>, alphabet: Alphabet): seq<Code> {
    seq(|vs|, i requires 0 <= i < |vs| => CharOf(vs[i], alphabet))
  }

  function Repeated(c: Code, n: nat): seq<Code> { seq(n, _ => c) }

  function Encode(bytes: seq<byte>, alphabet: Alphabet, padded: bool): seq<Code> {
    Chars(Sextets(bytes), alphabet) + Repeated(EQUALS, if padded then (3 - |bytes| % 3) % 3 else 0)
  }

  function FirstByte(a: Sextet, b: Sextet): byte { a as int * 4 + b / 16 }

  function SecondByte(b: Sextet, c: Sextet): byte { b as int % 16 * 16 + c / 4 }

  function ThirdByte(c: Sextet, d: Sextet): byte { c as int % 4 * 64 + d }

  /** The bytes six-bit groups stand for; a lone last group stands for none. */
  function Regroup(vs: seq<Sextet>): seq<byte> {
    if |vs| < 2 then []
    else if |vs| == 2 then [FirstByte(vs[0], vs[1])]
    else if |vs| == 3 then [FirstByte(vs[0], vs[1]), SecondByte(vs[1], vs[2])]
    else [FirstByte(vs[0], vs[1]), SecondByte(vs[1], vs[2]), ThirdByte(vs[2], vs[3])] + Regroup(vs[4..])
  }

  lemma FirstByteBack(x: byte, y: nat)
    requires y < 16
    ensures FirstByte(x / 4, x % 4 * 16 + y) == x
  {}

  lemma SecondByteBack(x: nat, y: byte, z: nat)
    requires x < 4 && z < 4
    ensures SecondByte(x * 16 + y / 16, y % 16 * 4 + z) == y
  {}

  lemma ThirdByteBack(y: nat, z: byte)
    requires y < 16
    ensures ThirdByte(y * 4 + z / 64, z % 64) == z
  {}

  lemma {:induction false} RegroupSextets(bytes: seq<byte>)
    ensures Regroup(Sextets(bytes)) == bytes
  {
    hide FirstByte, SecondByte, ThirdByte;
    if |bytes| == 1 {
      FirstByteBack(bytes[0], 0);
    } else if |bytes| == 2 {
      FirstByteBack(bytes[0], bytes[1] / 16);
      SecondByteBack(bytes[0] % 4, bytes[1], 0);
    } else if |bytes| >= 3 {
      RegroupSextets(bytes[3..]);
      FirstByteBack(bytes[0], bytes[1] / 16);
      SecondByteBack(bytes[0] % 4, bytes[1], bytes[2] / 64);
      ThirdByteBack(bytes[1] % 16, bytes[2]);
      assert Sextets(bytes)[4..] == Sextets(bytes[3..]);
      assert bytes == [bytes[0], bytes[1], bytes[2]] + bytes[3..];
    }
  }

  /** The vectors of section 10 for "f", "fo" and "foo", and two bytes on which the alphabets differ. */
  lemma EncodedVectors()
    ensures Encode([102], Standard, true) == [90, 103, 61, 61]
    ensures Encode([102, 111], Standard, true) == [90, 109, 56, 61]
    ensures Encode([102, 111, 111], Standard, true) == [90, 109, 57, 118]
    ensures Encode([0xfb, 0xff], Standard, false) == [43, 47, 56] && Encode([0xfb, 0xff], Url, false) == [45, 95, 56]
  {
    assert [102 as byte, 111, 111][3..] == [];
    assert Sextets([]) == [];
  }

  // ---------------------------------------------------------------- the browser

  lemma JsSpacesAre(c: Code)
    ensures JsSpace(c) <==> c in {
      0x09, 0x0a, 0x0b, 0x0c, 0x0d, 0x20, 0xa0, 0x1680, 0x2000, 0x2001, 0x2002, 0x2003, 0x2004, 0x2005, 0x2006,
      0x2007, 0x2008, 0x2009, 0x200a, 0x2028, 0x2029, 0x202f, 0x205f, 0x3000, 0xfeff }
  {}

  /** The white space of `\s`. */
  predicate JsSpace(c: Code) {
    || 9 <= c <= 13 || c == 32 || c == 0xa0 || c == 0x1680 || 0x2000 <= c <= 0x200a
    || c == 0x2028 || c == 0x2029 || c == 0x202f || c == 0x205f || c == 0x3000 || c == 0xfeff
  }

  function WithoutSpaces(cs: seq<Code>): seq<Code> {
    if cs == [] then [] else (if JsSpace(cs[0]) then [] else [cs[0]]) + WithoutSpaces(cs[1..])
  }

  function StandardChar(c: Code): Code { if c == 45 then 43 else if c == 95 then 47 else c }

  function Translated(cs: seq<Code>): seq<Code> {
    seq(|cs|, i requires 0 <= i < |cs| => StandardChar(cs[i]))
  }

  function Cleaned(salt: seq<Code>): seq<Code> {
    var s := Translated(WithoutSpaces(salt));
    s + Repeated(EQUALS, (4 - |s| % 4) % 4)
  }

  /**
   `lookup[...]`: -1 for a foreign ASCII character. The table ends at 128; the undefined
   beyond it is not below 0 and becomes 0 in the bitwise or.
   */
  function Lookup(c: Code): (value: int)
    ensures -1 <= value < 64
  {
    if c >= 128 then 0
    else match ValueOf(c, Standard) case Some(v) => v case None => -1
  }

  /** `buffer << 6`, modulo 2^32 and signed. */
  function ShiftLeft6(buffer: int): (r: int)
    ensures r % 64 == 0
  {
    ToInt32Wraps(buffer * 64);
    assert buffer * 64 + TWO_32 * Wraps(buffer * 64) == 64 * (buffer + 0x400_0000 * Wraps(buffer * 64));
    hide ToInt32, Wraps;
    ToInt32(buffer * 64)
  }

  /** `a | v` where the low six bits of `a` are clear. */
  function OrSextet(a: int, v: Sextet): int
    requires a % 64 == 0
  {
    a + v
  }

  function Power2(n: nat): nat
    requires n <= 6
  {
    if n == 0 then 1 else if n == 2 then 4 else if n == 4 then 16 else 64
  }

  /** `(buffer >> bits) & 0xff`: sign-extending shift of the 32-bit value, then its low byte. */
  function ShiftedByte(buffer: int, bits: nat): byte
    requires bits <= 6
  {
    ToInt32(buffer) / Power2(bits) % 256
  }

  datatype Accumulator = Accumulator(buffer: int, bits: nat, out: seq<byte>)

  predicate Proper(acc: Accumulator) { acc.bits == 0 || acc.bits == 2 || acc.bits == 4 || acc.bits == 6 }

  function Push(acc: Accumulator, v: Sextet): (r: Accumulator)
    requires Proper(acc)
    ensures Proper(r)
  {
    var buffer := OrSextet(ShiftLeft6(acc.buffer), v);
    var bits := acc.bits + 6;
    if bits >= 8 then Accumulator(buffer, bits - 8, acc.out + [ShiftedByte(buffer, bits - 8)])
    else Accumulator(buffer, bits, acc.out)
  }

  function PushAll(acc: Accumulator, vs: seq<Sextet>): Accumulator
    requires Proper(acc)
    decreases |vs|
  {
    if vs == [] then acc else PushAll(Push(acc, vs[0]), vs[1..])
  }

  /** The values up to the first `=`, or None if a character is refused before it. */
  function Values(cs: seq<Code>): Option<seq<Sextet>> {
    if cs == [] || cs[0] == EQUALS then Some([])
    else if Lookup(cs[0]) < 0 then None
    else match Values(cs[1..])
      case None => None
      case Some(vs) => Some([Lookup(cs[0])] + vs)
  }

  function JsDecode(salt: seq<Code>): Option<seq<byte>> {
    match Values(Cleaned(salt))
    case None => None
    case Some(vs) => Some(PushAll(Accumulator(0, 0, []), vs).out)
  }

  /** The accumulator's low twelve bits are all that ever matters, so its wrapping is harmless. */
  lemma PushLow(acc: Accumulator, v: Sextet)
    requires Proper(acc)
    ensures var r := Push(acc, v);
            && r.buffer % 4096 == acc.buffer % 64 * 64 + v
            && (acc.bits == 0 ==> r.bits == 6 && r.out == acc.out)
            && (acc.bits == 6 ==> r.bits == 4 && r.out == acc.out + [r.buffer % 4096 / 16])
            && (acc.bits == 4 ==> r.bits == 2 && r.out == acc.out + [r.buffer % 4096 / 4 % 256])
            && (acc.bits == 2 ==> r.bits == 0 && r.out == acc.out + [r.buffer % 4096 % 256])
  {
    var b := ShiftLeft6(acc.buffer) + v;
    ShiftLow(acc.buffer, v);
    LowBits(b);
  }

  lemma ShiftLow(buffer: int, v: Sextet)
    ensures (ShiftLeft6(buffer) + v) % 4096 == buffer % 64 * 64 + v
  {
    hide ToInt32, Wraps;
    var q := Wraps(buffer * 64);
    ToInt32Wraps(buffer * 64);
    assert ShiftLeft6(buffer) + v == 4096 * (buffer / 64 + 0x10_0000 * q) + (buffer % 64 * 64 + v);
  }

  lemma LowBits(b: int)
    ensures ShiftedByte(b, 4) == b % 4096 / 16
    ensures ShiftedByte(b, 2) == b % 4096 / 4 % 256
    ensures ShiftedByte(b, 0) == b % 4096 % 256
  {
    hide ToInt32, Wraps;
    ToInt32Wraps(b);
    var h, l := b / 4096 + 0x10_0000 * Wraps(b), b % 4096;
    assert ToInt32(b) == 4096 * h + l;
    ShiftedLow(h, l, ToInt32(b));
  }

  lemma ShiftedLow(h: int, l: nat, x: int)
    requires x == 4096 * h + l && l < 4096
    ensures x / 16 % 256 == l / 16 && x / 4 % 256 == l / 4 % 256 && x % 256 == l % 256
  {
    Quotient16(256 * h, l);
    Quotient4(1024 * h, l);
    Remainder256(h, l / 16);
    Remainder256(4 * h, l / 4);
    Remainder256(16 * h, l);
  }

  lemma Quotient16(q: int, r: int)
    ensures (16 * q + r) / 16 == q + r / 16
  {}

  lemma Quotient4(q: int, r: int)
    ensures (4 * q + r) / 4 == q + r / 4
  {}

  lemma Remainder256(q: int, r: int)
    ensures (256 * q + r) % 256 == r % 256
  {}

  /** Pushing two, three and four values from a clean state completes one, two and three bytes. */
  lemma PushTwo(acc: Accumulator, v: Sextet, w: Sextet)
    requires acc.bits == 0
    ensures var r := Push(Push(acc, v), w);
            r.bits == 4 && r.buffer % 64 == w && r.out == acc.out + [FirstByte(v, w)]
  {
    PushLow(acc, v);
    PushLow(Push(acc, v), w);
    hide Push;
    Remainders(Push(acc, v).buffer, acc.buffer, v);
    Remainders(Push(Push(acc, v), w).buffer, Push(acc, v).buffer, w);
    assert (v * 64 + w) / 16 == v * 4 + w / 16 by { Quotient16(v * 4, w); }
  }

  lemma Remainders(buffer: int, before: int, v: Sextet)
    requires buffer % 4096 == before % 64 * 64 + v
    ensures buffer % 64 == v
  {
    Remainder64(64 * (buffer / 4096) + before % 64, v);
  }

  lemma Remainder64(q: int, v: Sextet)
    ensures (64 * q + v) % 64 == v
  {}

  lemma BytesOfPairs(w: Sextet, x: Sextet)
    ensures (w as int * 64 + x) / 4 % 256 == SecondByte(w, x)
    ensures (w as int * 64 + x) % 256 == ThirdByte(w, x)
  {
    SecondOfPair(w, x);
    ThirdOfPair(w, x);
  }

  lemma SecondOfPair(w: Sextet, x: Sextet)
    ensures (w as int * 64 + x) / 4 % 256 == SecondByte(w, x)
  {
    Quotient4(w as int * 16, x);
    Remainder256(w / 16, w as int % 16 * 16 + x / 4);
  }

  lemma ThirdOfPair(w: Sextet, x: Sextet)
    ensures (w as int * 64 + x) % 256 == ThirdByte(w, x)
  {
    Remainder256(w / 4, w as int % 4 * 64 + x);
  }

  lemma PushThree(acc: Accumulator, v: Sextet, w: Sextet, x: Sextet)
    requires acc.bits == 0
    ensures var r := Push(Push(Push(acc, v), w), x);
            r.bits == 2 && r.buffer % 64 == x && r.out == acc.out + [FirstByte(v, w), SecondByte(w, x)]
  {
    PushTwo(acc, v, w);
    var b := Push(Push(acc, v), w);
    PushLow(b, x);
    hide Push;
    Remainders(Push(b, x).buffer, b.buffer, x);
    hide SecondByte;
    BytesOfPairs(w, x);
  }

  lemma PushFour(acc: Accumulator, v: Sextet, w: Sextet, x: Sextet, y: Sextet)
    requires acc.bits == 0
    ensures var r := Push(Push(Push(Push(acc, v), w), x), y);
            r.bits == 0 && r.out == acc.out + [FirstByte(v, w), SecondByte(w, x), ThirdByte(x, y)]
  {
    PushThree(acc, v, w, x);
    var c := Push(Push(Push(acc, v), w), x);
    PushLow(c, y);
    hide Push;
    hide FirstByte, SecondByte, ThirdByte;
    BytesOfPairs(x, y);
  }

  lemma PushAllOf(acc: Accumulator, v: Sextet, rest: seq<Sextet>)
    requires Proper(acc)
    ensures PushAll(acc, [v] + rest) == PushAll(Push(acc, v), rest)
  {
    hide Push;
    assert ([v] + rest)[1..] == rest;
  }

  /** Up to four values pushed from a clean state. */
  lemma PushUpToFour(acc: Accumulator, vs: seq<Sextet>)
    requires acc.bits == 0 && |vs| <= 4
    ensures var r := PushAll(acc, vs);
            r.out == acc.out + Regroup(vs) && (|vs| == 4 ==> r.bits == 0)
  {
    hide Push;
    if vs == [] {
    } else if |vs| == 1 {
      assert vs == [vs[0]] + [];
      PushAllOf(acc, vs[0], []);
      PushLow(acc, vs[0]);
    } else if |vs| == 2 {
      PushTwo(acc, vs[0], vs[1]);
      assert vs == [vs[0]] + ([vs[1]] + []);
      PushAllOf(acc, vs[0], [vs[1]] + []);
      PushAllOf(Push(acc, vs[0]), vs[1], []);
    } else {
      PushMore(acc, vs);
    }
  }

  lemma PushMore(acc: Accumulator, vs: seq<Sextet>)
    requires acc.bits == 0 && 3 <= |vs| <= 4
    ensures var r := PushAll(acc, vs);
            r.out == acc.out + Regroup(vs) && (|vs| == 4 ==> r.bits == 0)
  {
    hide Push, FirstByte, SecondByte, ThirdByte;
    var rest := vs[3..];
    assert vs == [vs[0]] + ([vs[1]] + ([vs[2]] + rest));
    var a := Push(acc, vs[0]);
    var b := Push(a, vs[1]);
    var c := Push(b, vs[2]);
    PushAllOf(acc, vs[0], [vs[1]] + ([vs[2]] + rest));
    PushAllOf(a, vs[1], [vs[2]] + rest);
    PushAllOf(b, vs[2], rest);
    if |vs| == 3 {
      PushThree(acc, vs[0], vs[1], vs[2]);
    } else {
      PushFour(acc, vs[0], vs[1], vs[2], vs[3]);
      assert rest == [vs[3]] + [] && vs[4..] == [];
      PushAllOf(c, vs[3], []);
    }
  }

  lemma {:induction false} PushAllSplit(acc: Accumulator, vs: seq<Sextet>, k: nat)
    requires k <= |vs| && Proper(acc)
    ensures Proper(PushAll(acc, vs[..k])) && PushAll(acc, vs) == PushAll(PushAll(acc, vs[..k]), vs[k..])
    decreases k
  {
    hide Push;
    if k > 0 {
      PushAllSplit(Push(acc, vs[0]), vs[1..], k - 1);
      assert vs[1..][..k - 1] == vs[..k][1..] && vs[1..][k - 1..] == vs[k..];
    }
  }

  lemma {:induction false} PushAllRegroups(acc: Accumulator, vs: seq<Sextet>)
    requires acc.bits == 0
    ensures PushAll(acc, vs).out == acc.out + Regroup(vs)
    decreases |vs|
  {
    hide Push, PushAll;
    if |vs| <= 4 {
      PushUpToFour(acc, vs);
    } else {
      PushUpToFour(acc, vs[..4]);
      PushAllSplit(acc, vs, 4);
      PushAllRegroups(PushAll(acc, vs[..4]), vs[4..]);
      assert Regroup(vs) == Regroup(vs[..4]) + Regroup(vs[4..]) by { assert vs[..4][4..] == []; }
    }
  }

  /** What the browser returns, stated without an accumulator: refused, or the regrouped values. */
  lemma JsDecodeRegroups(salt: seq<Code>)
    ensures JsDecode(salt) == match Values(Cleaned(salt)) case None => None case Some(vs) => Some(Regroup(vs))
  {
    hide Values, Cleaned, Regroup, PushAll;
    match Values(Cleaned(salt))
    case None =>
    case Some(vs) =>
      PushAllRegroups(Accumulator(0, 0, []), vs);
      assert [] + Regroup(vs) == Regroup(vs);
  }

  // ---------------------------------------------------------------- the server

  predicate GoSpace(c: Code) { SpaceCode(c) }

  function TrimLeft(cs: seq<Code>): (t: seq<Code>)
    ensures |t| <= |cs|
  {
    if cs != [] && GoSpace(cs[0]) then TrimLeft(cs[1..]) else cs
  }

  function TrimRight(cs: seq<Code>): (t: seq<Code>)
    ensures |t| <= |cs|
  {
    if cs != [] && GoSpace(cs[|cs| - 1]) then TrimRight(cs[..|cs| - 1]) else cs
  }

  function TrimSpace(cs: seq<Code>): seq<Code> { TrimRight(TrimLeft(cs)) }

  /** `DecodeString` skips carriage returns and newlines. */
  function WithoutNewlines(cs: seq<Code>): seq<Code> {
    if cs == [] then []
    else (if cs[0] == 10 || cs[0] == 13 then [] else [cs[0]]) + WithoutNewlines(cs[1..])
  }

  /** Carriage return and newline are skipped inside a salt, and no other character. */
  lemma NewlinesAre(c: Code)
    ensures WithoutNewlines([c]) == if c == 13 || c == 10 then [] else [c]
  {
    assert [c][1..] == [];
  }

  /** How many of the first four characters belong to the alphabet before one that does not. */
  function Quantum(cs: seq<Code>, alphabet: Alphabet): (vs: seq<Sextet>)
    ensures |vs| <= 4 && |vs| <= |cs|
  {
    QuantumUpTo(cs, alphabet, 4)
  }

  function QuantumUpTo(cs: seq<Code>, alphabet: Alphabet, n: nat): (vs: seq<Sextet>)
    ensures |vs| <= n && |vs| <= |cs|
  {
    if n == 0 || cs == [] then []
    else match ValueOf(cs[0], alphabet)
      case None => []
      case Some(v) => [v] + QuantumUpTo(cs[1..], alphabet, n - 1)
  }

  /** One quantum after the other; only the last may be short, and then it must end as the padding rule says. */
  function Quanta(cs: seq<Code>, alphabet: Alphabet, padded: bool): Option<seq<byte>>
    decreases |cs|
  {
    var vs := Quantum(cs, alphabet);
    if |vs| == 4 then
      match Quanta(cs[4..], alphabet, padded)
      case None => None
      case Some(rest) => Some(Regroup(vs) + rest)
    else if cs == [] then Some([])
    else
      var tail := cs[|vs|..];
      if |vs| >= 2 && tail == Repeated(EQUALS, if padded then 4 - |vs| else 0) then Some(Regroup(vs)) else None
  }

  function GoDecode(cs: seq<Code>, alphabet: Alphabet, padded: bool): Option<seq<byte>> {
    Quanta(WithoutNewlines(cs), alphabet, padded)
  }

  /** `decodeBase64Salt`: the first of the four decoders that succeeds. */
  function GoSalt(salt: seq<Code>): Option<seq<byte>> {
    var trimmed := TrimSpace(salt);
    var a, b := GoDecode(trimmed, Standard, true), GoDecode(trimmed, Standard, false);
    var c, d := GoDecode(trimmed, Url, true), GoDecode(trimmed, Url, false);
    if a.Some? then a else if b.Some? then b else if c.Some? then c else d
  }

  // ---------------------------------------------------------------- the server's success is the browser's

  /** A decoder's success in terms of the browser's functions. */
  lemma {:induction false} QuantaAreValues(cs: seq<Code>, alphabet: Alphabet, padded: bool)
    requires Quanta(cs, alphabet, padded).Some?
    ensures forall i :: 0 <= i < |cs| ==> !JsSpace(cs[i])
    ensures match Values(Translated(cs)) case None => false case Some(vs) => Quanta(cs, alphabet, padded) == Some(Regroup(vs))
    decreases |cs|
  {
    hide Regroup, JsSpace, Values, QuantumUpTo, Translated;
    var vs := Quantum(cs, alphabet);
    var tail := cs[|vs|..];
    FrontThenTail(cs, alphabet);
    if |vs| == 4 {
      QuantaAreValues(tail, alphabet, padded);
      RegroupFour(vs, Values(Translated(tail)).value);
    } else {
      EqualsEnd(tail);
      assert vs + [] == vs;
      if cs == [] { RegroupNone(); }
    }
    forall i | 0 <= i < |cs| ensures !JsSpace(cs[i]) {
      if i >= |vs| { assert cs[i] == tail[i - |vs|]; }
    }
  }

  lemma RegroupNone()
    ensures Regroup([]) == []
  {}

  /** A first quantum's values, then whatever follows it. */
  lemma FrontThenTail(cs: seq<Code>, alphabet: Alphabet)
    ensures var vs := Quantum(cs, alphabet);
            && (Values(Translated(cs)) == match Values(Translated(cs[|vs|..])) case None => None case Some(more) => Some(vs + more))
            && forall i :: 0 <= i < |vs| ==> !JsSpace(cs[i])
  {
    hide Values, JsSpace, StandardChar, QuantumUpTo, CharOf;
    var vs := Quantum(cs, alphabet);
    QuantumChars(cs, alphabet, 4);
    ValuesOfChars(vs, Translated(cs[|vs|..]));
    assert Translated(cs) == Translated(cs)[..|vs|] + Translated(cs[|vs|..]);
  }

  lemma EqualsEnd(tail: seq<Code>)
    requires forall i :: 0 <= i < |tail| ==> tail[i] == EQUALS
    ensures Values(Translated(tail)) == Some([])
    ensures !JsSpace(EQUALS)
  {}

  lemma RegroupFour(vs: seq<Sextet>, rest: seq<Sextet>)
    requires |vs| == 4
    ensures Regroup(vs + rest) == Regroup(vs) + Regroup(rest)
  {
    assert vs[4..] == [];
    if rest == [] {
      assert vs + rest == vs;
    } else {
      assert (vs + rest)[4..] == rest;
    }
  }

  lemma ValuesCons(c: Code, cs: seq<Code>)
    requires c != EQUALS && Lookup(c) >= 0
    ensures Values([c] + cs) == match Values(cs) case None => None case Some(more) => Some([Lookup(c)] + more)
  {
    hide Lookup;
    assert ([c] + cs)[1..] == cs;
  }

  /** The browser reads standard characters as the values they stand for. */
  lemma {:induction false} ValuesOfChars(vs: seq<Sextet>, rest: seq<Code>)
    ensures Values(Chars(vs, Standard) + rest)
         == match Values(rest) case None => None case Some(more) => Some(vs + more)
  {
    hide Lookup, CharOf, Values;
    var cs := Chars(vs, Standard) + rest;
    if vs == [] {
      assert cs == rest;
      if Values(rest).Some? { assert vs + Values(rest).value == Values(rest).value; }
    } else {
      ValuesOfChars(vs[1..], rest);
      LookupChar(vs[0]);
      assert cs == [CharOf(vs[0], Standard)] + (Chars(vs[1..], Standard) + rest);
      ValuesCons(CharOf(vs[0], Standard), Chars(vs[1..], Standard) + rest);
      if Values(rest).Some? { assert [vs[0]] + (vs[1..] + Values(rest).value) == vs + Values(rest).value; }
    }
  }

  lemma LookupChar(v: Sextet)
    ensures Lookup(CharOf(v, Standard)) == v && CharOf(v, Standard) != EQUALS
  {
    ValueOfChar(v, Standard);
  }

  /** The browser turns a quantum's characters into the standard ones of the same values. */
  lemma {:induction false} QuantumChars(cs: seq<Code>, alphabet: Alphabet, n: nat)
    ensures var vs := QuantumUpTo(cs, alphabet, n);
            && Translated(cs)[..|vs|] == Chars(vs, Standard)
            && forall i :: 0 <= i < |vs| ==> !JsSpace(cs[i])
  {
    hide JsSpace, ValueOf, StandardChar;
    if n > 0 && cs != [] && ValueOf(cs[0], alphabet).Some? {
      var vs := QuantumUpTo(cs, alphabet, n);
      QuantumChars(cs[1..], alphabet, n - 1);
      CharIsValue(cs[0], alphabet);
      forall i | 0 <= i < |vs| ensures !JsSpace(cs[i]) && Translated(cs)[i] == Chars(vs, Standard)[i] {
        if i > 0 {
          assert cs[i] == cs[1..][i - 1];
          assert Translated(cs[1..])[..|vs| - 1][i - 1] == Chars(vs[1..], Standard)[i - 1];
        }
      }
    }
  }

  lemma CharIsValue(c: Code, alphabet: Alphabet)
    requires ValueOf(c, alphabet).Some?
    ensures !JsSpace(c) && StandardChar(c) == CharOf(ValueOf(c, alphabet).value, Standard)
  {}

  lemma {:induction false} WithoutSpacesConcat(a: seq<Code>, b: seq<Code>)
    ensures WithoutSpaces(a + b) == WithoutSpaces(a) + WithoutSpaces(b)
  {
    hide JsSpace;
    if a == [] {
      assert a + b == b;
    } else {
      WithoutSpacesConcat(a[1..], b);
      assert (a + b)[1..] == a[1..] + b && (a + b)[0] == a[0];
      var kept, x, y := if JsSpace(a[0]) then [] else [a[0]], WithoutSpaces(a[1..]), WithoutSpaces(b);
      assert WithoutSpaces(a + b) == kept + (x + y) == kept + x + y;
    }
  }

  lemma {:induction false} NoSpacesNothingRemoved(cs: seq<Code>)
    requires forall i :: 0 <= i < |cs| ==> !JsSpace(cs[i])
    ensures WithoutSpaces(cs) == cs
  {
    hide JsSpace;
    if cs != [] {
      NoSpacesNothingRemoved(cs[1..]);
      assert cs == [cs[0]] + cs[1..];
    }
  }

  lemma {:induction false} NewlinesAreSpaces(cs: seq<Code>)
    ensures WithoutSpaces(WithoutNewlines(cs)) == WithoutSpaces(cs)
  {
    if cs != [] {
      NewlinesAreSpaces(cs[1..]);
      var kept := if cs[0] == 10 || cs[0] == 13 then [] else [cs[0]];
      WithoutSpacesConcat(kept, WithoutNewlines(cs[1..]));
      assert kept != [] ==> kept[1..] == [];
    }
  }

  /** U+0085 is white space to Go and not to `\s`: a salt's occurrences of it among what the server trims. */
  function NextLines(cs: seq<Code>): nat {
    if cs == [] then 0 else (if cs[0] == NEXT_LINE then 1 else 0) + NextLines(cs[1..])
  }

  function Leading(salt: seq<Code>): seq<Code> { salt[..|salt| - |TrimLeft(salt)|] }

  function Trailing(salt: seq<Code>): seq<Code> { TrimLeft(salt)[|TrimSpace(salt)|..] }

  predicate OnlySpaces(w: seq<Code>) { forall i :: 0 <= i < |w| ==> GoSpace(w[i]) }

  lemma {:induction false} TrimLeftSplits(cs: seq<Code>)
    ensures OnlySpaces(Leading(cs)) && cs == Leading(cs) + TrimLeft(cs)
  {
    hide GoSpace;
    if cs != [] && GoSpace(cs[0]) {
      TrimLeftSplits(cs[1..]);
      assert cs == [cs[0]] + cs[1..];
      assert Leading(cs) == [cs[0]] + Leading(cs[1..]);
    }
  }

  lemma {:induction false} TrimRightSplits(cs: seq<Code>)
    ensures OnlySpaces(cs[|TrimRight(cs)|..]) && cs == TrimRight(cs) + cs[|TrimRight(cs)|..]
  {
    hide GoSpace;
    var n := |cs| - 1;
    if cs != [] && GoSpace(cs[n]) {
      TrimRightSplits(cs[..n]);
      assert cs == cs[..n] + [cs[n]];
      assert cs[|TrimRight(cs)|..] == cs[..n][|TrimRight(cs)|..] + [cs[n]];
    }
  }

  lemma TrimSplits(salt: seq<Code>)
    ensures OnlySpaces(Leading(salt)) && OnlySpaces(Trailing(salt))
    ensures salt == Leading(salt) + (TrimSpace(salt) + Trailing(salt))
  {
    hide TrimLeft, TrimRight, OnlySpaces;
    TrimLeftSplits(salt);
    TrimRightSplits(TrimLeft(salt));
  }

  /** Of white space the browser leaves the U+0085s. */
  lemma {:induction false} NextLinesAreLeft(w: seq<Code>)
    requires OnlySpaces(w)
    ensures WithoutSpaces(w) == Repeated(NEXT_LINE, NextLines(w))
  {
    if w != [] { NextLinesAreLeft(w[1..]); }
  }

  lemma {:induction false} ValuesIgnorePadding(cs: seq<Code>, n: nat)
    ensures Values(cs + Repeated(EQUALS, n)) == Values(cs)
  {
    hide Lookup;
    if cs != [] && cs[0] != EQUALS && Lookup(cs[0]) >= 0 {
      ValuesIgnorePadding(cs[1..], n);
      assert (cs + Repeated(EQUALS, n))[1..] == cs[1..] + Repeated(EQUALS, n);
    }
  }

  // ---------------------------------------------------------------- what the server accepts

  function BeforeEquals(cs: seq<Code>): (body: seq<Code>)
    ensures body <= cs && EQUALS !in body
    ensures |body| < |cs| ==> cs[|body|] == EQUALS
  {
    if cs == [] || cs[0] == EQUALS then [] else [cs[0]] + BeforeEquals(cs[1..])
  }

  predicate InAlphabet(cs: seq<Code>, alphabet: Alphabet) {
    forall i :: 0 <= i < |cs| ==> ValueOf(cs[i], alphabet).Some?
  }

  /** How many `=` complete a last group of `n` letters. */
  function Completing(n: nat): nat { (4 - n % 4) % 4 }

  /** Letters that fill bytes, then nothing or the padding that completes the last group. */
  predicate WellFormed(cs: seq<Code>, alphabet: Alphabet, padded: bool) {
    var body := BeforeEquals(cs);
    && InAlphabet(body, alphabet)
    && |body| % 4 != 1
    && cs[|body|..] == Repeated(EQUALS, if padded then Completing(|body|) else 0)
  }

  lemma {:induction false} QuantumIsLetters(cs: seq<Code>, alphabet: Alphabet, n: nat)
    ensures var k := |QuantumUpTo(cs, alphabet, n)|;
            && InAlphabet(cs[..k], alphabet)
            && (k < n && k < |cs| ==> ValueOf(cs[k], alphabet).None?)
  {
    hide ValueOf;
    if n > 0 && cs != [] && ValueOf(cs[0], alphabet).Some? {
      QuantumIsLetters(cs[1..], alphabet, n - 1);
      var k := |QuantumUpTo(cs[1..], alphabet, n - 1)|;
      assert cs[..k + 1] == [cs[0]] + cs[1..][..k];
    }
  }

  lemma {:induction false} BeforeEqualsOfLetters(letters: seq<Code>, rest: seq<Code>)
    requires EQUALS !in letters
    ensures BeforeEquals(letters + rest) == letters + BeforeEquals(rest)
  {
    if letters == [] {
      assert letters + rest == rest && letters + BeforeEquals(rest) == BeforeEquals(rest);
    } else {
      assert (letters + rest)[1..] == letters[1..] + rest;
      BeforeEqualsOfLetters(letters[1..], rest);
      assert letters == [letters[0]] + letters[1..];
    }
  }

  lemma LettersAreNotEquals(cs: seq<Code>, alphabet: Alphabet)
    requires InAlphabet(cs, alphabet)
    ensures EQUALS !in cs
  {
    NotInAlphabet(alphabet);
  }

  lemma InAlphabetConcat(a: seq<Code>, b: seq<Code>, alphabet: Alphabet)
    ensures InAlphabet(a + b, alphabet) <==> InAlphabet(a, alphabet) && InAlphabet(b, alphabet)
  {
    hide ValueOf;
    assert forall i :: 0 <= i < |a| ==> (a + b)[i] == a[i];
    assert forall i :: 0 <= i < |b| ==> (a + b)[|a| + i] == b[i];
  }

  /** A decoder succeeds exactly on well-formed text. */
  lemma {:induction false} QuantaExactly(cs: seq<Code>, alphabet: Alphabet, padded: bool)
    ensures Quanta(cs, alphabet, padded).Some? <==> WellFormed(cs, alphabet, padded)
    decreases |cs|
  {
    hide ValueOf, Regroup, QuantumUpTo, BeforeEquals, InAlphabet, WellFormed;
    var k := |Quantum(cs, alphabet)|;
    QuantumIsLetters(cs, alphabet, 4);
    LettersAreNotEquals(cs[..k], alphabet);
    BeforeEqualsOfLetters(cs[..k], cs[k..]);
    assert cs == cs[..k] + cs[k..];
    if k == 4 {
      QuantaExactly(cs[4..], alphabet, padded);
      FullQuantum(cs, alphabet, padded);
    } else {
      ShortQuantum(cs, alphabet, padded, k);
    }
  }

  lemma FourMore(n: nat)
    ensures (n + 4) % 4 == n % 4 && Completing(n + 4) == Completing(n)
  {}

  lemma FullQuantum(cs: seq<Code>, alphabet: Alphabet, padded: bool)
    requires |cs| >= 4 && InAlphabet(cs[..4], alphabet)
    requires BeforeEquals(cs) == cs[..4] + BeforeEquals(cs[4..])
    ensures WellFormed(cs, alphabet, padded) <==> WellFormed(cs[4..], alphabet, padded)
  {
    var rest := BeforeEquals(cs[4..]);
    InAlphabetConcat(cs[..4], rest, alphabet);
    FourMore(|rest|);
    hide BeforeEquals, InAlphabet, Repeated, Completing;
    assert cs[4..][|rest|..] == cs[|rest| + 4..];
  }

  lemma ShortQuantum(cs: seq<Code>, alphabet: Alphabet, padded: bool, k: nat)
    requires k == |Quantum(cs, alphabet)| < 4
    requires BeforeEquals(cs) == cs[..k] + BeforeEquals(cs[k..])
    requires InAlphabet(cs[..k], alphabet) && (k < |cs| ==> ValueOf(cs[k], alphabet).None?)
    ensures Quanta(cs, alphabet, padded).Some? <==> WellFormed(cs, alphabet, padded)
  {
    hide ValueOf, Regroup, QuantumUpTo, BeforeEquals;
    var rest := BeforeEquals(cs[k..]);
    if k < |cs| && cs[k] != EQUALS {
      assert rest != [] && rest[0] == cs[k] && BeforeEquals(cs)[k] == cs[k];
    } else {
      assert rest == [] && BeforeEquals(cs) == cs[..k];
    }
  }

  /**
   The server accepts a salt if and only if, white space around it and line ends aside, it is
   letters of one alphabet, not one more than a multiple of four, with no padding or all of it.
   */
  lemma ServerAcceptsExactly(salt: seq<Code>)
    ensures var s := WithoutNewlines(TrimSpace(salt));
            var body := BeforeEquals(s);
            GoSalt(salt).Some? <==>
              && (InAlphabet(body, Standard) || InAlphabet(body, Url))
              && |body| % 4 != 1
              && (s[|body|..] == [] || s[|body|..] == Repeated(EQUALS, Completing(|body|)))
  {
    hide Quanta, WithoutNewlines, TrimSpace, BeforeEquals, InAlphabet;
    var s := WithoutNewlines(TrimSpace(salt));
    forall alphabet, padded ensures GoDecode(TrimSpace(salt), alphabet, padded).Some? <==> WellFormed(s, alphabet, padded) {
      QuantaExactly(s, alphabet, padded);
    }
    assert Repeated(EQUALS, 0) == [];
  }

  // ---------------------------------------------------------------- whether the browser agrees

  function Zeros(n: nat): seq<Sextet> { seq(n, _ => 0) }

  lemma {:induction false} ValuesOfNextLines(n: nat, cs: seq<Code>)
    ensures Values(Repeated(NEXT_LINE, n) + cs) == match Values(cs) case None => None case Some(vs) => Some(Zeros(n) + vs)
  {
    hide Values;
    if n == 0 {
      assert Repeated(NEXT_LINE, n) + cs == cs;
      if Values(cs).Some? { assert Zeros(n) + Values(cs).value == Values(cs).value; }
    } else {
      ValuesOfNextLines(n - 1, cs);
      ValuesCons(NEXT_LINE, Repeated(NEXT_LINE, n - 1) + cs);
      assert Repeated(NEXT_LINE, n) + cs == [NEXT_LINE] + (Repeated(NEXT_LINE, n - 1) + cs);
      if Values(cs).Some? { assert [0] + (Zeros(n - 1) + Values(cs).value) == Zeros(n) + Values(cs).value; }
    }
  }

  /** Characters after an `=` are not read; others go on. */
  lemma {:induction false} ValuesAppend(cs: seq<Code>, rest: seq<Code>)
    requires Values(cs).Some?
    ensures Values(cs + rest) ==
      if EQUALS in cs then Values(cs)
      else match Values(rest) case None => None case Some(more) => Some(Values(cs).value + more)
  {
    hide Lookup;
    if cs == [] {
      assert cs + rest == rest;
      if Values(rest).Some? { assert [] + Values(rest).value == Values(rest).value; }
    } else if cs[0] != EQUALS {
      ValuesAppend(cs[1..], rest);
      assert (cs + rest)[1..] == cs[1..] + rest;
      assert cs == [cs[0]] + cs[1..];
      if Values(rest).Some? {
        var vs := Values(cs[1..]).value;
        assert [Lookup(cs[0])] + (vs + Values(rest).value) == [Lookup(cs[0])] + vs + Values(rest).value;
      }
    }
  }

  /** The values are those of the characters before the first `=`. */
  lemma {:induction false} ValuesOfBody(cs: seq<Code>)
    requires Values(Translated(cs)).Some?
    ensures var vs, body := Values(Translated(cs)).value, BeforeEquals(cs);
            |vs| == |body| && forall i :: 0 <= i < |vs| ==> vs[i] == Lookup(StandardChar(body[i]))
  {
    if cs != [] {
      LookupAccepts(cs[0]);
      hide Lookup, StandardChar;
      assert Translated(cs)[1..] == Translated(cs[1..]);
      if cs[0] != EQUALS { ValuesOfBody(cs[1..]); }
    }
  }

  lemma {:induction false} RegroupLength(vs: seq<Sextet>)
    ensures |Regroup(vs)| == |vs| * 3 / 4
  {
    if |vs| >= 4 { RegroupLength(vs[4..]); }
  }

  lemma {:induction false} RegroupConcat(vs: seq<Sextet>, rest: seq<Sextet>)
    requires |vs| % 4 == 0
    ensures Regroup(vs + rest) == Regroup(vs) + Regroup(rest)
  {
    hide Regroup;
    if vs == [] {
      RegroupNone();
      assert vs + rest == rest && [] + Regroup(rest) == Regroup(rest);
    } else {
      RegroupConcat(vs[4..], rest);
      RegroupFour(vs[..4], vs[4..]);
      RegroupFour(vs[..4], vs[4..] + rest);
      assert vs == vs[..4] + vs[4..] && vs + rest == vs[..4] + (vs[4..] + rest);
    }
  }

  lemma FirstBytesEqual(a: Sextet, b: Sextet, c: Sextet, d: Sextet)
    requires FirstByte(a, b) == FirstByte(c, d)
    ensures a == c && b / 16 == d / 16
  {}

  lemma SecondBytesEqual(a: Sextet, b: Sextet, c: Sextet, d: Sextet)
    requires SecondByte(a, b) == SecondByte(c, d)
    ensures a % 16 == c % 16 && b / 4 == d / 4
  {}

  lemma ThirdBytesEqual(a: Sextet, b: Sextet, c: Sextet, d: Sextet)
    requires ThirdByte(a, b) == ThirdByte(c, d)
    ensures a % 4 == c % 4 && b == d
  {}

  /** A group of four values is determined by its bytes. */
  lemma GroupsEqual(vs: seq<Sextet>, ws: seq<Sextet>)
    requires |vs| == |ws| == 4 && Regroup(vs) == Regroup(ws)
    ensures vs == ws
  {
    hide FirstByte, SecondByte, ThirdByte;
    assert Regroup(vs)[0] == Regroup(ws)[0] && Regroup(vs)[1] == Regroup(ws)[1] && Regroup(vs)[2] == Regroup(ws)[2];
    FirstBytesEqual(vs[0], vs[1], ws[0], ws[1]);
    SecondBytesEqual(vs[1], vs[2], ws[1], ws[2]);
    ThirdBytesEqual(vs[2], vs[3], ws[2], ws[3]);
  }

  /** Shifted by one value, whole groups stand for the same bytes only if they repeat that value. */
  lemma {:induction false} ShiftedGroups(v: Sextet, vs: seq<Sextet>)
    requires |vs| % 4 == 0
    ensures Regroup([v] + vs) == Regroup(vs) <==> forall i :: 0 <= i < |vs| ==> vs[i] == v
    decreases |vs|
  {
    hide Regroup;
    if vs == [] {
      RegroupShort([v] + vs);
      RegroupShort(vs);
    } else {
      var first, last := [v] + vs[..3], vs[3];
      ShiftedGroups(last, vs[4..]);
      RegroupFour(first, [last] + vs[4..]);
      RegroupFour(vs[..4], vs[4..]);
      assert [v] + vs == first + ([last] + vs[4..]) && vs == vs[..4] + vs[4..];
      RegroupLength(first);
      RegroupLength(vs[..4]);
      if forall i :: 0 <= i < |vs| ==> vs[i] == v {
        assert first == vs[..4];
      }
      if Regroup([v] + vs) == Regroup(vs) {
        ConcatsEqual(Regroup(first), Regroup([last] + vs[4..]), Regroup(vs[..4]), Regroup(vs[4..]));
        GroupsEqual(first, vs[..4]);
        assert first[0] == vs[..4][0] && first[1] == vs[..4][1] && first[2] == vs[..4][2] && first[3] == vs[..4][3];
        assert forall i :: 4 <= i < |vs| ==> vs[i] == vs[4..][i - 4];
      }
    }
  }

  lemma RegroupShort(vs: seq<Sextet>)
    requires |vs| < 2
    ensures Regroup(vs) == []
  {}

  lemma ConcatsEqual<T>(a: seq<T>, b: seq<T>, c: seq<T>, d: seq<T>)
    requires a + b == c + d && |a| == |c|
    ensures a == c && b == d
  {
    assert (a + b)[..|a|] == a && (c + d)[..|c|] == c && (a + b)[|a|..] == b && (c + d)[|c|..] == d;
  }

  /** Zeros around values are harmless when there are none, or one that completes no byte. */
  lemma ZerosAround(a: nat, vs: seq<Sextet>, b: nat)
    requires |vs| % 4 != 1
    ensures Regroup(Zeros(a) + (vs + Zeros(b))) == Regroup(vs) <==>
      || a + b == 0
      || (a + b == 1 && |vs| % 4 == 0 && (a == 1 ==> forall i :: 0 <= i < |vs| ==> vs[i] == 0))
  {
    hide Regroup;
    var ws := Zeros(a) + (vs + Zeros(b));
    RegroupLength(vs);
    RegroupLength(ws);
    assert |ws| == |vs| + (a + b);
    if a + b == 0 {
      assert ws == vs;
    } else if a + b == 1 && |vs| % 4 == 0 {
      if a == 1 {
        assert ws == [0] + vs;
        ShiftedGroups(0, vs);
      } else {
        assert ws == vs + [0];
        RegroupConcat(vs, [0]);
        RegroupShort([0]);
      }
    } else {
      LongerRegroups(|vs|, a + b);
    }
  }

  lemma LongerRegroups(n: nat, k: nat)
    requires n % 4 != 1 && k > 0 && (k > 1 || n % 4 != 0)
    ensures (n + k) * 3 / 4 > n * 3 / 4
  {}

  /**
   Where the U+0085s the server trims do no harm in the browser: nowhere before the salt, and
   behind it only after padding or one after whole groups; or a single one before groups of `A`s.
   */
  predicate NextLinesHarmless(salt: seq<Code>) {
    var s := WithoutNewlines(TrimSpace(salt));
    var before, behind := NextLines(Leading(salt)), NextLines(Trailing(salt));
    || (before == 0 && (behind == 0 || EQUALS in s || (behind == 1 && |s| % 4 == 0)))
    || (before == 1 && behind == 0 && |s| % 4 == 0 && forall i :: 0 <= i < |s| ==> s[i] == 65)
  }

  lemma CleaningLeavesNextLines(salt: seq<Code>)
    requires var s := WithoutNewlines(TrimSpace(salt)); forall i :: 0 <= i < |s| ==> !JsSpace(s[i])
    ensures WithoutSpaces(salt) == Repeated(NEXT_LINE, NextLines(Leading(salt)))
              + (WithoutNewlines(TrimSpace(salt)) + Repeated(NEXT_LINE, NextLines(Trailing(salt))))
  {
    hide JsSpace, WithoutSpaces, TrimSpace, WithoutNewlines, Leading, Trailing, NextLines, OnlySpaces;
    TrimSplits(salt);
    WithoutSpacesConcat(Leading(salt), TrimSpace(salt) + Trailing(salt));
    WithoutSpacesConcat(TrimSpace(salt), Trailing(salt));
    NextLinesAreLeft(Leading(salt));
    NextLinesAreLeft(Trailing(salt));
    NewlinesAreSpaces(TrimSpace(salt));
    NoSpacesNothingRemoved(WithoutNewlines(TrimSpace(salt)));
  }

  /** What the browser makes of a salt a decoder of the server accepts. */
  lemma BrowserOnAccepted(salt: seq<Code>, alphabet: Alphabet, padded: bool)
    requires GoDecode(TrimSpace(salt), alphabet, padded).Some?
    ensures var s := WithoutNewlines(TrimSpace(salt));
            var before, behind := NextLines(Leading(salt)), NextLines(Trailing(salt));
            && Values(Translated(s)).Some?
            && var vs := Values(Translated(s)).value;
               && GoDecode(TrimSpace(salt), alphabet, padded) == Some(Regroup(vs))
               && JsDecode(salt) == Some(Regroup(Zeros(before) + (vs + Zeros(if EQUALS in s then 0 else behind))))
  {
    hide Values, Quanta, Regroup, JsSpace, WithoutSpaces, TrimSpace, WithoutNewlines, PushAll, StandardChar, Leading, Trailing;
    var s := WithoutNewlines(TrimSpace(salt));
    var before, behind := NextLines(Leading(salt)), NextLines(Trailing(salt));
    hide NextLines;
    WellFormedHasNoSpaces(s, alphabet, padded);
    QuantaAreValues(s, alphabet, padded);
    CleaningLeavesNextLines(salt);
    NotTranslated(s);
    var vs := Values(Translated(s)).value;
    var tail := Repeated(NEXT_LINE, behind);
    TranslatedParts(before, s, behind);
    ValuesOfTail(Translated(s), behind);
    ValuesOfNextLines(before, Translated(s) + tail);
    var cleaned := Translated(WithoutSpaces(salt));
    ValuesIgnorePadding(cleaned, (4 - |cleaned| % 4) % 4);
    JsDecodeRegroups(salt);
  }

  lemma TranslatedParts(before: nat, s: seq<Code>, behind: nat)
    ensures Translated(Repeated(NEXT_LINE, before) + (s + Repeated(NEXT_LINE, behind)))
         == Repeated(NEXT_LINE, before) + (Translated(s) + Repeated(NEXT_LINE, behind))
  {
    NotTranslated(s);
    hide StandardChar;
    assert forall i :: 0 <= i < |s| ==> Translated(s)[i] == StandardChar(s[i]);
  }

  lemma NotTranslated(s: seq<Code>)
    ensures EQUALS in Translated(s) <==> EQUALS in s
    ensures StandardChar(NEXT_LINE) == NEXT_LINE
  {
    forall i | 0 <= i < |s| ensures s[i] == EQUALS <==> Translated(s)[i] == EQUALS {}
  }

  lemma ValuesOfTail(cs: seq<Code>, n: nat)
    requires Values(cs).Some?
    ensures Values(cs + Repeated(NEXT_LINE, n)) == Some(Values(cs).value + Zeros(if EQUALS in cs then 0 else n))
  {
    ValuesAppend(cs, Repeated(NEXT_LINE, n));
    ValuesOfNextLines(n, []);
    hide Values;
    assert Repeated(NEXT_LINE, n) + [] == Repeated(NEXT_LINE, n);
    assert Zeros(n) + [] == Zeros(n) && Values(cs).value + Zeros(0) == Values(cs).value;
    NothingRead();
  }

  lemma NothingRead()
    ensures Values([]) == Some([])
  {}

  lemma WellFormedHasNoSpaces(s: seq<Code>, alphabet: Alphabet, padded: bool)
    requires Quanta(s, alphabet, padded).Some?
    ensures forall i :: 0 <= i < |s| ==> !JsSpace(s[i])
    ensures |BeforeEquals(s)| % 4 != 1 && InAlphabet(BeforeEquals(s), alphabet)
    ensures EQUALS in s ==> |BeforeEquals(s)| % 4 != 0
    ensures EQUALS !in s ==> BeforeEquals(s) == s
  {
    hide Quanta, JsSpace, ValueOf;
    QuantaExactly(s, alphabet, padded);
    var body := BeforeEquals(s);
    hide BeforeEquals;
    forall i | 0 <= i < |s| ensures !JsSpace(s[i]) {
      if i < |body| {
        assert body[i] == s[i];
        CharIsValue(s[i], alphabet);
      } else {
        assert s[i] == s[|body|..][i - |body|] == EQUALS;
        EqualsEnd([]);
      }
    }
    assert s == body + s[|body|..];
  }

  lemma ZeroIsA(c: Code, alphabet: Alphabet)
    requires ValueOf(c, alphabet).Some?
    ensures Lookup(StandardChar(c)) == 0 <==> c == 65
  {}

  /**
   Whichever of the four decoders succeeds, the browser returns bytes too; they are the same
   if and only if the U+0085s around the salt are harmless.
   */
  lemma BrowserAgreesWithDecoder(salt: seq<Code>, alphabet: Alphabet, padded: bool)
    requires GoDecode(TrimSpace(salt), alphabet, padded).Some?
    ensures JsDecode(salt).Some?
    ensures JsDecode(salt) == GoDecode(TrimSpace(salt), alphabet, padded) <==> NextLinesHarmless(salt)
  {
    BrowserOnAccepted(salt, alphabet, padded);
    hide JsDecode, Values, Quanta, Regroup, TrimSpace, WithoutNewlines, StandardChar, Lookup, Leading, Trailing, Translated;
    hide NextLines, BeforeEquals, ValueOf;
    var s := WithoutNewlines(TrimSpace(salt));
    var before, behind := NextLines(Leading(salt)), NextLines(Trailing(salt));
    WellFormedHasNoSpaces(s, alphabet, padded);
    ValuesOfBody(s);
    var vs, body := Values(Translated(s)).value, BeforeEquals(s);
    forall i | 0 <= i < |vs| ensures vs[i] == 0 <==> body[i] == 65 {
      ZeroIsA(body[i], alphabet);
    }
    ZerosAround(before, vs, if EQUALS in s then 0 else behind);
    EqualsIsNoA();
  }

  lemma EqualsIsNoA()
    ensures EQUALS != 65
  {}

  /**
   Every salt the server decodes, the browser decodes, and to the same bytes if and only if the
   U+0085s around it are harmless.
   */
  lemma BrowserExtendsServer(salt: seq<Code>)
    requires GoSalt(salt).Some?
    ensures JsDecode(salt).Some?
    ensures JsDecode(salt) == GoSalt(salt) <==> NextLinesHarmless(salt)
  {
    hide GoDecode, TrimSpace, JsDecode, NextLinesHarmless;
    forall alphabet: Alphabet, padded: bool | GoDecode(TrimSpace(salt), alphabet, padded).Some?
      ensures JsDecode(salt).Some?
      ensures JsDecode(salt) == GoDecode(TrimSpace(salt), alphabet, padded) <==> NextLinesHarmless(salt)
    {
      BrowserAgreesWithDecoder(salt, alphabet, padded);
    }
  }

  lemma {:induction false} NoNextLines(cs: seq<Code>)
    ensures NextLines(cs) == 0 <==> NEXT_LINE !in cs
  {
    if cs != [] {
      NoNextLines(cs[1..]);
      assert cs == [cs[0]] + cs[1..];
    }
  }

  /** Without a U+0085 the two never part. */
  lemma HarmlessWithout(salt: seq<Code>)
    requires NEXT_LINE !in salt
    ensures NextLinesHarmless(salt)
  {
    hide TrimSpace, WithoutNewlines, Leading, Trailing, NextLines;
    TrimSplits(salt);
    NoNextLines(Leading(salt));
    NoNextLines(Trailing(salt));
  }

  // ---------------------------------------------------------------- round trips

  lemma {:induction false} SextetCount(bytes: seq<byte>)
    ensures |Sextets(bytes)| == (4 * |bytes| + 2) / 3
  {
    if |bytes| >= 3 { SextetCount(bytes[3..]); }
  }

  lemma {:induction false} QuantumOfChars(vs: seq<Sextet>, alphabet: Alphabet, rest: seq<Code>, n: nat)
    requires |vs| <= n
    requires |vs| < n && rest != [] ==> ValueOf(rest[0], alphabet).None?
    ensures QuantumUpTo(Chars(vs, alphabet) + rest, alphabet, n) == vs
  {
    hide CharOf, ValueOf;
    var cs := Chars(vs, alphabet) + rest;
    if vs == [] {
      assert cs == rest;
    } else {
      ValueOfChar(vs[0], alphabet);
      assert cs[1..] == Chars(vs[1..], alphabet) + rest;
      QuantumOfChars(vs[1..], alphabet, rest, n - 1);
    }
  }

  lemma SextetsSplit(bytes: seq<byte>)
    requires |bytes| >= 3
    ensures |Sextets(bytes[..3])| == 4 && Sextets(bytes) == Sextets(bytes[..3]) + Sextets(bytes[3..])
  {
    assert bytes[..3][3..] == [];
  }

  /** The decoder for an encoding undoes it. */
  lemma {:induction false} QuantaOfEncoding(bytes: seq<byte>, alphabet: Alphabet, padded: bool)
    ensures Quanta(Encode(bytes, alphabet, padded), alphabet, padded) == Some(bytes)
    decreases |bytes|
  {
    hide CharOf, ValueOf, QuantumUpTo, Sextets, Regroup;
    var cs := Encode(bytes, alphabet, padded);
    if |bytes| >= 3 {
      var first := Sextets(bytes[..3]);
      SextetsSplit(bytes);
      assert cs == Chars(first, alphabet) + Encode(bytes[3..], alphabet, padded);
      QuantumOfChars(first, alphabet, Encode(bytes[3..], alphabet, padded), 4);
      QuantaOfEncoding(bytes[3..], alphabet, padded);
      assert cs[4..] == Encode(bytes[3..], alphabet, padded);
      RegroupSextets(bytes[..3]);
      assert bytes == bytes[..3] + bytes[3..];
    } else {
      LastGroup(bytes, alphabet, padded);
    }
  }

  lemma LastGroup(bytes: seq<byte>, alphabet: Alphabet, padded: bool)
    requires |bytes| < 3
    ensures Quanta(Encode(bytes, alphabet, padded), alphabet, padded) == Some(bytes)
  {
    hide CharOf, QuantumUpTo, Regroup;
    var vs, cs := Sextets(bytes), Encode(bytes, alphabet, padded);
    var n := if padded then (3 - |bytes| % 3) % 3 else 0;
    NotInAlphabet(alphabet);
    QuantumOfChars(vs, alphabet, Repeated(EQUALS, n), 4);
    RegroupSextets(bytes);
    if bytes != [] { assert cs[|vs|..] == Repeated(EQUALS, n); }
  }

  lemma NotInAlphabet(alphabet: Alphabet)
    ensures ValueOf(EQUALS, alphabet).None?
  {}

  lemma EncodingHasNoSpaces(bytes: seq<byte>, alphabet: Alphabet, padded: bool)
    ensures var cs := Encode(bytes, alphabet, padded); forall i :: 0 <= i < |cs| ==> !GoSpace(cs[i])
  {
    var vs := Sextets(bytes);
    forall i | 0 <= i < |vs| ensures !GoSpace(CharOf(vs[i], alphabet)) {}
  }

  predicate AllSpaces(w: seq<Code>) {
    forall i :: 0 <= i < |w| ==> GoSpace(w[i]) && w[i] != NEXT_LINE
  }

  lemma {:induction false} TrimLeftOf(w: seq<Code>, cs: seq<Code>)
    requires AllSpaces(w) && (cs != [] ==> !GoSpace(cs[0]))
    ensures TrimLeft(w + cs) == cs
  {
    hide GoSpace;
    if w == [] {
      assert w + cs == cs;
    } else {
      assert (w + cs)[1..] == w[1..] + cs;
      TrimLeftOf(w[1..], cs);
    }
  }

  lemma {:induction false} TrimLeftOfSpaces(w: seq<Code>)
    requires AllSpaces(w)
    ensures TrimLeft(w) == []
  {
    hide GoSpace;
    if w != [] { TrimLeftOfSpaces(w[1..]); }
  }

  lemma {:induction false} TrimRightOf(cs: seq<Code>, w: seq<Code>)
    requires AllSpaces(w) && (cs != [] ==> !GoSpace(cs[|cs| - 1]))
    ensures TrimRight(cs + w) == cs
  {
    hide GoSpace;
    if w == [] {
      assert cs + w == cs;
    } else {
      var n := |w| - 1;
      assert (cs + w)[..|cs + w| - 1] == cs + w[..n];
      TrimRightOf(cs, w[..n]);
    }
  }

  lemma TrimSpaceOf(before: seq<Code>, cs: seq<Code>, after: seq<Code>)
    requires AllSpaces(before) && AllSpaces(after) && forall i :: 0 <= i < |cs| ==> !GoSpace(cs[i])
    ensures TrimSpace(before + cs + after) == cs
  {
    hide GoSpace, TrimLeft, TrimRight;
    if cs == [] {
      assert before + cs + after == before + after;
      TrimLeftOfSpaces(before + after);
      TrimRightOf([], []);
      assert [] + [] == TrimLeft(before + after);
    } else {
      assert before + cs + after == before + (cs + after);
      TrimLeftOf(before, cs + after);
      TrimRightOf(cs, after);
    }
  }

  lemma {:induction false} NoNewlinesNothingRemoved(cs: seq<Code>)
    requires forall i :: 0 <= i < |cs| ==> !GoSpace(cs[i])
    ensures WithoutNewlines(cs) == cs
  {
    if cs != [] {
      NoNewlinesNothingRemoved(cs[1..]);
      assert cs == [cs[0]] + cs[1..];
    }
  }

  /**
   Whatever the bytes, the alphabet, the padding and the white space around, both sides
   decode an encoding to the bytes it encodes.
   */
  lemma SaltRoundTrip(bytes: seq<byte>, alphabet: Alphabet, padded: bool, before: seq<Code>, after: seq<Code>)
    requires AllSpaces(before) && AllSpaces(after)
    ensures var salt := before + Encode(bytes, alphabet, padded) + after;
            JsDecode(salt) == Some(bytes) && GoSalt(salt) == Some(bytes)
  {
    var cs := Encode(bytes, alphabet, padded);
    var salt := before + cs + after;
    EncodingHasNoSpaces(bytes, alphabet, padded);
    assert NEXT_LINE !in salt by { assert forall i :: 0 <= i < |cs| ==> cs[i] != NEXT_LINE; }
    hide Encode, GoSpace, JsDecode, Quanta, TrimSpace, WithoutNewlines;
    TrimSpaceOf(before, cs, after);
    NoNewlinesNothingRemoved(cs);
    QuantaOfEncoding(bytes, alphabet, padded);
    assert GoDecode(TrimSpace(salt), alphabet, padded) == Some(bytes);
    HarmlessWithout(salt);
    BrowserAgreesWithDecoder(salt, alphabet, padded);
    BrowserExtendsServer(salt);
  }

  // ---------------------------------------------------------------- base64urlFromArray

  function UrlChar(c: Code): Code { if c == 43 then 45 else if c == 47 then 95 else c }

  function Replaced(cs: seq<Code>): seq<Code> { seq(|cs|, i requires 0 <= i < |cs| => UrlChar(cs[i])) }

  function StripEquals(cs: seq<Code>): seq<Code> {
    if cs != [] && cs[|cs| - 1] == EQUALS then StripEquals(cs[..|cs| - 1]) else cs
  }

  /** `btoa` is the padded standard encoding. */
  function JsEncode(bytes: seq<byte>): seq<Code> { StripEquals(Replaced(Encode(bytes, Standard, true))) }

  lemma {:induction false} StripPadding(cs: seq<Code>, n: nat)
    requires cs != [] ==> cs[|cs| - 1] != EQUALS
    ensures StripEquals(cs + Repeated(EQUALS, n)) == cs
  {
    if n > 0 {
      var s := cs + Repeated(EQUALS, n);
      assert s[..|s| - 1] == cs + Repeated(EQUALS, n - 1);
      StripPadding(cs, n - 1);
    } else {
      assert cs + Repeated(EQUALS, 0) == cs;
    }
  }

  /** The browser's encoder is section 5 of RFC 4648 without padding, and both decoders invert it. */
  lemma EncoderIsUrlUnpadded(bytes: seq<byte>)
    ensures JsEncode(bytes) == Encode(bytes, Url, false)
    ensures JsDecode(JsEncode(bytes)) == Some(bytes) && GoSalt(JsEncode(bytes)) == Some(bytes)
  {
    hide JsDecode, GoSalt, Sextets, StripEquals;
    var vs := Sextets(bytes);
    var n := (3 - |bytes| % 3) % 3;
    forall v: Sextet ensures UrlChar(CharOf(v, Standard)) == CharOf(v, Url) && CharOf(v, Url) != EQUALS {}
    assert Replaced(Encode(bytes, Standard, true)) == Chars(vs, Url) + Repeated(EQUALS, n);
    StripPadding(Chars(vs, Url), n);
    assert Chars(vs, Url) == Encode(bytes, Url, false);
    SaltRoundTrip(bytes, Url, false, [], []);
    assert [] + Encode(bytes, Url, false) + [] == Encode(bytes, Url, false);
  }

  // ---------------------------------------------------------------- where the two differ

  /** A character the browser does not refuse. */
  predicate Accepted(c: Code) { c >= 128 || ValueOf(c, Standard).Some? || ValueOf(c, Url).Some? }

  predicate AcceptedBeforeEquals(cs: seq<Code>) {
    forall i :: 0 <= i < |cs| && EQUALS !in cs[..i + 1] ==> Accepted(cs[i])
  }

  lemma {:induction false} ValuesExactly(cs: seq<Code>)
    ensures Values(Translated(cs)).Some? <==> AcceptedBeforeEquals(cs)
  {
    if cs != [] {
      assert Translated(cs)[1..] == Translated(cs[1..]);
      ValuesExactly(cs[1..]);
      assert cs[..1] == [cs[0]];
      hide Lookup, ValueOf, Accepted, StandardChar;
      LookupAccepts(cs[0]);
      forall i | 0 <= i < |cs[1..]|
        ensures cs[1..][i] == cs[i + 1] && (EQUALS in cs[..i + 2] <==> cs[0] == EQUALS || EQUALS in cs[1..][..i + 1])
      {
        assert cs[..i + 2] == [cs[0]] + cs[1..][..i + 1];
      }
    }
  }

  lemma LookupAccepts(c: Code)
    ensures StandardChar(c) == EQUALS <==> c == EQUALS
    ensures c != EQUALS ==> (Lookup(StandardChar(c)) >= 0 <==> Accepted(c))
  {}

  /** The browser accepts a salt if and only if every character before the first `=`, white space aside, is one it knows or is not ASCII. */
  lemma BrowserAcceptsExactly(salt: seq<Code>)
    ensures JsDecode(salt).Some? <==> AcceptedBeforeEquals(WithoutSpaces(salt))
  {
    hide Values, PushAll, AcceptedBeforeEquals, Translated, WithoutSpaces;
    var s := WithoutSpaces(salt);
    ValuesExactly(s);
    ValuesIgnorePadding(Translated(s), (4 - |Translated(s)| % 4) % 4);
  }

  /**
   A lone character, a space inside and a character beyond ASCII: the browser returns bytes, the
   server refuses. A U+0085 before a salt: both return bytes, and not the same.
   */
  lemma DecodersDiffer()
    ensures JsDecode([0x85, 81, 85, 70, 66]) == Some([1, 5, 5]) && GoSalt([0x85, 81, 85, 70, 66]) == Some([65, 65, 65])
    ensures JsDecode([65]) == Some([]) && GoSalt([65]) == None
    ensures JsDecode([65, 32, 65]) == Some([0]) && GoSalt([65, 32, 65]) == None
    ensures JsDecode([0xe9, 65]) == Some([0]) && GoSalt([0xe9, 65]) == None
  {
    NextLineBefore();
    LoneCharacter();
    SpaceInside();
    BeyondAscii();
  }

  /** The four letters are the values 16, 20, 5 and 1; a zero before them shifts every bit by six. */
  lemma NextLineBefore()
    ensures JsDecode([0x85, 81, 85, 70, 66]) == Some([1, 5, 5]) && GoSalt([0x85, 81, 85, 70, 66]) == Some([65, 65, 65])
  {
    var salt: seq<Code>, vs: seq<Sextet> := [0x85] + QUFB, [16, 20, 5, 1];
    assert salt == [0x85, 81, 85, 70, 66];
    QufbDecodes();
    QufbTrimmed();
    hide GoDecode, TrimSpace, WithoutNewlines, NextLines, Values, Translated, JsDecode, Leading, Trailing, Regroup, Zeros;
    assert GoSalt(salt) == Some([65, 65, 65]);
    BrowserOnAccepted(salt, Standard, true);
    QufbShifted();
  }

  lemma QufbShifted()
    ensures var vs: seq<Sextet> := [16, 20, 5, 1];
            Regroup(vs) == [65, 65, 65] && Regroup(Zeros(1) + (vs + Zeros(0))) == [1, 5, 5]
  {
    var vs: seq<Sextet>, shifted: seq<Sextet> := [16, 20, 5, 1], [0, 16, 20, 5, 1];
    assert Zeros(1) + (vs + Zeros(0)) == shifted;
    assert vs[4..] == [] && shifted[4..] == [1];
    RegroupShort(vs[4..]);
    RegroupShort(shifted[4..]);
  }

  const QUFB: seq<Code> := [81, 85, 70, 66]

  lemma QufbTrimmed()
    ensures var salt := [0x85] + QUFB;
            && TrimSpace(salt) == QUFB && WithoutNewlines(QUFB) == QUFB
            && NextLines(Leading(salt)) == 1 && NextLines(Trailing(salt)) == 0
  {
    var salt := [0x85] + QUFB;
    assert salt[1..] == QUFB && [0x85 as Code][1..] == [];
    assert TrimLeft(QUFB) == QUFB && TrimRight(QUFB) == QUFB;
    assert TrimLeft(salt) == TrimLeft(salt[1..]);
    hide TrimLeft, TrimRight;
    NoNewlines(QUFB);
    assert Leading(salt) == [0x85] && Trailing(salt) == [];
  }

  lemma QufbDecodes()
    ensures GoDecode(QUFB, Standard, true) == Some([65, 65, 65])
    ensures Values(Translated(QUFB)) == Some([16, 20, 5, 1])
  {
    var vs: seq<Sextet> := [16, 20, 5, 1];
    assert Chars(vs, Standard) == QUFB && Translated(QUFB) == QUFB;
    assert QUFB + [] == QUFB && vs + [] == vs && QUFB[4..] == [] && vs[4..] == [];
    QuantumOfChars(vs, Standard, [], 4);
    ValuesOfChars(vs, []);
    NoNewlines(QUFB);
    hide QuantumUpTo, CharOf, Values, Translated, WithoutNewlines;
    NothingRead();
    assert Quanta([], Standard, true) == Some([]);
    assert Regroup(vs) == [65, 65, 65];
  }

  lemma LoneCharacter()
    ensures JsDecode([65]) == Some([]) && GoSalt([65]) == None
  {}

  lemma SpaceInside()
    ensures JsDecode([65, 32, 65]) == Some([0]) && GoSalt([65, 32, 65]) == None
  {
    NothingToTrim(65, [32], 65);
    OneThenForeign([65, 32, 65]);
    assert WithoutSpaces([65, 32, 65]) == [65, 65] by { assert [65, 32, 65][1..] == [32, 65] && [32, 65][1..] == [65]; }
    TwoCharacters([65, 32, 65], 65, 65);
  }

  lemma BeyondAscii()
    ensures JsDecode([0xe9, 65]) == Some([0]) && GoSalt([0xe9, 65]) == None
  {
    NothingToTrim(0xe9, [], 65);
    OneThenForeign([0xe9, 65]);
    assert WithoutSpaces([0xe9, 65]) == [0xe9, 65] by { assert [0xe9, 65][1..] == [65]; }
    TwoCharacters([0xe9, 65], 0xe9, 65);
  }

  /** Two characters left by the browser's cleaning, both read as zero. */
  lemma TwoCharacters(salt: seq<Code>, c: Code, d: Code)
    requires WithoutSpaces(salt) == [c, d] && Lookup(StandardChar(c)) == Lookup(StandardChar(d)) == 0
    ensures JsDecode(salt) == Some([0])
  {
    LookupAccepts(c);
    LookupAccepts(d);
    hide WithoutSpaces, Lookup, StandardChar, PushAll;
    var x, y, pad := StandardChar(c), StandardChar(d), Repeated(EQUALS, 2);
    assert x != EQUALS && y != EQUALS by { EqualsIsRefused(); }
    assert Translated([c, d]) == [x, y];
    assert Cleaned(salt) == [x] + ([y] + pad);
    assert pad[0] == EQUALS && Values(pad) == Some([]);
    ValuesCons(y, pad);
    ValuesCons(x, [y] + pad);
    assert [0] + [] == [0 as Sextet] && [0] + [0] == [0 as Sextet, 0];
    JsDecodeRegroups(salt);
  }

  lemma EqualsIsRefused()
    ensures Lookup(EQUALS) == -1
  {}

  lemma NothingToTrim(c: Code, middle: seq<Code>, d: Code)
    requires !GoSpace(c) && !GoSpace(d)
    requires forall i :: 0 <= i < |middle| ==> middle[i] != 10 && middle[i] != 13
    ensures var cs := [c] + middle + [d]; WithoutNewlines(TrimSpace(cs)) == cs
  {
    var cs := [c] + middle + [d];
    assert TrimLeft(cs) == cs && TrimRight(cs) == cs;
    NoNewlines(cs);
  }

  lemma {:induction false} NoNewlines(cs: seq<Code>)
    requires forall i :: 0 <= i < |cs| ==> cs[i] != 10 && cs[i] != 13
    ensures WithoutNewlines(cs) == cs
  {
    if cs != [] {
      NoNewlines(cs[1..]);
      assert cs == [cs[0]] + cs[1..];
    }
  }

  /** The server refuses when fewer than two characters of a short salt are in the alphabet. */
  lemma OneThenForeign(cs: seq<Code>)
    requires 2 <= |cs| && WithoutNewlines(TrimSpace(cs)) == cs
    requires forall alphabet :: ValueOf(cs[0], alphabet).None? || ValueOf(cs[1], alphabet).None?
    ensures GoSalt(cs) == None
  {
    hide ValueOf, TrimSpace, WithoutNewlines, Regroup;
    forall alphabet: Alphabet, padded: bool ensures GoDecode(TrimSpace(cs), alphabet, padded) == None {
      assert |QuantumUpTo(cs, alphabet, 4)| < 2;
    }
  }

  // ---------------------------------------------------------------- base64SaltBytes

  method BuildLookup() returns (lookup: array<int>)
    ensures fresh(lookup) && lookup.Length == 128
    ensures forall c: Code :: c < 128 ==> lookup[c] == Lookup(c)
  {
    lookup := new int[128](_ => -1);
    for i := 0 to 64
      invariant forall c: Code :: c < 128 ==>
        lookup[c] == match ValueOf(c, Standard) case Some(v) => (if v < i then v else -1) case None => -1
    {
      ValueOfChar(i, Standard);
      AlphabetInFull(i);
      lookup[ALPHABET[i] as int] := i;
    }
  }

  method Base64SaltBytes(salt: seq<Code>) returns (out: Option<seq<byte>>)
    ensures out == JsDecode(salt)
  {
    hide Values, Lookup, Push, PushAll, Cleaned, ValueOf;
    var lookup := BuildLookup();
    var cleaned := Cleaned(salt);
    var acc := Accumulator(0, 0, []);
    var i := 0;
    assert cleaned[0..] == cleaned;
    while i < |cleaned|
      invariant 0 <= i <= |cleaned| && Proper(acc)
      invariant forall c: Code :: c < 128 ==> lookup[c] == Lookup(c)
      invariant JsDecode(salt) == Outcome(acc, cleaned[i..])
    {
      var ch := cleaned[i];
      OutcomeStep(acc, cleaned[i..]);
      assert cleaned[i..][1..] == cleaned[i + 1..];
      if ch == EQUALS { return Some(acc.out); }
      var value := if ch < 128 then lookup[ch] else 0;
      assert value == Lookup(ch) by { LookupBeyondTable(ch); }
      if value < 0 { return None; }
      acc := Push(acc, value);
      i := i + 1;
    }
    assert cleaned[i..] == [];
    OutcomeStep(acc, []);
    out := Some(acc.out);
  }

  /** The result when `cs` remains to be read. */
  function Outcome(acc: Accumulator, cs: seq<Code>): Option<seq<byte>>
    requires Proper(acc)
  {
    match Values(cs) case None => None case Some(vs) => Some(PushAll(acc, vs).out)
  }

  lemma OutcomeStep(acc: Accumulator, cs: seq<Code>)
    requires Proper(acc)
    ensures cs == [] || cs[0] == EQUALS ==> Outcome(acc, cs) == Some(acc.out)
    ensures cs != [] && cs[0] != EQUALS && Lookup(cs[0]) < 0 ==> Outcome(acc, cs) == None
    ensures cs != [] && cs[0] != EQUALS && Lookup(cs[0]) >= 0 ==>
              Outcome(acc, cs) == Outcome(Push(acc, Lookup(cs[0])), cs[1..])
  {
    hide Lookup, Push;
    if cs != [] && cs[0] != EQUALS && Lookup(cs[0]) >= 0 && Values(cs[1..]).Some? {
      PushAllOf(acc, Lookup(cs[0]), Values(cs[1..]).value);
    }
  }

  lemma LookupBeyondTable(c: Code)
    ensures c >= 128 ==> Lookup(c) == 0
  {}
}
