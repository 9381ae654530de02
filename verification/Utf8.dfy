/**
 The browser's own UTF-8 encoder against RFC 3629, and exactly which strings it encodes as
 that standard allows.
 */
module Utf8 {
  import opened BigEndians
  import opened JsNumbers
  import opened Options

  // ---------------------------------------------------------------- RFC 3629

  type CodePoint = x: int | 0 <= x <= 0x10ffff

  predicate High(c: CodePoint) { 0xd800 <= c <= 0xdbff }

  predicate Low(c: CodePoint) { 0xdc00 <= c <= 0xdfff }

  predicate Surrogate(c: CodePoint) { High(c) || Low(c) }

  /** The table of section 3, which the standard forbids for surrogates. */
  function Encoded(c: CodePoint): seq<byte> {
    if c <= 0x7f then [c]
    else if c <= 0x7ff then [0xc0 + c / 64, 0x80 + c % 64]
    else if c <= 0xffff then [0xe0 + c / 4096, 0x80 + c / 64 % 64, 0x80 + c % 64]
    else [0xf0 + c / 262144, 0x80 + c / 4096 % 64, 0x80 + c / 64 % 64, 0x80 + c % 64]
  }

  function EncodedAll(cs: seq<CodePoint>): seq<byte> {
    if cs == [] then [] else Encoded(cs[0]) + EncodedAll(cs[1..])
  }

  predicate Tail(b: byte) { 0x80 <= b <= 0xbf }

  datatype Char = Char(point: CodePoint, length: nat)

  /** The first character by the grammar of section 4, or None where the bytes do not start with one. */
  function First(s: seq<byte>): (r: Option<Char>)
    ensures r.Some? ==> 0 < r.value.length <= |s|
  {
    if s == [] then None
    else if s[0] <= 0x7f then Some(Char(s[0], 1))
    else if 0xc2 <= s[0] <= 0xdf && |s| >= 2 && Tail(s[1]) then
      Some(Char((s[0] as int - 0xc0) * 64 + (s[1] - 0x80), 2))
    else if 0xe0 <= s[0] <= 0xef && |s| >= 3 && Tail(s[1]) && Tail(s[2])
            && (s[0] == 0xe0 ==> 0xa0 <= s[1]) && (s[0] == 0xed ==> s[1] <= 0x9f) then
      Some(Char((s[0] as int - 0xe0) * 4096 + (s[1] as int - 0x80) * 64 + (s[2] - 0x80), 3))
    else if 0xf0 <= s[0] <= 0xf4 && |s| >= 4 && Tail(s[1]) && Tail(s[2]) && Tail(s[3])
            && (s[0] == 0xf0 ==> 0x90 <= s[1]) && (s[0] == 0xf4 ==> s[1] <= 0x8f) then
      Some(Char((s[0] as int - 0xf0) * 262144 + (s[1] as int - 0x80) * 4096 + (s[2] as int - 0x80) * 64 + (s[3] - 0x80), 4))
    else None
  }

  /** All characters, or None if the bytes are not UTF-8. */
  function Decoded(s: seq<byte>): Option<seq<CodePoint>>
    decreases |s|
  {
    if s == [] then Some([])
    else match First(s)
      case None => None
      case Some(c) =>
        match Decoded(s[c.length..])
        case None => None
        case Some(rest) => Some([c.point] + rest)
  }

  lemma FirstOfTwo(c: CodePoint, x: nat, y: nat, s: seq<byte>)
    requires 0x80 <= c == x * 64 + y && x < 32 && y < 64
    requires |s| >= 2 && s[0] == 0xc0 + x && s[1] == 0x80 + y
    ensures First(s) == Some(Char(c, 2))
  {}

  lemma FirstOfThree(c: CodePoint, x: nat, y: nat, z: nat, s: seq<byte>)
    requires 0x800 <= c == x * 4096 + y * 64 + z && x < 16 && y < 64 && z < 64
    requires |s| >= 3 && s[0] == 0xe0 + x && s[1] == 0x80 + y && s[2] == 0x80 + z
    ensures First(s) == if Surrogate(c) then None else Some(Char(c, 3))
  {}

  lemma FirstOfFour(c: CodePoint, w: nat, x: nat, y: nat, z: nat, s: seq<byte>)
    requires 0x10000 <= c == w * 262144 + x * 4096 + y * 64 + z && x < 64 && y < 64 && z < 64
    requires |s| >= 4 && s[0] == 0xf0 + w && s[1] == 0x80 + x && s[2] == 0x80 + y && s[3] == 0x80 + z
    ensures First(s) == Some(Char(c, 4))
  {}

  /** An encoded code point is read back, unless it is a surrogate. */
  lemma FirstOfEncoded(c: CodePoint, rest: seq<byte>)
    ensures First(Encoded(c) + rest) == if Surrogate(c) then None else Some(Char(c, |Encoded(c)|))
  {
    var s := Encoded(c) + rest;
    if 0x7f < c {
      hide First;
      Sixes(c);
      if c <= 0x7ff {
        FirstOfTwo(c, c / 64, c % 64, s);
      } else if c <= 0xffff {
        FirstOfThree(c, c / 4096, c / 64 % 64, c % 64, s);
      } else {
        FirstOfFour(c, c / 262144, c / 4096 % 64, c / 64 % 64, c % 64, s);
      }
    }
  }

  /** A number in groups of six bits. */
  lemma Sixes(c: nat)
    ensures c == c / 64 * 64 + c % 64
    ensures c == c / 4096 * 4096 + c / 64 % 64 * 64 + c % 64
    ensures c == c / 262144 * 262144 + c / 4096 % 64 * 4096 + c / 64 % 64 * 64 + c % 64
  {
    var q := c / 64;
    assert q / 64 == c / 4096 && q / 64 / 64 == c / 262144;
  }

  predicate NoSurrogate(cs: seq<CodePoint>) { forall i :: 0 <= i < |cs| ==> !Surrogate(cs[i]) }

  /** Encoded code points are UTF-8, and decode to themselves, if and only if none is a surrogate. */
  lemma {:induction false} DecodedOfEncoded(cs: seq<CodePoint>)
    ensures Decoded(EncodedAll(cs)) == if NoSurrogate(cs) then Some(cs) else None
  {
    hide First, Encoded, Surrogate;
    if cs != [] {
      var rest := EncodedAll(cs[1..]);
      FirstOfEncoded(cs[0], rest);
      EncodedIsNotEmpty(cs[0]);
      DecodedOfEncoded(cs[1..]);
      assert (Encoded(cs[0]) + rest)[|Encoded(cs[0])|..] == rest;
      assert cs == [cs[0]] + cs[1..];
    }
  }

  lemma Digits(q: nat, r: nat)
    requires r < 64
    ensures (q * 64 + r) / 64 == q && (q * 64 + r) % 64 == r
  {}

  lemma EncodedOfThree(x: nat, y: nat, z: nat)
    requires x < 16 && y < 64 && z < 64 && (x == 0 ==> y >= 32)
    ensures Encoded(x * 4096 + y * 64 + z) == [0xe0 + x, 0x80 + y, 0x80 + z]
  {
    Digits(x * 64 + y, z);
    Digits(x, y);
    assert (x * 4096 + y * 64 + z) / 4096 == (x * 4096 + y * 64 + z) / 64 / 64;
  }

  lemma EncodedOfFour(w: nat, x: nat, y: nat, z: nat)
    requires w < 5 && x < 64 && y < 64 && z < 64 && (w == 0 ==> x >= 16) && (w == 4 ==> x < 16)
    ensures Encoded(w * 262144 + x * 4096 + y * 64 + z) == [0xf0 + w, 0x80 + x, 0x80 + y, 0x80 + z]
  {
    var c := w * 262144 + x * 4096 + y * 64 + z;
    Digits(w * 4096 + x * 64 + y, z);
    Digits(w * 64 + x, y);
    Digits(w, x);
    assert c / 4096 == c / 64 / 64 && c / 262144 == c / 64 / 64 / 64;
  }

  /** What the grammar reads is the encoding of what it returns: nothing overlong, no surrogate. */
  lemma FirstIsEncoded(s: seq<byte>)
    requires First(s).Some?
    ensures var c := First(s).value; s[..c.length] == Encoded(c.point) && !Surrogate(c.point)
  {
    if s[0] <= 0x7f {
    } else if s[0] <= 0xdf {
      Digits(s[0] as int - 0xc0, s[1] as int - 0x80);
    } else if s[0] <= 0xef {
      EncodedOfThree(s[0] as int - 0xe0, s[1] as int - 0x80, s[2] as int - 0x80);
    } else {
      EncodedOfFour(s[0] as int - 0xf0, s[1] as int - 0x80, s[2] as int - 0x80, s[3] as int - 0x80);
    }
  }

  /** Bytes are UTF-8 for given code points if and only if they are those points' encoding and none is a surrogate. */
  lemma {:induction false} DecodedExactly(s: seq<byte>, cs: seq<CodePoint>)
    ensures Decoded(s) == Some(cs) <==> s == EncodedAll(cs) && NoSurrogate(cs)
    decreases |s|
  {
    DecodedOfEncoded(cs);
    if Decoded(s) == Some(cs) && s != [] {
      hide First, Encoded, Surrogate;
      FirstIsEncoded(s);
      var c := First(s).value;
      assert cs[0] == c.point && Decoded(s[c.length..]) == Some(cs[1..]);
      DecodedExactly(s[c.length..], cs[1..]);
      assert s == s[..c.length] + s[c.length..];
    }
  }

  lemma EncodedIsNotEmpty(c: CodePoint)
    ensures Encoded(c) != []
  {}

  // ---------------------------------------------------------------- strings of code units

  /** The code points of a string: pairs of surrogates joined, others left as they are. */
  function CodePoints(s: seq<Code>): seq<CodePoint> {
    if s == [] then []
    else if High(s[0]) && |s| > 1 && Low(s[1]) then [Joined(s[0], s[1])] + CodePoints(s[2..])
    else [s[0]] + CodePoints(s[1..])
  }

  function Joined(high: Code, low: Code): CodePoint
    requires High(high) && Low(low)
  {
    0x10000 + (high - 0xd800) * 1024 + (low - 0xdc00)
  }

  /** The code units of UTF-16. */
  function Units(cs: seq<CodePoint>): seq<Code> {
    if cs == [] then []
    else (if cs[0] < 0x10000 then [cs[0]] else [0xd800 + (cs[0] - 0x10000) / 1024, 0xdc00 + (cs[0] - 0x10000) % 1024]) + Units(cs[1..])
  }

  /** No string is lost in its code points. */
  lemma {:induction false} UnitsOfCodePoints(s: seq<Code>)
    ensures Units(CodePoints(s)) == s
  {
    if s == [] {
    } else if High(s[0]) && |s| > 1 && Low(s[1]) {
      UnitsOfCodePoints(s[2..]);
      assert s == [s[0], s[1]] + s[2..];
    } else {
      UnitsOfCodePoints(s[1..]);
      assert s == [s[0]] + s[1..];
    }
  }

  predicate PairedAt(s: seq<Code>, i: nat)
    requires i < |s|
  {
    && (High(s[i]) ==> i + 1 < |s| && Low(s[i + 1]))
    && (Low(s[i]) ==> i > 0 && High(s[i - 1]))
  }

  /** Every high surrogate stands right before a low one, every low one right behind a high one. */
  predicate Paired(s: seq<Code>) { forall i :: 0 <= i < |s| ==> PairedAt(s, i) }

  lemma {:induction false} PairedExactly(s: seq<Code>)
    ensures NoSurrogate(CodePoints(s)) <==> Paired(s)
  {
    if s != [] {
      var cs := CodePoints(s);
      NoSurrogateBehind(cs);
      if High(s[0]) && |s| > 1 && Low(s[1]) {
        assert !Surrogate(cs[0]) && cs[1..] == CodePoints(s[2..]);
        hide CodePoints, NoSurrogate, Paired;
        PairedExactly(s[2..]);
        PairedBehind(s, 2);
      } else {
        assert cs[0] == s[0] && cs[1..] == CodePoints(s[1..]);
        if Surrogate(s[0]) {
          assert !PairedAt(s, 0);
        } else {
          hide CodePoints, NoSurrogate, Paired;
          PairedExactly(s[1..]);
          PairedBehind(s, 1);
        }
      }
    }
  }

  lemma NoSurrogateBehind(cs: seq<CodePoint>)
    requires cs != []
    ensures NoSurrogate(cs) <==> !Surrogate(cs[0]) && NoSurrogate(cs[1..])
  {
    hide Surrogate;
    assert forall i :: 0 < i < |cs| ==> cs[i] == cs[1..][i - 1];
  }

  /** A pair or a unit that is no surrogate in front does not matter. */
  lemma PairedBehind(s: seq<Code>, n: nat)
    requires n <= |s| && ((n == 1 && !Surrogate(s[0])) || (n == 2 && High(s[0]) && Low(s[1])))
    ensures Paired(s) <==> Paired(s[n..])
  {
    var t := s[n..];
    assert forall i :: 0 <= i < |t| ==> t[i] == s[i + n];
    if Paired(t) {
      forall i | 0 <= i < |s| ensures PairedAt(s, i) {
        if i >= n { assert PairedAt(t, i - n); }
      }
    }
    if Paired(s) {
      forall i | 0 <= i < |t| ensures PairedAt(t, i) { assert PairedAt(s, i + n); }
    }
  }

  // ---------------------------------------------------------------- utf8Encode

  /** What the browser's encoder returns. */
  function JsUtf8(s: seq<Code>): seq<byte> { EncodedAll(CodePoints(s)) }

  /**
   The encoder returns UTF-8 if and only if the string's surrogates are paired, and then the
   bytes decode to its code points, from which the string comes back.
   */
  lemma EncoderIsUtf8Exactly(s: seq<Code>)
    ensures Decoded(JsUtf8(s)).Some? <==> Paired(s)
    ensures Paired(s) ==> Decoded(JsUtf8(s)) == Some(CodePoints(s)) && Units(CodePoints(s)) == s
  {
    hide Decoded, EncodedAll, CodePoints, Units, Paired, NoSurrogate;
    DecodedOfEncoded(CodePoints(s));
    PairedExactly(s);
    UnitsOfCodePoints(s);
  }

  /** A lone surrogate goes out as three bytes no decoder of the standard accepts. */
  lemma LoneSurrogateIsNotUtf8()
    ensures JsUtf8([0xd800]) == [0xed, 0xa0, 0x80] && Decoded(JsUtf8([0xd800])) == None
  {
    assert CodePoints([0xd800]) == [0xd800] by { assert [0xd800 as Code][1..] == []; }
    assert [0xd800 as CodePoint][1..] == [];
    EncoderIsUtf8Exactly([0xd800]);
  }

  /** One character of each length: 'A', U+00E9, U+20AC and U+1F600. */
  lemma EncodedCharacters()
    ensures Encoded(0x41) == [0x41] && Encoded(0xe9) == [0xc3, 0xa9]
    ensures Encoded(0x20ac) == [0xe2, 0x82, 0xac] && Encoded(0x1f600) == [0xf0, 0x9f, 0x98, 0x80]
    ensures CodePoints([0xd83d, 0xde00]) == [0x1f600]
  {
    assert [0xd83d as Code, 0xde00][2..] == [];
    assert CodePoints([]) == [];
  }

  lemma EncodedAllGrows(cs: seq<CodePoint>, c: CodePoint)
    ensures EncodedAll(cs + [c]) == EncodedAll(cs) + Encoded(c)
  {
    hide Encoded;
    if cs == [] {
      assert cs + [c] == [c] && [c][1..] == [];
      assert EncodedAll([c]) == Encoded(c) + [] == Encoded(c);
      assert [] + Encoded(c) == Encoded(c);
    } else {
      EncodedAllGrows(cs[1..], c);
      assert (cs + [c])[1..] == cs[1..] + [c];
      assert Encoded(cs[0]) + (EncodedAll(cs[1..]) + Encoded(c)) == Encoded(cs[0]) + EncodedAll(cs[1..]) + Encoded(c);
    }
  }

  /** The first code point of a string and what follows it. */
  lemma NextCodePoint(s: seq<Code>, done: seq<CodePoint>)
    requires s != []
    ensures var pair := High(s[0]) && |s| > 1 && Low(s[1]);
            var point: CodePoint, rest := if pair then Joined(s[0], s[1]) else s[0], if pair then s[2..] else s[1..];
            done + CodePoints(s) == done + [point] + CodePoints(rest)
  {
    hide Joined;
  }

  /** The bytes pushed for one code point. */
  method PushCodePoint(code: CodePoint, bytes: seq<byte>) returns (r: seq<byte>)
    ensures r == bytes + Encoded(code)
  {
    if code <= 0x7f {
      r := bytes + [code];
    } else if code <= 0x7ff {
      r := bytes + [0xc0 + code / 64, 0x80 + code % 64];
    } else if code <= 0xffff {
      r := bytes + [0xe0 + code / 4096, 0x80 + code / 64 % 64, 0x80 + code % 64];
    } else {
      r := bytes + [0xf0 + code / 262144, 0x80 + code / 4096 % 64, 0x80 + code / 64 % 64, 0x80 + code % 64];
    }
  }

  method Utf8Encode(str: seq<Code>) returns (bytes: seq<byte>)
    ensures bytes == JsUtf8(str)
  {
    NothingEncoded();
    hide EncodedAll, CodePoints, Encoded;
    bytes := [];
    var i := 0;
    ghost var done: seq<CodePoint> := [];
    assert str[0..] == str && done + CodePoints(str) == CodePoints(str);
    while i < |str|
      invariant 0 <= i <= |str|
      invariant done + CodePoints(str[i..]) == CodePoints(str)
      invariant bytes == EncodedAll(done)
    {
      NextCodePoint(str[i..], done);
      assert str[i..][1..] == str[i + 1..];
      var code: CodePoint := str[i];
      if 0xd800 <= code <= 0xdbff && i + 1 < |str| {
        var low := str[i + 1];
        if 0xdc00 <= low <= 0xdfff {
          assert str[i..][2..] == str[i + 2..];
          code := 0x10000 + (code - 0xd800) * 1024 + (low - 0xdc00);
          i := i + 1;
        }
      }
      EncodedAllGrows(done, code);
      done := done + [code];
      bytes := PushCodePoint(code, bytes);
      i := i + 1;
    }
    assert str[i..] == [];
    NothingLeft(done);
  }

  lemma NothingLeft(done: seq<CodePoint>)
    ensures done + CodePoints([]) == done
  {}

  lemma NothingEncoded()
    ensures EncodedAll([]) == []
  {}
}
