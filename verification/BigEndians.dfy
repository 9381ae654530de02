/** Bytes and big-endian numbers. */
module BigEndians {
  type byte = x: int | 0 <= x < 256

  function BigEndian(s: seq<byte>): nat {
    if s == [] then 0 else BigEndian(s[..|s| - 1]) * 256 + s[|s| - 1]
  }

  function Bytes(x: nat, n: nat): (s: seq<byte>)
    ensures |s| == n
  {
    if n == 0 then [] else Bytes(x / 256, n - 1) + [x % 256]
  }

  function Pow256(n: nat): nat { if n == 0 then 1 else 256 * Pow256(n - 1) }

  lemma {:induction false} BigEndianBytes(x: nat, n: nat)
    requires x < Pow256(n)
    ensures BigEndian(Bytes(x, n)) == x
  {
    if n > 0 {
      var s := Bytes(x, n);
      assert s[..n - 1] == Bytes(x / 256, n - 1) && s[n - 1] == x % 256;
      assert x / 256 < Pow256(n - 1);
      BigEndianBytes(x / 256, n - 1);
    }
  }

  lemma {:induction false} BigEndianBound(s: seq<byte>)
    ensures BigEndian(s) < Pow256(|s|)
  {
    if s != [] { BigEndianBound(s[..|s| - 1]); }
  }

  lemma {:induction false} BigEndianConcat(a: seq<byte>, b: seq<byte>)
    ensures BigEndian(a + b) == BigEndian(a) * Pow256(|b|) + BigEndian(b)
  {
    if b == [] {
      assert a + b == a;
    } else {
      var n := |b| - 1;
      assert (a + b)[..|a + b| - 1] == a + b[..n];
      BigEndianConcat(a, b[..n]);
      assert BigEndian(a) * Pow256(n) * 256 == BigEndian(a) * Pow256(n + 1);
    }
  }

  lemma Powers()
    ensures Pow256(2) == 65536 && Pow256(4) == 0x1_0000_0000 && Pow256(8) == 0x1_0000_0000_0000_0000
  {
    assert Pow256(4) == 65536 * Pow256(2);
    assert Pow256(6) == 65536 * Pow256(4);
    assert Pow256(8) == 65536 * Pow256(6);
  }

  /** The first byte weighs most. */
  lemma TwoBytes(s: seq<byte>)
    requires |s| == 2
    ensures BigEndian(s) == s[0] as int * 0x100 + s[1]
  {
    OneByte(s[..1]);
  }

  lemma OneByte(s: seq<byte>)
    requires |s| == 1
    ensures BigEndian(s) == s[0]
  {
    assert s[..0] == [];
  }

  lemma FourBytes(s: seq<byte>)
    requires |s| == 4
    ensures BigEndian(s) == s[0] as int * 0x100_0000 + s[1] as int * 0x1_0000 + s[2] as int * 0x100 + s[3]
  {
    TwoBytes(s[..2]);
    assert s[..3][..2] == s[..2];
    assert BigEndian(s[..3]) == BigEndian(s[..2]) * 256 + s[2];
  }

  lemma BytesOfTwo(x: nat)
    ensures Bytes(x, 2) == [x / 0x100 % 256, x % 256]
  {
    BytesOfOne(x / 256);
  }

  lemma BytesOfOne(x: nat)
    ensures Bytes(x, 1) == [x % 256]
  {
    assert Bytes(x / 256, 0) == [];
  }

  lemma BytesOfFour(x: nat)
    ensures Bytes(x, 4) == [x / 0x100_0000 % 256, x / 0x1_0000 % 256, x / 0x100 % 256, x % 256]
  {
    BytesOfTwo(x / 256 / 256);
    assert Bytes(x / 256, 3) == Bytes(x / 256 / 256, 2) + [x / 256 % 256];
    assert x / 256 / 256 / 256 == x / 0x100_0000 && x / 256 / 256 == x / 0x1_0000;
  }
}
