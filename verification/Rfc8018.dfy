/**
 HMAC-SHA256 (section 2 of RFC 2104) and PBKDF2-HMAC-SHA256 (section 5.2 of RFC 8018).
 */
module Rfc8018 {
  import opened BigEndians
  import opened JsNumbers
  import opened Fips180

  const BLOCK_SIZE: nat := 64
  const HASH_LENGTH: nat := 32

  /** Exclusive or of two bytes, as the low byte of the 32-bit operation. */
  function ByteXor(a: byte, b: byte): byte { Xor(a, b) % 256 }

  function XorBytes(s: seq<byte>, t: seq<byte>): (r: seq<byte>)
    requires |s| == |t|
    ensures |r| == |s|
  {
    seq(|s|, i requires 0 <= i < |s| => ByteXor(s[i], t[i]))
  }

  function Repeated(b: byte, n: nat): seq<byte> { seq(n, _ => b) }

  /** A key longer than a block is hashed; a shorter one is followed by zeros. */
  function BlockKey(key: seq<byte>): (k: seq<byte>)
    ensures |k| == BLOCK_SIZE
  {
    var short := if |key| > BLOCK_SIZE then Digest(key) else key;
    short + Repeated(0, BLOCK_SIZE - |short|)
  }

  /** H(K xor opad, H(K xor ipad, text)) */
  function Hmac(key: seq<byte>, text: seq<byte>): (r: seq<byte>)
    ensures |r| == HASH_LENGTH
  {
    var k := BlockKey(key);
    Digest(XorBytes(k, Repeated(0x5c, BLOCK_SIZE)) + Digest(XorBytes(k, Repeated(0x36, BLOCK_SIZE)) + text))
  }

  function KeyByte(key: seq<byte>, i: nat, b: byte): byte {
    if i < |key| then ByteXor(key[i], b) else ByteXor(0, b)
  }

  /** A key of up to 64 bytes, zeros behind it, each byte combined with `b`. */
  function KeyPad(key: seq<byte>, b: byte): seq<byte>
    requires |key| <= 64
  {
    seq(64, i requires 0 <= i < 64 => KeyByte(key, i, b))
  }

  /** With a key of up to 64 bytes, and with a longer one, which counts as its digest. */
  lemma HmacSpelledOut(key: seq<byte>, text: seq<byte>)
    ensures |key| <= 64 ==> Hmac(key, text) == Digest(KeyPad(key, 0x5c) + Digest(KeyPad(key, 0x36) + text))
    ensures |key| > 64 ==> Hmac(key, text) == Hmac(Digest(key), text)
  {
    hide Digest, ByteXor;
    if |key| <= 64 {
      assert XorBytes(BlockKey(key), Repeated(0x36, 64)) == KeyPad(key, 0x36);
      assert XorBytes(BlockKey(key), Repeated(0x5c, 64)) == KeyPad(key, 0x5c);
    }
  }

  /** U_j of block `i`, for `j` from 1: INT(i) is the four-byte big-endian block number. */
  function U(password: seq<byte>, salt: seq<byte>, i: nat, j: nat): (r: seq<byte>)
    requires j >= 1
    ensures |r| == HASH_LENGTH
  {
    if j == 1 then Hmac(password, salt + Bytes(i, 4)) else Hmac(password, U(password, salt, i, j - 1))
  }

  /** F(P, S, c, i) = U_1 xor U_2 xor ... xor U_c */
  function F(password: seq<byte>, salt: seq<byte>, c: nat, i: nat): (r: seq<byte>)
    requires c >= 1
    ensures |r| == HASH_LENGTH
    decreases c
  {
    if c == 1 then U(password, salt, i, 1) else XorBytes(F(password, salt, c - 1, i), U(password, salt, i, c))
  }

  /** T_1 || ... || T_l */
  function Blocks(password: seq<byte>, salt: seq<byte>, c: nat, l: nat): (r: seq<byte>)
    requires c >= 1
    ensures |r| == l * HASH_LENGTH
    decreases l
  {
    if l == 0 then [] else Blocks(password, salt, c, l - 1) + F(password, salt, c, l)
  }

  function BlockCount(dkLen: nat): nat { (dkLen + HASH_LENGTH - 1) / HASH_LENGTH }

  /** The first `dkLen` bytes of the blocks. */
  function Pbkdf2(password: seq<byte>, salt: seq<byte>, c: nat, dkLen: nat): (r: seq<byte>)
    requires c >= 1
    ensures |r| == dkLen
  {
    Blocks(password, salt, c, BlockCount(dkLen))[..dkLen]
  }

  lemma {:induction false} BlocksPrefix(password: seq<byte>, salt: seq<byte>, c: nat, l: nat, m: nat)
    requires c >= 1 && l <= m
    ensures Blocks(password, salt, c, l) <= Blocks(password, salt, c, m)
  {
    hide F;
    if l < m { BlocksPrefix(password, salt, c, l, m - 1); }
  }

  /** Asking for a longer key only adds bytes at its end. */
  lemma ShorterKeyIsAPrefix(password: seq<byte>, salt: seq<byte>, c: nat, short: nat, long: nat)
    requires c >= 1 && short <= long
    ensures Pbkdf2(password, salt, c, short) <= Pbkdf2(password, salt, c, long)
  {
    hide Blocks;
    BlocksPrefix(password, salt, c, BlockCount(short), BlockCount(long));
  }
}
