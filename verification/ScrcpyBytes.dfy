/**
 The scrcpy stream byte by byte: what the reader does with given bytes, in the numbers of the
 protocol and without the names the reader and the wire format share.
 */
module ScrcpyBytes {
  import opened BigEndians
  import opened Scrcpy

  /** The codec word is the four letters "h264"; everything else is refused. */
  lemma CodecIsH264(s: seq<byte>, maxFPS: nat, room: nat)
    requires maxFPS > 0 && |s| >= 4
    ensures Forward(s, maxFPS, room) == Result([], [], WrongCodec) <==> s[..4] != [0x68, 0x32, 0x36, 0x34]
  {
    hide Parse, BigEndian;
    FourBytes(s[..4]);
  }

  /**
   Behind the codec comes a block of twelve bytes. With the first bit of its first byte set the
   stream goes on as the packet loop reads the block and the rest; otherwise it is refused.
   */
  lemma FirstBlock(block: seq<byte>, tail: seq<byte>, maxFPS: nat, room: nat)
    requires maxFPS > 0 && |block| == 12
    ensures Forward([0x68, 0x32, 0x36, 0x34] + block + tail, maxFPS, room) ==
            if block[0] >= 0x80 then Parse(block + tail, [], 0, maxFPS, room) else Result([], [], NoSession)
  {
    InitialBlockIsASessionPacket(block, tail, maxFPS, room);
    assert Bytes(VIDEO_CODEC_H264, 4) == [0x68, 0x32, 0x36, 0x34] by { CodecBytes(); }
    assert Bit(BigEndian(block[..4]), TWO_31) <==> block[0] >= 0x80 by {
      hide BigEndian;
      FourBytes(block[..4]);
      TopBit(block[0], BigEndian(block[..4]) - block[0] as int * 0x100_0000);
    }
  }

  lemma CodecBytes()
    ensures Bytes(VIDEO_CODEC_H264, 4) == [0x68, 0x32, 0x36, 0x34]
  {
    assert VIDEO_CODEC_H264 / 256 / 256 / 256 == 0x68 && VIDEO_CODEC_H264 / 256 / 256 % 256 == 0x32;
    assert Bytes(0x68, 1) == [0x68] && Bytes(VIDEO_CODEC_H264 / 256 / 256, 2) == [0x68, 0x32];
    assert Bytes(VIDEO_CODEC_H264 / 256, 3) == [0x68, 0x32, 0x36];
  }

  lemma TopBit(b: byte, low: nat)
    requires low < 0x100_0000
    ensures Bit(b as int * 0x100_0000 + low, TWO_31) <==> b >= 0x80
  {}

  /** The flags of a header are bits of its first byte, the rest of the first eight bytes is the timestamp. */
  lemma HeaderInBytes(h: seq<byte>)
    requires |h| == 8
    ensures var x := BigEndian(h);
            && (Bit(x, TWO_63) <==> h[0] >= 0x80)
            && (Bit(x, TWO_62) <==> h[0] / 0x40 % 2 == 1)
            && (Bit(x, TWO_61) <==> h[0] / 0x20 % 2 == 1)
            && x % TWO_32 == BigEndian(h[4..])
            && x % TWO_61 == h[0] % 0x20 * 0x100_0000_0000_0000 + BigEndian(h[1..])
  {
    var low, x := BigEndian(h[1..]), BigEndian(h);
    assert h == [h[0]] + h[1..] && h == h[..4] + h[4..];
    Powers();
    assert Pow256(7) == 0x100_0000_0000_0000 by { assert Pow256(8) == 256 * Pow256(7); }
    hide BigEndian, Pow256;
    OneByte([h[0]]);
    BigEndianConcat([h[0]], h[1..]);
    BigEndianBound(h[1..]);
    BigEndianConcat(h[..4], h[4..]);
    BigEndianBound(h[4..]);
    Flags(h[0], low);
    LowWord(BigEndian(h[..4]), BigEndian(h[4..]));
  }

  lemma LowWord(high: nat, low: nat)
    requires low < TWO_32
    ensures (high * TWO_32 + low) % TWO_32 == low
  {}

  lemma Flags(b: byte, low: nat)
    requires low < 0x100_0000_0000_0000
    ensures var x := b as int * 0x100_0000_0000_0000 + low;
            && (Bit(x, TWO_63) <==> b >= 0x80)
            && (Bit(x, TWO_62) <==> b / 0x40 % 2 == 1)
            && (Bit(x, TWO_61) <==> b / 0x20 % 2 == 1)
            && x % TWO_61 == b % 0x20 * 0x100_0000_0000_0000 + low
  {
    var x := b as int * 0x100_0000_0000_0000 + low;
    var f, g := b / 0x20, b % 0x20;
    assert x == f * TWO_61 + (g * 0x100_0000_0000_0000 + low);
    assert x / TWO_61 == f;
    assert x / TWO_62 == f / 2 && x / TWO_63 == f / 4;
  }

  /**
   One packet: twelve bytes `h` and what follows them. First byte 0x80 and above: the picture has
   a new size. Otherwise the last four bytes count the payload, 8388608 at most; 0x40 to 0x7f is a
   configuration, below it a frame, a key frame if bit 0x20 is set.
   */
  lemma PacketInBytes(h: seq<byte>, rest: seq<byte>, config: seq<byte>, lastPTS: nat, maxFPS: nat, room: nat)
    requires maxFPS > 0 && |h| == 12
    ensures var n, pts := BigEndian(h[8..]), h[0] % 0x20 * 0x100_0000_0000_0000 + BigEndian(h[1..8]);
            Parse(h + rest, config, lastPTS, maxFPS, room) ==
              if h[0] >= 0x80 then
                if BigEndian(h[4..8]) == 0 || n == 0 then Result([], [], BadSize)
                else Resize(BigEndian(h[4..8]), n, Parse(rest, config, lastPTS, maxFPS, room))
              else if n >= 8388609 then Result([], [], TooLarge)
              else if n == 0 then Parse(rest, config, lastPTS, maxFPS, room)
              else if |rest| < n then Result([], [], if rest == [] then CleanEOF else UnexpectedEOF)
              else if h[0] >= 0x40 then Parse(rest[n..], rest[..n], lastPTS, maxFPS, room)
              else if room == 0 then Result([], [], WriterClosed)
              else
                Emit(Sample((if h[0] / 0x20 == 1 then config else []) + rest[..n], Duration(lastPTS, pts, maxFPS)),
                     Parse(rest[n..], config, pts, maxFPS, room - 1))
  {
    var s := h + rest;
    assert s[..8] == h[..8] && s[8..12] == h[8..] && s[12..] == rest;
    assert h[..8][4..] == h[4..8] && h[..8][1..] == h[1..8];
    HeaderInBytes(h[..8]);
    hide BigEndian, Duration, Bit;
  }

  /** The numbers of a duration: microseconds in, nanoseconds out, one frame interval where nothing else is known. */
  lemma DurationInNumbers(last: nat, pts: nat, maxFPS: nat)
    requires maxFPS > 0
    ensures last == 0 || pts <= last ==> Duration(last, pts, maxFPS) == 1_000_000_000 / maxFPS
    ensures last != 0 && last < pts < last + 1_000_000 ==> Duration(last, pts, maxFPS) == (pts - last) * 1000
    ensures last != 0 && last + 1_000_000 <= pts <= last + 9_000_000_000_000_000 ==> Duration(last, pts, maxFPS) == 1_000_000_000 / maxFPS
  {}
}
