/**
 The scrcpy video protocol: big-endian packets with flag bits, an encoder configuration
 that prefixes key frames, and sample durations from presentation timestamps.

 `Parse` is what the reading loop does to a byte stream; `Encode` is the wire format and
 `Samples` says, from the history of packets alone, which samples a stream stands for.
 */
module Scrcpy {
  import opened BigEndians
  import opened Options

  const VIDEO_CODEC_H264: nat := 0x68323634
  const MAX_PACKET_SIZE: nat := 8388608

  const TWO_31: nat := 0x8000_0000
  const TWO_32: nat := 0x1_0000_0000
  const TWO_61: nat := 0x2000_0000_0000_0000
  const TWO_62: nat := 0x4000_0000_0000_0000
  const TWO_63: nat := 0x8000_0000_0000_0000
  const TWO_64: nat := 0x1_0000_0000_0000_0000

  const SECOND: nat := 1_000_000_000

  // ---------------------------------------------------------------- the wire format

  /** `rest` stands for the bits of a session header that nobody reads. */
  datatype Packet =
    | SessionPacket(rest: nat, width: nat, height: nat)
    | ConfigPacket(key: bool, pts: nat, payload: seq<byte>)
    | MediaPacket(key: bool, pts: nat, payload: seq<byte>)

  predicate WellFormed(p: Packet) {
    match p
    case SessionPacket(rest, width, height) => rest < TWO_31 && 1 <= width < TWO_32 && 1 <= height < TWO_32
    case ConfigPacket(_, pts, payload) => pts < TWO_61 && |payload| <= MAX_PACKET_SIZE
    case MediaPacket(_, pts, payload) => pts < TWO_61 && |payload| <= MAX_PACKET_SIZE
  }

  function Header(p: Packet): nat {
    match p
    case SessionPacket(rest, width, _) => TWO_63 + rest * TWO_32 + width
    case ConfigPacket(key, pts, _) => TWO_62 + (if key then TWO_61 else 0) + pts
    case MediaPacket(key, pts, _) => (if key then TWO_61 else 0) + pts
  }

  function Payload(p: Packet): seq<byte> {
    if p.SessionPacket? then [] else p.payload
  }

  function Size(p: Packet): nat { if p.SessionPacket? then p.height else |p.payload| }

  function EncodeOne(p: Packet): seq<byte> { Bytes(Header(p), 8) + Bytes(Size(p), 4) + Payload(p) }

  function Encode(ps: seq<Packet>): seq<byte> {
    if ps == [] then [] else EncodeOne(ps[0]) + Encode(ps[1..])
  }

  /** What precedes the packets: the codec and the first session block. */
  function Preamble(rest: nat, width: nat, height: nat): seq<byte> {
    Bytes(VIDEO_CODEC_H264, 4) + EncodeOne(SessionPacket(rest, width, height))
  }

  // ---------------------------------------------------------------- what a stream stands for

  datatype Sample = Sample(data: seq<byte>, duration: int)

  /** Signed 64-bit wrap-around. */
  function Wrap64(x: int): int { (x + TWO_63) % TWO_64 - TWO_63 }

  /** The duration of a sample at `pts` microseconds after one at `last`, in nanoseconds. */
  function Duration(last: nat, pts: nat, maxFPS: nat): int
    requires maxFPS > 0
  {
    var candidate := Wrap64((pts - last) * 1000);
    if last != 0 && pts > last && 0 < candidate < SECOND then candidate else SECOND / maxFPS
  }

  predicate IsConfig(p: Packet) { p.ConfigPacket? && p.payload != [] }

  predicate IsMedia(p: Packet) { p.MediaPacket? && p.payload != [] }

  /** The most recent non-empty configuration. */
  function ConfigOf(ps: seq<Packet>): seq<byte> {
    if ps == [] then []
    else
      var last := ps[|ps| - 1];
      if IsConfig(last) then last.payload else ConfigOf(ps[..|ps| - 1])
  }

  /** The timestamp of the most recent sample, 0 before the first. */
  function LastPTS(ps: seq<Packet>): nat {
    if ps == [] then 0
    else
      var last := ps[|ps| - 1];
      if IsMedia(last) then last.pts else LastPTS(ps[..|ps| - 1])
  }

  /** The sample that media packet `p` gives after the packets `ps`. */
  function SampleAfter(ps: seq<Packet>, p: Packet, maxFPS: nat): Sample
    requires maxFPS > 0 && IsMedia(p)
  {
    Sample((if p.key then ConfigOf(ps) else []) + p.payload, Duration(LastPTS(ps), p.pts, maxFPS))
  }

  function Samples(ps: seq<Packet>, maxFPS: nat): seq<Sample>
    requires maxFPS > 0
  {
    if ps == [] then []
    else
      var before, last := ps[..|ps| - 1], ps[|ps| - 1];
      Samples(before, maxFPS) + if IsMedia(last) then [SampleAfter(before, last, maxFPS)] else []
  }

  function Sizes(ps: seq<Packet>): seq<(nat, nat)> {
    if ps == [] then []
    else
      var last := ps[|ps| - 1];
      Sizes(ps[..|ps| - 1]) + if last.SessionPacket? then [(last.width, last.height)] else []
  }

  function MediaCount(ps: seq<Packet>): nat {
    if ps == [] then 0 else MediaCount(ps[..|ps| - 1]) + if IsMedia(ps[|ps| - 1]) then 1 else 0
  }

  /**
   Exactly one sample per non-empty media packet, in order; a key frame is prefixed by the most
   recent non-empty configuration before it, and no other frame is prefixed.
   */
  lemma {:induction false} SampleOfPacket(ps: seq<Packet>, i: nat, maxFPS: nat)
    requires maxFPS > 0 && i < |ps|
    ensures |Samples(ps, maxFPS)| == MediaCount(ps)
    ensures IsMedia(ps[i]) ==>
              MediaCount(ps[..i]) < MediaCount(ps)
              && Samples(ps, maxFPS)[MediaCount(ps[..i])] == SampleAfter(ps[..i], ps[i], maxFPS)
  {
    var before := ps[..|ps| - 1];
    if |ps| > 1 { SampleOfPacket(before, if i < |ps| - 1 then i else 0, maxFPS); }
    if i < |ps| - 1 { assert before[..i] == ps[..i]; }
  }

  // ---------------------------------------------------------------- the reading loop

  datatype End = CleanEOF | UnexpectedEOF | WrongCodec | NoSession | BadSize | TooLarge | WriterClosed

  datatype Result = Result(samples: seq<Sample>, sizes: seq<(nat, nat)>, end: End)

  predicate Bit(x: nat, power: nat)
    requires power > 0
  {
    (x / power) % 2 == 1
  }

  /** `io.ReadFull` on what is left of the connection: how it fails when it cannot read everything. */
  function Short(available: nat): End { if available == 0 then CleanEOF else UnexpectedEOF }

  function Emit(sample: Sample, r: Result): Result { r.(samples := [sample] + r.samples) }

  function Resize(width: nat, height: nat, r: Result): Result { r.(sizes := [(width, height)] + r.sizes) }

  /** The packet loop of `forward`. The writer takes `room` more samples and is closed then. */
  function Parse(s: seq<byte>, config: seq<byte>, lastPTS: nat, maxFPS: nat, room: nat): Result
    requires maxFPS > 0
    decreases |s|
  {
    if |s| < 8 then Result([], [], Short(|s|))
    else if |s| < 12 then Result([], [], Short(|s| - 8))
    else
      var header, size, rest := BigEndian(s[..8]), BigEndian(s[8..12]), s[12..];
      if Bit(header, TWO_63) then
        var width := header % TWO_32;
        if width < 1 || size < 1 then Result([], [], BadSize)
        else Resize(width, size, Parse(rest, config, lastPTS, maxFPS, room))
      else if size > MAX_PACKET_SIZE then Result([], [], TooLarge)
      else if size == 0 then Parse(rest, config, lastPTS, maxFPS, room)
      else if |rest| < size then Result([], [], Short(|rest|))
      else
        var payload, next := rest[..size], rest[size..];
        if Bit(header, TWO_62) then Parse(next, payload, lastPTS, maxFPS, room)
        else if room == 0 then Result([], [], WriterClosed)
        else
          var pts := header % TWO_61;
          var data := (if Bit(header, TWO_61) then config else []) + payload;
          Emit(Sample(data, Duration(lastPTS, pts, maxFPS)), Parse(next, config, pts, maxFPS, room - 1))
  }

  /** All of `forward`: codec, first session block, packets. */
  function Forward(s: seq<byte>, maxFPS: nat, room: nat): Result
    requires maxFPS > 0
  {
    if |s| < 4 then Result([], [], Short(|s|))
    else if BigEndian(s[..4]) != VIDEO_CODEC_H264 then Result([], [], WrongCodec)
    else if |s| < 8 then Result([], [], Short(|s| - 4))
    else if !Bit(BigEndian(s[4..8]), TWO_31) then Result([], [], NoSession)
    else if |s| < 12 then Result([], [], Short(|s| - 8))
    else if |s| < 16 then Result([], [], Short(|s| - 12))
    else
      var width, height := BigEndian(s[8..12]), BigEndian(s[12..16]);
      if width < 1 || height < 1 then Result([], [], BadSize)
      else Resize(width, height, Parse(s[16..], [], 0, maxFPS, room))
  }

  // ---------------------------------------------------------------- parsing undoes encoding

  lemma HeaderBits(p: Packet)
    requires WellFormed(p)
    ensures Header(p) < TWO_64 && Size(p) < TWO_32
    ensures Bit(Header(p), TWO_63) <==> p.SessionPacket?
    ensures p.SessionPacket? ==> Header(p) % TWO_32 == p.width
    ensures !p.SessionPacket? ==> Header(p) % TWO_61 == p.pts && (Bit(Header(p), TWO_61) <==> p.key)
    ensures !p.SessionPacket? ==> (Bit(Header(p), TWO_62) <==> p.ConfigPacket?)
  {}

  lemma SplitOne(p: Packet, tail: seq<byte>)
    requires WellFormed(p)
    ensures var s := EncodeOne(p) + tail;
            && |s| >= 12 && s[..8] == Bytes(Header(p), 8) && s[8..12] == Bytes(Size(p), 4)
            && s[12..] == Payload(p) + tail
            && BigEndian(s[..8]) == Header(p) && BigEndian(s[8..12]) == Size(p)
  {
    HeaderBits(p);
    Powers();
    hide Bytes, BigEndian, Header, Size, WellFormed, Bit, Pow256;
    BigEndianBytes(Header(p), 8);
    BigEndianBytes(Size(p), 4);
    hide Payload;
    Parts(Bytes(Header(p), 8), Bytes(Size(p), 4), Payload(p), tail);
  }

  lemma Parts(a: seq<byte>, b: seq<byte>, c: seq<byte>, tail: seq<byte>)
    requires |a| == 8 && |b| == 4
    ensures var s := a + b + c + tail; |s| >= 12 && s[..8] == a && s[8..12] == b && s[12..] == c + tail
  {}

  /** What packet `p` adds to the result of everything after it, given the packets before it. */
  function Contribution(ps: seq<Packet>, p: Packet, maxFPS: nat, r: Result): Result
    requires maxFPS > 0
  {
    if p.SessionPacket? then Resize(p.width, p.height, r)
    else if IsMedia(p) then Emit(SampleAfter(ps, p, maxFPS), r)
    else r
  }

  lemma ParseOne(ps: seq<Packet>, p: Packet, tail: seq<byte>, maxFPS: nat, room: nat)
    requires maxFPS > 0 && WellFormed(p) && (IsMedia(p) ==> room > 0)
    ensures Parse(EncodeOne(p) + tail, ConfigOf(ps), LastPTS(ps), maxFPS, room) ==
            Contribution(ps, p, maxFPS,
              Parse(tail, ConfigOf(ps + [p]), LastPTS(ps + [p]), maxFPS, if IsMedia(p) then room - 1 else room))
  {
    HeaderBits(p);
    SplitOne(p, tail);
    assert (ps + [p])[..|ps|] == ps;
    var rest := Payload(p) + tail;
    assert rest[..|Payload(p)|] == Payload(p) && rest[|Payload(p)|..] == tail;
  }

  lemma HistoryGrows(ps: seq<Packet>, p: Packet, maxFPS: nat)
    requires maxFPS > 0
    ensures Samples(ps + [p], maxFPS) == Samples(ps, maxFPS) + if IsMedia(p) then [SampleAfter(ps, p, maxFPS)] else []
    ensures Sizes(ps + [p]) == Sizes(ps) + if p.SessionPacket? then [(p.width, p.height)] else []
    ensures MediaCount(ps + [p]) == MediaCount(ps) + if IsMedia(p) then 1 else 0
  {
    assert (ps + [p])[..|ps|] == ps;
  }

  /** The samples and sizes of `ps`, coming after the packets `before`, put in front of `r`. */
  function InFrontOf(before: seq<Packet>, ps: seq<Packet>, maxFPS: nat, r: Result): Result
    requires maxFPS > 0
    decreases |ps|
  {
    if ps == [] then r else Contribution(before, ps[0], maxFPS, InFrontOf(before + [ps[0]], ps[1..], maxFPS, r))
  }

  lemma {:induction false} InFrontOfMeaning(before: seq<Packet>, ps: seq<Packet>, maxFPS: nat, r: Result)
    requires maxFPS > 0
    ensures var t := InFrontOf(before, ps, maxFPS, r);
            && Samples(before, maxFPS) + t.samples == Samples(before + ps, maxFPS) + r.samples
            && Sizes(before) + t.sizes == Sizes(before + ps) + r.sizes
            && t.end == r.end
    decreases |ps|
  {
    if ps == [] {
      assert before + ps == before;
    } else {
      HistoryGrows(before, ps[0], maxFPS);
      InFrontOfMeaning(before + [ps[0]], ps[1..], maxFPS, r);
      assert before + [ps[0]] + ps[1..] == before + ps;
    }
  }

  predicate AllWellFormed(ps: seq<Packet>) { forall i :: 0 <= i < |ps| ==> WellFormed(ps[i]) }

  lemma {:induction false} MediaCountConcat(a: seq<Packet>, b: seq<Packet>)
    ensures MediaCount(a + b) == MediaCount(a) + MediaCount(b)
  {
    if b == [] {
      assert a + b == a;
    } else {
      assert (a + b)[..|a + b| - 1] == a + b[..|b| - 1];
      MediaCountConcat(a, b[..|b| - 1]);
    }
  }

  /** Parsing the encoding of `ps` and then `tail`, after the packets `before`. */
  lemma {:induction false} ParsePackets(before: seq<Packet>, ps: seq<Packet>, tail: seq<byte>, maxFPS: nat, room: nat)
    requires maxFPS > 0 && AllWellFormed(ps) && MediaCount(ps) <= room
    ensures Parse(Encode(ps) + tail, ConfigOf(before), LastPTS(before), maxFPS, room) ==
            InFrontOf(before, ps, maxFPS,
              Parse(tail, ConfigOf(before + ps), LastPTS(before + ps), maxFPS, room - MediaCount(ps)))
    decreases |ps|
  {
    hide Parse, EncodeOne, WellFormed, Contribution, ConfigOf, LastPTS;
    if ps == [] {
      assert before + ps == before && Encode(ps) + tail == tail;
    } else {
      var p, rest := ps[0], ps[1..];
      MediaCountConcat([p], rest);
      assert [p] + rest == ps && MediaCount([p]) == if IsMedia(p) then 1 else 0;
      assert Encode(ps) + tail == EncodeOne(p) + (Encode(rest) + tail);
      ParseOne(before, p, Encode(rest) + tail, maxFPS, room);
      ParsePackets(before + [p], rest, tail, maxFPS, if IsMedia(p) then room - 1 else room);
      assert before + [p] + rest == before + ps;
    }
  }

  lemma ParseHistory(ps: seq<Packet>, tail: seq<byte>, maxFPS: nat, room: nat)
    requires maxFPS > 0 && AllWellFormed(ps) && MediaCount(ps) <= room
    ensures var r := Parse(tail, ConfigOf(ps), LastPTS(ps), maxFPS, room - MediaCount(ps));
            Parse(Encode(ps) + tail, [], 0, maxFPS, room) ==
            Result(Samples(ps, maxFPS) + r.samples, Sizes(ps) + r.sizes, r.end)
  {
    ParsePackets([], ps, tail, maxFPS, room);
    assert [] + ps == ps;
    var r := Parse(tail, ConfigOf(ps), LastPTS(ps), maxFPS, room - MediaCount(ps));
    InFrontOfMeaning([], ps, maxFPS, r);
  }

  /** The preamble is a codec and one session packet, read exactly as the loop reads one. */
  lemma InitialBlockIsASessionPacket(block: seq<byte>, tail: seq<byte>, maxFPS: nat, room: nat)
    requires maxFPS > 0 && |block| == 12
    ensures var s := Bytes(VIDEO_CODEC_H264, 4) + block + tail;
            Forward(s, maxFPS, room) ==
            if Bit(BigEndian(block[..4]), TWO_31) then Parse(block + tail, [], 0, maxFPS, room)
            else Result([], [], NoSession)
  {
    var s := Bytes(VIDEO_CODEC_H264, 4) + block + tail;
    Powers();
    hide BigEndian, Bytes, Pow256;
    BigEndianBytes(VIDEO_CODEC_H264, 4);
    assert s[..4] == Bytes(VIDEO_CODEC_H264, 4);
    assert s[4..8] == block[..4] && s[8..12] == block[4..8] && s[12..16] == block[8..12] && s[16..] == tail;
    var b := block + tail;
    assert b[..8] == block[..4] + block[4..8] && b[8..12] == block[8..12] && b[12..] == tail;
    BigEndianConcat(block[..4], block[4..8]);
    BigEndianBound(block[4..8]);
    BigEndianBound(block[..4]);
    SplitHeader(BigEndian(block[..4]), BigEndian(block[4..8]));
  }

  lemma SplitHeader(flags: nat, width: nat)
    requires flags < TWO_32 && width < TWO_32
    ensures (flags * TWO_32 + width) % TWO_32 == width
    ensures Bit(flags * TWO_32 + width, TWO_63) <==> Bit(flags, TWO_31)
  {}

  /** A whole stream of well-formed packets gives exactly its samples and sizes, and ends cleanly. */
  lemma ForwardOfStream(rest: nat, width: nat, height: nat, ps: seq<Packet>, maxFPS: nat, room: nat)
    requires maxFPS > 0 && WellFormed(SessionPacket(rest, width, height)) && AllWellFormed(ps)
    requires MediaCount(ps) <= room
    ensures Forward(Preamble(rest, width, height) + Encode(ps), maxFPS, room) ==
            Result(Samples(ps, maxFPS), [(width, height)] + Sizes(ps), CleanEOF)
  {
    hide Parse, Forward, Encode, Samples, Sizes, MediaCount, Preamble, ConfigOf, LastPTS;
    ForwardOfPrefix(rest, width, height, ps, [], maxFPS, room);
    ParseNothing(ConfigOf(ps), LastPTS(ps), maxFPS, room - MediaCount(ps));
    assert Preamble(rest, width, height) + Encode(ps) + [] == Preamble(rest, width, height) + Encode(ps);
  }

  lemma SessionLeavesHistory(p: Packet)
    requires p.SessionPacket?
    ensures ConfigOf([p]) == [] && LastPTS([p]) == 0
  {
    assert [p][..0] == [];
  }

  lemma ParseNothing(config: seq<byte>, lastPTS: nat, maxFPS: nat, room: nat)
    requires maxFPS > 0
    ensures Parse([], config, lastPTS, maxFPS, room) == Result([], [], CleanEOF)
  {}

  lemma SessionHeaderFlags(p: Packet)
    requires WellFormed(p) && p.SessionPacket?
    ensures |EncodeOne(p)| == 12 && Bit(BigEndian(EncodeOne(p)[..4]), TWO_31)
  {
    var block := EncodeOne(p);
    HeaderBits(p);
    SplitOne(p, []);
    assert block + [] == block && block[..8] == block[..4] + block[4..8];
    BigEndianConcat(block[..4], block[4..8]);
    BigEndianBound(block[4..8]);
    BigEndianBound(block[..4]);
    Powers();
    SplitHeader(BigEndian(block[..4]), BigEndian(block[4..8]));
  }

  lemma ForwardOfPrefix(rest: nat, width: nat, height: nat, ps: seq<Packet>, tail: seq<byte>, maxFPS: nat, room: nat)
    requires maxFPS > 0 && WellFormed(SessionPacket(rest, width, height)) && AllWellFormed(ps)
    requires MediaCount(ps) <= room
    ensures var r := Parse(tail, ConfigOf(ps), LastPTS(ps), maxFPS, room - MediaCount(ps));
            Forward(Preamble(rest, width, height) + Encode(ps) + tail, maxFPS, room) ==
            Result(Samples(ps, maxFPS) + r.samples, [(width, height)] + Sizes(ps) + r.sizes, r.end)
  {
    hide Parse, Forward, EncodeOne, Encode, Samples, Sizes, MediaCount, BigEndian, AllWellFormed, WellFormed;
    var first := SessionPacket(rest, width, height);
    var block := EncodeOne(first);
    SessionHeaderFlags(first);
    InitialBlockIsASessionPacket(block, Encode(ps) + tail, maxFPS, room);
    assert Preamble(rest, width, height) + Encode(ps) + tail == Bytes(VIDEO_CODEC_H264, 4) + block + (Encode(ps) + tail);
    SessionLeavesHistory(first);
    assert [] + [first] == [first];
    ParseOne([], first, Encode(ps) + tail, maxFPS, room);
    ParseHistory(ps, tail, maxFPS, room);
  }

  // ---------------------------------------------------------------- truncation

  /**
   A malformed packet after any well-formed ones: everything before it is kept, and the loop
   ends with the error for a session packet without a size or for an oversized payload.
   */
  lemma MalformedPacketEnds(rest: nat, width: nat, height: nat, ps: seq<Packet>, header: nat, size: nat,
                            tail: seq<byte>, maxFPS: nat, room: nat)
    requires maxFPS > 0 && WellFormed(SessionPacket(rest, width, height)) && AllWellFormed(ps)
    requires MediaCount(ps) <= room && header < TWO_64 && size < TWO_32
    requires if Bit(header, TWO_63) then header % TWO_32 == 0 || size == 0 else size > MAX_PACKET_SIZE
    ensures Forward(Preamble(rest, width, height) + Encode(ps) + (Bytes(header, 8) + Bytes(size, 4) + tail), maxFPS, room) ==
            Result(Samples(ps, maxFPS), [(width, height)] + Sizes(ps), if Bit(header, TWO_63) then BadSize else TooLarge)
  {
    hide *;
    ForwardOfPrefix(rest, width, height, ps, Bytes(header, 8) + Bytes(size, 4) + tail, maxFPS, room);
    ParseMalformed(header, size, tail, ConfigOf(ps), LastPTS(ps), maxFPS, room - MediaCount(ps));
  }

  lemma ParseMalformed(header: nat, size: nat, tail: seq<byte>, config: seq<byte>, lastPTS: nat, maxFPS: nat, room: nat)
    requires maxFPS > 0 && header < TWO_64 && size < TWO_32
    requires if Bit(header, TWO_63) then header % TWO_32 == 0 || size == 0 else size > MAX_PACKET_SIZE
    ensures Parse(Bytes(header, 8) + Bytes(size, 4) + tail, config, lastPTS, maxFPS, room) ==
            Result([], [], if Bit(header, TWO_63) then BadSize else TooLarge)
  {
    var bad := Bytes(header, 8) + Bytes(size, 4) + tail;
    hide Bytes, BigEndian, Bit, Pow256;
    Powers();
    BigEndianBytes(header, 8);
    BigEndianBytes(size, 4);
    Parts(Bytes(header, 8), Bytes(size, 4), tail, []);
    assert bad + [] == bad;
  }

  /** Where a reader that is cut off inside a packet stops: between two reads, or in the middle of one. */
  function CutEnd(offset: nat): End {
    if offset == 0 || offset == 8 || offset == 12 then CleanEOF else UnexpectedEOF
  }

  lemma ParseCutPacket(p: Packet, offset: nat, config: seq<byte>, lastPTS: nat, maxFPS: nat, room: nat)
    requires maxFPS > 0 && WellFormed(p) && offset < |EncodeOne(p)|
    ensures Parse(EncodeOne(p)[..offset], config, lastPTS, maxFPS, room) == Result([], [], CutEnd(offset))
  {
    if offset >= 12 {
      HeaderBits(p);
      SplitOne(p, []);
      assert EncodeOne(p) + [] == EncodeOne(p);
      var s := EncodeOne(p)[..offset];
      assert s[..8] == EncodeOne(p)[..8] && s[8..12] == EncodeOne(p)[8..12];
    }
  }

  /**
   A stream cut at any byte gives exactly the samples and sizes of the packets that lie wholly
   before the cut, and the end is clean exactly when the cut falls between two reads.
   */
  lemma ForwardOfCutStream(rest: nat, width: nat, height: nat, ps: seq<Packet>, k: nat, offset: nat, maxFPS: nat, room: nat)
    requires maxFPS > 0 && WellFormed(SessionPacket(rest, width, height)) && AllWellFormed(ps)
    requires k < |ps| && offset < |EncodeOne(ps[k])| && MediaCount(ps[..k]) <= room
    ensures var cut := |Preamble(rest, width, height)| + |Encode(ps[..k])| + offset;
            var whole := Preamble(rest, width, height) + Encode(ps);
            cut < |whole|
            && Forward(whole[..cut], maxFPS, room) ==
               Result(Samples(ps[..k], maxFPS), [(width, height)] + Sizes(ps[..k]), CutEnd(offset))
  {
    hide Parse, Forward, Encode, EncodeOne, Samples, Sizes, MediaCount, ConfigOf, LastPTS, Preamble;
    EncodeSplit(ps, k);
    var front := Preamble(rest, width, height) + Encode(ps[..k]);
    var whole := Preamble(rest, width, height) + Encode(ps);
    assert whole == front + (EncodeOne(ps[k]) + Encode(ps[k + 1..]));
    assert whole[..|front| + offset] == front + EncodeOne(ps[k])[..offset];
    ParseCutPacket(ps[k], offset, ConfigOf(ps[..k]), LastPTS(ps[..k]), maxFPS, room - MediaCount(ps[..k]));
    ForwardOfPrefix(rest, width, height, ps[..k], EncodeOne(ps[k])[..offset], maxFPS, room);
  }

  const PREAMBLE_SIZE: nat := 16

  /** How many packets lie wholly within the first `n` bytes of an encoding. */
  function WholePackets(ps: seq<Packet>, n: nat): (k: nat)
    ensures k <= |ps|
  {
    if ps == [] || n < |EncodeOne(ps[0])| then 0 else 1 + WholePackets(ps[1..], n - |EncodeOne(ps[0])|)
  }

  /** How many of the first `n` bytes come after those. */
  function Leftover(ps: seq<Packet>, n: nat): nat {
    if ps == [] || n < |EncodeOne(ps[0])| then n else Leftover(ps[1..], n - |EncodeOne(ps[0])|)
  }

  lemma {:induction false} WholePacketsFit(ps: seq<Packet>, n: nat)
    requires n <= |Encode(ps)|
    ensures var k := WholePackets(ps, n);
            && n == |Encode(ps[..k])| + Leftover(ps, n)
            && (if k == |ps| then Leftover(ps, n) == 0 else Leftover(ps, n) < |EncodeOne(ps[k])|)
  {
    hide EncodeOne;
    if ps != [] && n >= |EncodeOne(ps[0])| {
      WholePacketsFit(ps[1..], n - |EncodeOne(ps[0])|);
      var k := WholePackets(ps, n);
      assert ps[..k][1..] == ps[1..][..k - 1];
    }
  }

  /** Inside the codec word and the first session block every four bytes are one read. */
  lemma ForwardOfCutPreamble(rest: nat, width: nat, height: nat, cut: nat, maxFPS: nat, room: nat)
    requires maxFPS > 0 && WellFormed(SessionPacket(rest, width, height)) && cut < PREAMBLE_SIZE
    ensures |Preamble(rest, width, height)| == PREAMBLE_SIZE
    ensures Forward(Preamble(rest, width, height)[..cut], maxFPS, room) == Result([], [], Short(cut % 4))
  {
    var block := EncodeOne(SessionPacket(rest, width, height));
    var s := Preamble(rest, width, height)[..cut];
    CodecWord();
    SessionHeaderFlags(SessionPacket(rest, width, height));
    hide BigEndian, Bytes, EncodeOne, Parse, Bit, WellFormed;
    var whole := Bytes(VIDEO_CODEC_H264, 4) + block;
    if cut >= 4 { assert s[..4] == whole[..4] == Bytes(VIDEO_CODEC_H264, 4); }
    if cut >= 8 { assert s[4..8] == whole[4..8] == block[..4]; }
  }

  lemma CodecWord()
    ensures BigEndian(Bytes(VIDEO_CODEC_H264, 4)) == VIDEO_CODEC_H264
  {
    Powers();
    BigEndianBytes(VIDEO_CODEC_H264, 4);
  }

  /**
   Cut at any byte at all: nothing but the end if the cut is in the preamble, otherwise
   exactly the samples and sizes of the packets wholly before it, with a clean end exactly
   when the cut falls between two reads.
   */
  lemma ForwardOfAnyCut(rest: nat, width: nat, height: nat, ps: seq<Packet>, cut: nat, maxFPS: nat, room: nat)
    requires maxFPS > 0 && WellFormed(SessionPacket(rest, width, height)) && AllWellFormed(ps)
    requires cut <= |Preamble(rest, width, height) + Encode(ps)|
    requires cut >= PREAMBLE_SIZE ==> MediaCount(ps[..WholePackets(ps, cut - PREAMBLE_SIZE)]) <= room
    ensures Forward((Preamble(rest, width, height) + Encode(ps))[..cut], maxFPS, room) == CutResult(width, height, ps, cut, maxFPS)
  {
    hide Forward, Encode, EncodeOne, Samples, Sizes, MediaCount, Preamble, WellFormed, WholePackets, Leftover, Short;
    ForwardOfCutPreamble(rest, width, height, 0, maxFPS, room);
    var preamble := Preamble(rest, width, height);
    if cut < PREAMBLE_SIZE {
      ForwardOfCutPreamble(rest, width, height, cut, maxFPS, room);
      assert (preamble + Encode(ps))[..cut] == preamble[..cut];
    } else {
      var n := cut - PREAMBLE_SIZE;
      WholePacketsFit(ps, n);
      ForwardOfCutPackets(rest, width, height, ps, WholePackets(ps, n), Leftover(ps, n), maxFPS, room);
    }
  }

  function CutResult(width: nat, height: nat, ps: seq<Packet>, cut: nat, maxFPS: nat): Result
    requires maxFPS > 0
  {
    if cut < PREAMBLE_SIZE then Result([], [], Short(cut % 4))
    else
      var k := WholePackets(ps, cut - PREAMBLE_SIZE);
      Result(Samples(ps[..k], maxFPS), [(width, height)] + Sizes(ps[..k]), CutEnd(Leftover(ps, cut - PREAMBLE_SIZE)))
  }

  lemma ForwardOfCutPackets(rest: nat, width: nat, height: nat, ps: seq<Packet>, k: nat, offset: nat, maxFPS: nat, room: nat)
    requires maxFPS > 0 && WellFormed(SessionPacket(rest, width, height)) && AllWellFormed(ps)
    requires k <= |ps| && (if k == |ps| then offset == 0 else offset < |EncodeOne(ps[k])|) && MediaCount(ps[..k]) <= room
    ensures var cut := |Preamble(rest, width, height)| + |Encode(ps[..k])| + offset;
            var whole := Preamble(rest, width, height) + Encode(ps);
            cut <= |whole|
            && Forward(whole[..cut], maxFPS, room) ==
               Result(Samples(ps[..k], maxFPS), [(width, height)] + Sizes(ps[..k]), CutEnd(offset))
  {
    hide Forward, Encode, EncodeOne, Samples, Sizes, MediaCount, Preamble, WellFormed;
    if k == |ps| {
      var whole := Preamble(rest, width, height) + Encode(ps);
      assert ps[..k] == ps && whole[..|whole|] == whole;
      ForwardOfStream(rest, width, height, ps, maxFPS, room);
    } else {
      ForwardOfCutStream(rest, width, height, ps, k, offset, maxFPS, room);
    }
  }

  lemma {:induction false} EncodeSplit(ps: seq<Packet>, k: nat)
    requires k < |ps|
    ensures Encode(ps) == Encode(ps[..k]) + (EncodeOne(ps[k]) + Encode(ps[k + 1..]))
  {
    hide EncodeOne;
    if k == 0 {
      assert ps[..0] == [] && ps[1..] == ps[0 + 1..];
    } else {
      EncodeSplit(ps[1..], k - 1);
      assert ps[1..][..k - 1] == ps[..k][1..] && ps[1..][k..] == ps[k + 1..];
      assert Encode(ps[..k]) == EncodeOne(ps[0]) + Encode(ps[..k][1..]);
    }
  }

  // ---------------------------------------------------------------- a writer that is closed

  /** Closing the writer only cuts the output: what was written before is what would have been written anyway. */
  lemma {:induction false} ClosedWriterCuts(s: seq<byte>, config: seq<byte>, lastPTS: nat, maxFPS: nat, room: nat, more: nat)
    requires maxFPS > 0 && room <= more
    ensures var r, t := Parse(s, config, lastPTS, maxFPS, room), Parse(s, config, lastPTS, maxFPS, more);
            && r.samples <= t.samples && r.sizes <= t.sizes && |r.samples| <= room
            && (r == t || (r.end.WriterClosed? && |r.samples| == room))
    decreases |s|
  {
    if |s| >= 12 {
      var header, size, rest := BigEndian(s[..8]), BigEndian(s[8..12]), s[12..];
      if Bit(header, TWO_63) || size == 0 {
        ClosedWriterCuts(rest, config, lastPTS, maxFPS, room, more);
      } else if size <= MAX_PACKET_SIZE && size <= |rest| {
        if Bit(header, TWO_62) {
          ClosedWriterCuts(rest[size..], rest[..size], lastPTS, maxFPS, room, more);
        } else if room > 0 {
          ClosedWriterCuts(rest[size..], config, header % TWO_61, maxFPS, room - 1, more - 1);
        }
      }
    }
  }

  // ---------------------------------------------------------------- durations

  lemma DurationPositive(last: nat, pts: nat, maxFPS: nat)
    requires 0 < maxFPS <= SECOND
    ensures Duration(last, pts, maxFPS) > 0
  {
    assert SECOND == (SECOND / maxFPS) * maxFPS + SECOND % maxFPS;
  }

  /** The gap in nanoseconds as 64 bits keep it. */
  function Residue(last: nat, pts: nat): nat
    requires pts >= last
  {
    (pts - last) * 1000 % TWO_64
  }

  /** A duration is the gap as 64 bits keep it exactly when that is under a second and not nothing. */
  lemma DurationExactly(last: nat, pts: nat, maxFPS: nat)
    requires maxFPS > 0
    ensures Duration(last, pts, maxFPS) ==
            if last != 0 && pts > last && 0 < Residue(last, pts) < SECOND then Residue(last, pts) else SECOND / maxFPS
  {
    if pts > last { WrapOfResidue((pts - last) * 1000); }
  }

  lemma WrapOfResidue(x: nat)
    ensures var r := x % TWO_64; Wrap64(x) == if r < TWO_63 then r else r - TWO_64
  {
    var q, r := x / TWO_64, x % TWO_64;
    assert x == TWO_64 * q + r;
    if r < TWO_63 {
      assert x + TWO_63 == TWO_64 * q + (r + TWO_63);
    } else {
      assert x + TWO_63 == TWO_64 * (q + 1) + (r - TWO_63);
    }
  }

  /**
   A gap of a second or more counts as one frame interval exactly when 64 bits keep nothing of
   it, or a second or more, or by chance that very interval.
   */
  lemma LongGapIsOneInterval(last: nat, pts: nat, maxFPS: nat)
    requires maxFPS > 0 && last != 0 && last + 1_000_000 <= pts
    ensures Duration(last, pts, maxFPS) == SECOND / maxFPS <==>
              || Residue(last, pts) == 0 || Residue(last, pts) >= SECOND || Residue(last, pts) == SECOND / maxFPS
    ensures (pts - last) * 1000 < TWO_64 ==> Duration(last, pts, maxFPS) == SECOND / maxFPS
  {
    DurationExactly(last, pts, maxFPS);
  }

  /** Beyond that the product wraps around, and a gap of 584 years passes for 384 nanoseconds. */
  lemma HugeGapWraps()
    ensures Duration(1, 1 + 18446744073709552, 24) == 384
  {
    assert 18446744073709552 * 1000 == TWO_64 + 384;
  }

  /** The timestamps of the samples, in order. */
  function Timestamps(ps: seq<Packet>): seq<int> {
    if ps == [] then []
    else Timestamps(ps[..|ps| - 1]) + if IsMedia(ps[|ps| - 1]) then [ps[|ps| - 1].pts] else []
  }

  function Total(samples: seq<Sample>): int {
    if samples == [] then 0 else Total(samples[..|samples| - 1]) + samples[|samples| - 1].duration
  }

  /** Timestamps that are positive, strictly increasing and less than a second apart. */
  predicate Steady(pts: seq<int>) {
    forall i :: 0 <= i < |pts| ==> pts[i] > 0 && (i > 0 ==> pts[i - 1] < pts[i] < pts[i - 1] + 1_000_000)
  }

  lemma {:induction false} LastTimestamp(ps: seq<Packet>, maxFPS: nat)
    requires maxFPS > 0
    ensures |Timestamps(ps)| == |Samples(ps, maxFPS)|
    ensures LastPTS(ps) == if Timestamps(ps) == [] then 0 else Timestamps(ps)[|Timestamps(ps)| - 1]
  {
    if ps != [] { LastTimestamp(ps[..|ps| - 1], maxFPS); }
  }

  /** For a steady stream, the durations after the first sample add up to the time between first and last. */
  lemma {:induction false} DurationsTelescope(ps: seq<Packet>, maxFPS: nat)
    requires maxFPS > 0 && Timestamps(ps) != [] && Steady(Timestamps(ps))
    ensures var pts, samples := Timestamps(ps), Samples(ps, maxFPS);
            |samples| == |pts| && Total(samples[1..]) == (pts[|pts| - 1] - pts[0]) * 1000
  {
    var before, last := ps[..|ps| - 1], ps[|ps| - 1];
    LastTimestamp(ps, maxFPS);
    LastTimestamp(before, maxFPS);
    var pts, samples := Timestamps(ps), Samples(ps, maxFPS);
    if !IsMedia(last) {
      assert Timestamps(before) == pts && Samples(before, maxFPS) == samples;
      DurationsTelescope(before, maxFPS);
    } else if Timestamps(before) != [] {
      var earlier := Timestamps(before);
      assert earlier == pts[..|pts| - 1];
      DurationsTelescope(before, maxFPS);
      assert pts[|pts| - 2] == LastPTS(before);
      assert samples[1..][..|samples| - 2] == Samples(before, maxFPS)[1..];
    }
  }

  // ---------------------------------------------------------------- the code, in its own shape

  /** The frames handed over so far hold exactly these samples. */
  ghost predicate Holds(frames: seq<array<byte>>, durations: seq<int>, samples: seq<Sample>)
    reads set f | f in frames
  {
    && |frames| == |durations| == |samples|
    && forall i :: 0 <= i < |frames| ==> samples[i] == Sample(frames[i][..], durations[i])
  }

  /** A sample writer that is closed after `room` more samples. It keeps the arrays it is given. */
  class SampleTrack {
    var frames: seq<array<byte>>
    var durations: seq<int>
    var room: nat

    constructor (room: nat)
      ensures frames == [] && durations == [] && this.room == room
    {
      frames, durations, this.room := [], [], room;
    }

    method WriteSample(data: array<byte>, duration: int) returns (err: Option<End>)
      modifies this
      ensures if old(room) == 0 then err == Some(WriterClosed) && frames == old(frames) && durations == old(durations) && room == 0
              else err == None && frames == old(frames) + [data] && durations == old(durations) + [duration] && room == old(room) - 1
    {
      if room == 0 { return Some(WriterClosed); }
      frames := frames + [data];
      durations := durations + [duration];
      room := room - 1;
      err := None;
    }
  }

  lemma HoldsNothing()
    ensures Holds([], [], [])
  {}

  lemma HoldsConcat(f: seq<array<byte>>, d: seq<int>, s: seq<Sample>, f': seq<array<byte>>, d': seq<int>, s': seq<Sample>)
    requires Holds(f, d, s) && Holds(f', d', s')
    ensures Holds(f + f', d + d', s + s')
  {}

  lemma BeforeBefore(a: seq<Sample>, b: seq<(nat, nat)>, c: seq<Sample>, d: seq<(nat, nat)>, r: Result)
    ensures Before(a, b, Before(c, d, r)) == Before(a + c, b + d, r)
  {
    assert a + (c + r.samples) == (a + c) + r.samples;
    assert b + (d + r.sizes) == (b + d) + r.sizes;
  }

  function Before(samples: seq<Sample>, sizes: seq<(nat, nat)>, r: Result): Result {
    Result(samples + r.samples, sizes + r.sizes, r.end)
  }

  class VideoStream {
    const input: seq<byte>     // everything the connection delivers before it ends
    const maxFPS: nat
    var pos: nat
    var width: nat
    var height: nat
    var resizes: seq<(nat, nat)>   // the calls of onFrame

    ghost predicate Valid()
      reads this
    {
      pos <= |input| && maxFPS > 0
    }

    constructor (input: seq<byte>, maxFPS: nat)
      requires maxFPS > 0
      ensures Valid() && this.input == input && this.maxFPS == maxFPS && pos == 0 && resizes == []
    {
      this.input, this.maxFPS := input, maxFPS;
      pos, width, height, resizes := 0, 0, 0, [];
    }

    /** `io.ReadFull` into a new buffer of `n` bytes. */
    method ReadFull(n: nat) returns (buffer: array<byte>, err: Option<End>)
      requires Valid() && n > 0
      modifies this`pos
      ensures Valid() && fresh(buffer)
      ensures if n <= |input| - old(pos) then
                err == None && pos == old(pos) + n && buffer[..] == input[old(pos)..][..n]
              else err == Some(Short(|input| - old(pos)))
    {
      buffer := new byte[n](_ => 0);
      if n > |input| - pos {
        err := Some(Short(|input| - pos));
        pos := |input|;
        return;
      }
      forall k | 0 <= k < n { buffer[k] := input[pos + k]; }
      pos := pos + n;
      err := None;
    }

    method ReadUint(n: nat) returns (value: nat, err: Option<End>)
      requires Valid() && n > 0
      modifies this`pos
      ensures Valid()
      ensures if n <= |input| - old(pos) then
                err == None && pos == old(pos) + n && value == BigEndian(input[old(pos)..][..n])
              else err == Some(Short(|input| - old(pos)))
    {
      var buffer;
      buffer, err := ReadFull(n);
      value := BigEndian(buffer[..]);
    }

    method SetSize(width: nat, height: nat)
      modifies this
      ensures pos == old(pos) && this.width == width && this.height == height && resizes == old(resizes) + [(width, height)]
    {
      this.width, this.height := width, height;
      resizes := resizes + [(width, height)];
    }

    /** `append(config[:0], payload...)`: the old buffer is written over when it is large enough. */
    method Refill(config: array<byte>, payload: array<byte>) returns (refilled: array<byte>)
      requires config != payload
      modifies config
      ensures refilled == config || fresh(refilled)
      ensures payload.Length <= refilled.Length && refilled[..payload.Length] == payload[..]
      ensures refilled != payload
    {
      refilled := config;
      if config.Length < payload.Length {
        refilled := new byte[payload.Length](_ => 0);
      }
      forall k | 0 <= k < payload.Length { refilled[k] := payload[k]; }
    }

    /** The configuration and the payload, copied into a new array. */
    method Joined(config: array<byte>, configLen: nat, payload: array<byte>) returns (frame: array<byte>)
      requires configLen <= config.Length
      ensures fresh(frame) && frame[..] == config[..configLen] + payload[..]
    {
      frame := new byte[configLen + payload.Length](_ => 0);
      forall k | 0 <= k < frame.Length {
        frame[k] := if k < configLen then config[k] else payload[k - configLen];
      }
    }

    /** A key frame is copied behind the configuration; any other frame is the payload itself. */
    method Deliver(track: SampleTrack, key: bool, config: array<byte>, configLen: nat, payload: array<byte>, duration: int)
      returns (err: Option<End>, frame: array<byte>)
      requires configLen <= config.Length
      modifies track
      ensures frame == payload || fresh(frame)
      ensures frame[..] == (if key then config[..configLen] else []) + payload[..]
      ensures if old(track.room) == 0 then
                err == Some(WriterClosed) && track.frames == old(track.frames) && track.durations == old(track.durations)
              else
                err == None && track.room == old(track.room) - 1
                && track.frames == old(track.frames) + [frame] && track.durations == old(track.durations) + [duration]
    {
      frame := payload;
      if key && configLen > 0 {
        frame := Joined(config, configLen, payload);
      }
      err := track.WriteSample(frame, duration);
    }

    /** The twelve bytes in front of every packet. */
    method ReadHeader() returns (header: nat, size: nat, end: Option<End>)
      requires Valid()
      modifies this`pos
      ensures Valid()
      ensures var s := input[old(pos)..];
              if |s| < 12 then end == Some(Short(if |s| < 8 then |s| else |s| - 8))
              else
                end == None && pos == old(pos) + 12 && header == BigEndian(s[..8]) && size == BigEndian(s[8..12])
                && input[pos..] == s[12..]
    {
      ghost var s := input[pos..];
      size := 0;
      header, end := ReadUint(8);
      if end.Some? { return; }
      assert input[pos..] == s[8..];
      size, end := ReadUint(4);
      if end.Some? { assert |s[8..]| == |s| - 8; return; }
      assert s[8..][..4] == s[8..12];
    }

    /** One packet: reads it, and either hands over a sample, or remembers, or ends. */
    method ForwardOne(track: SampleTrack, config: array<byte>, configLen: nat, lastPTS: nat)
      returns (end: Option<End>, config': array<byte>, configLen': nat, lastPTS': nat, ghost added: seq<Sample>)
      requires Valid() && configLen <= config.Length
      requires config !in track.frames
      modifies this, track, config
      ensures Valid() && configLen' <= config'.Length
      ensures config' == config || fresh(config')
      ensures config' !in track.frames && old(track.frames) <= track.frames && old(track.durations) <= track.durations
      ensures forall f :: f in track.frames ==> f in old(track.frames) || fresh(f)
      ensures end == None ==> old(pos) < pos
      ensures old(resizes) <= resizes
      ensures var newSizes := resizes[|old(resizes)|..];
              var frames, durations := track.frames[|old(track.frames)|..], track.durations[|old(track.durations)|..];
              && Holds(frames, durations, added)
              && Parse(input[old(pos)..], old(config[..configLen]), lastPTS, maxFPS, old(track.room)) ==
                 Before(added, newSizes,
                   if end.Some? then Result([], [], end.value)
                   else Parse(input[pos..], config'[..configLen'], lastPTS', maxFPS, track.room))
    {
      hide Bit, BigEndian, Duration;
      ghost var s := input[pos..];
      config', configLen', lastPTS', added := config, configLen, lastPTS, [];
      var header, size;
      header, size, end := ReadHeader();
      if end.Some? { return; }
      if Bit(header, TWO_63) {
        var width := header % TWO_32;
        if width < 1 || size < 1 { end := Some(BadSize); return; }
        SetSize(width, size);
        return;
      }
      if size > MAX_PACKET_SIZE { end := Some(TooLarge); return; }
      if size == 0 { return; }
      var payload;
      payload, end := ReadFull(size);
      if end.Some? { return; }
      assert payload[..] == s[12..][..size] && input[pos..] == s[12..][size..];
      if Bit(header, TWO_62) {
        config' := Refill(config, payload);
        configLen' := payload.Length;
        return;
      }
      var pts := header % TWO_61;
      var duration := Duration(lastPTS, pts, maxFPS);
      var frame;
      end, frame := Deliver(track, Bit(header, TWO_61), config, configLen, payload, duration);
      if end.Some? { return; }
      lastPTS', added := pts, [Sample(frame[..], duration)];
    }

    /** The codec and the first session block. */
    method ReadPreamble() returns (end: Option<End>)
      requires Valid() && pos == 0 && resizes == []
      modifies this
      ensures Valid()
      ensures forall room ::
                Forward(input, maxFPS, room) ==
                if end.Some? then Result([], [], end.value)
                else Before([], resizes, Parse(input[pos..], [], 0, maxFPS, room))
      ensures if end.Some? then resizes == [] else |resizes| == 1
    {
      hide Bit, BigEndian, Parse;
      ghost var s := input;
      assert input[pos..] == s;
      var codec, flags, width, height;
      codec, end := ReadUint(4);
      if end.Some? { return; }
      if codec != VIDEO_CODEC_H264 { end := Some(WrongCodec); return; }
      assert |s| >= 8 ==> input[pos..][..4] == s[4..8];
      flags, end := ReadUint(4);
      if end.Some? { return; }
      if !Bit(flags, TWO_31) { end := Some(NoSession); return; }
      assert |s| >= 12 ==> input[pos..][..4] == s[8..12];
      width, end := ReadUint(4);
      if end.Some? { return; }
      assert |s| >= 16 ==> input[pos..][..4] == s[12..16];
      height, end := ReadUint(4);
      if end.Some? { return; }
      if width < 1 || height < 1 { end := Some(BadSize); return; }
      SetSize(width, height);
    }

    /** `forward`: what it writes to the track, reports and returns is what the stream stands for. */
    method Run(track: SampleTrack) returns (end: End)
      requires Valid() && pos == 0 && resizes == [] && track.frames == [] && track.durations == []
      modifies this, track
      ensures var r := Forward(input, maxFPS, old(track.room));
              Holds(track.frames, track.durations, r.samples) && resizes == r.sizes && end == r.end
    {
      hide Parse, Forward, Holds;
      HoldsNothing();
      var err := ReadPreamble();
      if err.Some? { return err.value; }
      var config := new byte[0];
      var configLen: nat, lastPTS: nat := 0, 0;
      ghost var done: seq<Sample> := [];
      ghost var room := track.room;
      while true
        invariant Valid() && configLen <= config.Length
        invariant fresh(config) && config !in track.frames
        invariant forall f :: f in track.frames ==> fresh(f)
        invariant Holds(track.frames, track.durations, done)
        invariant Forward(input, maxFPS, room) ==
                  Before(done, resizes, Parse(input[pos..], config[..configLen], lastPTS, maxFPS, track.room))
        decreases |input| - pos
      {
        ghost var frames, durations, sizes := track.frames, track.durations, resizes;
        var ended;
        ghost var added;
        ended, config, configLen, lastPTS, added := ForwardOne(track, config, configLen, lastPTS);
        ghost var newFrames, newDurations := track.frames[|frames|..], track.durations[|durations|..];
        HoldsConcat(frames, durations, done, newFrames, newDurations, added);
        assert track.frames == frames + newFrames && track.durations == durations + newDurations;
        assert resizes == sizes + resizes[|sizes|..];
        ghost var r := if ended.Some? then Result([], [], ended.value)
                       else Parse(input[pos..], config[..configLen], lastPTS, maxFPS, track.room);
        BeforeBefore(done, sizes, added, resizes[|sizes|..], r);
        done := done + added;
        if ended.Some? {
          assert done + [] == done && resizes + [] == resizes;
          return ended.value;
        }
      }
    }
  }
}
