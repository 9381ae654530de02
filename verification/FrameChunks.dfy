/**
 Frames over the data channel: the server cuts a frame into numbered chunks, the browser
 puts it together again whatever order, repetitions or strangers the chunks arrive in.
 */
module FrameChunks {
  import opened BigEndians
  import opened Options

  const FRAME_CHUNK_SIZE: nat := 12 * 1024
  const MAX_CHUNKS: nat := 65535
  const TWO_32: nat := 0x1_0000_0000

  /** What travels on the channel: a parsed frame header, a binary packet, any other text. */
  datatype Message = Header(id: int, chunks: int) | Packet(data: seq<byte>) | OtherText

  // ---------------------------------------------------------------- the sender's messages

  function ChunkCount(frame: seq<byte>): nat { (|frame| + FRAME_CHUNK_SIZE - 1) / FRAME_CHUNK_SIZE }

  function Least(x: nat, y: nat): nat { if x < y then x else y }

  lemma ChunkBounds(frame: seq<byte>, k: nat)
    requires k <= ChunkCount(frame)
    ensures k < ChunkCount(frame) ==> k * FRAME_CHUNK_SIZE < |frame|
    ensures k == ChunkCount(frame) ==> |frame| <= k * FRAME_CHUNK_SIZE
  {}

  function Chunk(frame: seq<byte>, k: nat): seq<byte>
    requires k < ChunkCount(frame)
  {
    ChunkBounds(frame, k);
    frame[k * FRAME_CHUNK_SIZE..Least((k + 1) * FRAME_CHUNK_SIZE, |frame|)]
  }

  function PacketOf(frame: seq<byte>, id: nat, k: nat): (m: Message)
    requires k < ChunkCount(frame)
    ensures m.Packet?
  {
    Packet(Bytes(id, 4) + Bytes(k, 2) + Bytes(ChunkCount(frame), 2) + Chunk(frame, k))
  }

  /** The header and the first `k` packets. */
  function MessagesUpTo(frame: seq<byte>, id: nat, k: nat): seq<Message>
    requires k <= ChunkCount(frame)
  {
    if k == 0 then [Header(id, ChunkCount(frame))]
    else MessagesUpTo(frame, id, k - 1) + [PacketOf(frame, id, k - 1)]
  }

  function Messages(frame: seq<byte>, id: nat): seq<Message> { MessagesUpTo(frame, id, ChunkCount(frame)) }

  predicate Sendable(frame: seq<byte>) { 1 <= ChunkCount(frame) <= MAX_CHUNKS }

  // ---------------------------------------------------------------- the receiver

  datatype Assembly = Assembly(id: int, chunks: nat, parts: seq<Option<seq<byte>>>, received: nat)

  /** The frame being assembled, and the frames handed to the image element so far. */
  datatype Page = Page(current: Option<Assembly>, shown: seq<(int, seq<byte>)>)

  function NoParts(n: nat): seq<Option<seq<byte>>> { seq(n, _ => None) }

  /** `new Blob(parts)` */
  function Blob(parts: seq<Option<seq<byte>>>): seq<byte> {
    if parts == [] then []
    else
      var last := parts[|parts| - 1];
      Blob(parts[..|parts| - 1]) + if last.Some? then last.value else []
  }

  /** The packets `receiveWebRTCFrameChunk` looks at and drops. */
  predicate Stranger(data: seq<byte>, id: int, chunks: nat) {
    || |data| < 8
    || BigEndian(data[..4]) != id
    || BigEndian(data[6..8]) != chunks
    || BigEndian(data[4..6]) >= chunks
  }

  function ReceiveChunk(p: Page, data: seq<byte>): Page {
    if p.current.None? || Stranger(data, p.current.value.id, p.current.value.chunks) then p
    else
      var f := p.current.value;
      var index := BigEndian(data[4..6]);
      if index >= |f.parts| || f.parts[index].Some? then p
      else
        var parts := f.parts[index := Some(data[8..])];
        if f.received + 1 != f.chunks then p.(current := Some(f.(parts := parts, received := f.received + 1)))
        else Page(None, p.shown + [(f.id, Blob(parts))])
  }

  function Receive(p: Page, m: Message): Page {
    match m
    case Header(id, chunks) =>
      // an array of an impossible length throws, and the message is ignored
      if 0 <= chunks < TWO_32 then p.(current := Some(Assembly(id, chunks, NoParts(chunks), 0))) else p
    case Packet(data) => ReceiveChunk(p, data)
    case OtherText => p
  }

  function Run(p: Page, ms: seq<Message>): Page {
    if ms == [] then p else Receive(Run(p, ms[..|ms| - 1]), ms[|ms| - 1])
  }

  // ---------------------------------------------------------------- what must have arrived

  predicate Genuine(m: Message, frame: seq<byte>, id: nat) {
    exists k: nat :: k < ChunkCount(frame) && m == PacketOf(frame, id, k)
  }

  predicate Ignorable(m: Message, id: int, chunks: nat) {
    m.OtherText? || (m.Packet? && Stranger(m.data, id, chunks))
  }

  predicate Arrived(ms: seq<Message>, frame: seq<byte>, id: nat, k: nat)
    requires k < ChunkCount(frame)
  {
    PacketOf(frame, id, k) in ms
  }

  predicate AllArrived(ms: seq<Message>, frame: seq<byte>, id: nat) {
    forall k :: 0 <= k < ChunkCount(frame) ==> Arrived(ms, frame, id, k)
  }

  function PartsOf(ms: seq<Message>, frame: seq<byte>, id: nat): seq<Option<seq<byte>>> {
    seq(ChunkCount(frame), k requires 0 <= k < ChunkCount(frame) =>
      if Arrived(ms, frame, id, k) then Some(Chunk(frame, k)) else None)
  }

  function Present(parts: seq<Option<seq<byte>>>): nat {
    if parts == [] then 0
    else Present(parts[..|parts| - 1]) + if parts[|parts| - 1].Some? then 1 else 0
  }

  /** What the page holds once the messages `ms` have followed the frame's header. */
  function Expected(ms: seq<Message>, frame: seq<byte>, id: nat, shown: seq<(int, seq<byte>)>): Page {
    if AllArrived(ms, frame, id) then Page(None, shown + [(id, frame)])
    else
      var parts := PartsOf(ms, frame, id);
      Page(Some(Assembly(id, ChunkCount(frame), parts, Present(parts))), shown)
  }

  lemma {:induction false} PresentBound(parts: seq<Option<seq<byte>>>)
    ensures Present(parts) <= |parts|
    ensures Present(parts) == |parts| <==> forall k :: 0 <= k < |parts| ==> parts[k].Some?
  {
    if parts != [] {
      var n := |parts| - 1;
      PresentBound(parts[..n]);
      assert forall k :: 0 <= k < n ==> parts[..n][k] == parts[k];
    }
  }

  lemma {:induction false} PresentUpdate(parts: seq<Option<seq<byte>>>, k: nat, part: seq<byte>)
    requires k < |parts| && parts[k].None?
    ensures Present(parts[k := Some(part)]) == Present(parts) + 1
  {
    var n := |parts| - 1;
    var after := parts[k := Some(part)];
    if k < n {
      assert after[..n] == parts[..n][k := Some(part)];
      PresentUpdate(parts[..n], k, part);
    } else {
      assert after[..n] == parts[..n];
    }
  }

  lemma {:induction false} PresentNone(n: nat)
    ensures Present(NoParts(n)) == 0
  {
    if n > 0 {
      assert NoParts(n)[..n - 1] == NoParts(n - 1);
      PresentNone(n - 1);
    }
  }

  /** Chunks in order are the frame again. */
  lemma {:induction false} BlobOfChunks(frame: seq<byte>, parts: seq<Option<seq<byte>>>, n: nat)
    requires n <= |parts| == ChunkCount(frame)
    requires forall k :: 0 <= k < |parts| ==> parts[k] == Some(Chunk(frame, k))
    ensures Blob(parts[..n]) == frame[..Least(n * FRAME_CHUNK_SIZE, |frame|)]
  {
    if n > 0 {
      BlobOfChunks(frame, parts, n - 1);
      assert parts[..n][..n - 1] == parts[..n - 1];
      ChunkBounds(frame, n - 1);
      var a, b := (n - 1) * FRAME_CHUNK_SIZE, Least(n * FRAME_CHUNK_SIZE, |frame|);
      assert frame[..a] + frame[a..b] == frame[..b];
    }
  }

  /** A packet's own fields are what the receiver reads, so packets of one frame are told apart. */
  lemma PacketFields(frame: seq<byte>, id: nat, k: nat)
    requires Sendable(frame) && id < TWO_32 && k < ChunkCount(frame)
    ensures var data := PacketOf(frame, id, k).data;
            && !Stranger(data, id, ChunkCount(frame))
            && BigEndian(data[4..6]) == k && data[8..] == Chunk(frame, k)
  {
    Powers();
    BigEndianBytes(id, 4);
    BigEndianBytes(k, 2);
    BigEndianBytes(ChunkCount(frame), 2);
    hide Bytes, BigEndian, Chunk, Pow256;
    Fields(Bytes(id, 4), Bytes(k, 2), Bytes(ChunkCount(frame), 2), Chunk(frame, k));
  }

  lemma Fields(a: seq<byte>, b: seq<byte>, c: seq<byte>, d: seq<byte>)
    requires |a| == 4 && |b| == 2 && |c| == 2
    ensures var s := a + b + c + d;
            |s| >= 8 && s[..4] == a && s[4..6] == b && s[6..8] == c && s[8..] == d
  {}

  /** One more genuine packet. */
  lemma ReceiveGenuine(ms: seq<Message>, frame: seq<byte>, id: nat, shown: seq<(int, seq<byte>)>, k: nat)
    requires Sendable(frame) && id < TWO_32 && k < ChunkCount(frame)
    ensures var m := PacketOf(frame, id, k);
            Receive(Expected(ms, frame, id, shown), m) == Expected(ms + [m], frame, id, shown)
  {
    hide Stranger, Chunk, Blob, Present, BigEndian, PacketOf;
    var m := PacketOf(frame, id, k);
    var before, after := PartsOf(ms, frame, id), PartsOf(ms + [m], frame, id);
    PacketFields(frame, id, k);
    forall j | 0 <= j < ChunkCount(frame)
      ensures Arrived(ms + [m], frame, id, j) <==> Arrived(ms, frame, id, j) || j == k
    {
      PacketFields(frame, id, j);
    }
    if !AllArrived(ms, frame, id) {
      if Arrived(ms, frame, id, k) {
        assert after == before;
      } else {
        assert after == before[k := Some(Chunk(frame, k))];
        PresentUpdate(before, k, Chunk(frame, k));
        PresentBound(after);
        assert forall j :: 0 <= j < |after| ==> (after[j].Some? <==> Arrived(ms + [m], frame, id, j));
        if AllArrived(ms + [m], frame, id) { WholeBlob(frame, after); }
      }
    }
  }

  lemma WholeBlob(frame: seq<byte>, parts: seq<Option<seq<byte>>>)
    requires |parts| == ChunkCount(frame)
    requires forall k :: 0 <= k < |parts| ==> parts[k] == Some(Chunk(frame, k))
    ensures Blob(parts) == frame
  {
    hide Chunk, Blob;
    BlobOfChunks(frame, parts, |parts|);
    ChunkBounds(frame, |parts|);
    assert parts[..|parts|] == parts && frame[..|frame|] == frame;
  }

  lemma ReceiveIgnorable(ms: seq<Message>, frame: seq<byte>, id: nat, shown: seq<(int, seq<byte>)>, m: Message)
    requires Sendable(frame) && id < TWO_32 && Ignorable(m, id, ChunkCount(frame))
    ensures Receive(Expected(ms, frame, id, shown), m) == Expected(ms, frame, id, shown)
    ensures Expected(ms + [m], frame, id, shown) == Expected(ms, frame, id, shown)
  {
    hide Stranger, Chunk, Blob, Present, BigEndian, PacketOf;
    forall j | 0 <= j < ChunkCount(frame)
      ensures Arrived(ms + [m], frame, id, j) <==> Arrived(ms, frame, id, j)
    {
      PacketFields(frame, id, j);
    }
    assert PartsOf(ms + [m], frame, id) == PartsOf(ms, frame, id);
  }

  /**
   After a frame's header, whatever arrives until the next header (its chunks in any order,
   any number of times, mixed with short packets and chunks of other frames), the page is
   exactly as `Expected` says: the frame is shown once, unchanged, as soon as every index has
   arrived, and until then each arrived part is kept.
   */
  lemma {:induction false} AnyArrivalOrder(p: Page, ms: seq<Message>, frame: seq<byte>, id: nat)
    requires Sendable(frame) && id < TWO_32
    requires forall i :: 0 <= i < |ms| ==> Genuine(ms[i], frame, id) || Ignorable(ms[i], id, ChunkCount(frame))
    ensures Run(Receive(p, Header(id, ChunkCount(frame))), ms) == Expected(ms, frame, id, p.shown)
  {
    hide Stranger, Receive, Expected;
    if ms == [] {
      NothingArrived(p, frame, id);
    } else {
      var n := |ms| - 1;
      var before, m := ms[..n], ms[n];
      assert forall i :: 0 <= i < n ==> before[i] == ms[i];
      AnyArrivalOrder(p, before, frame, id);
      assert ms == before + [m];
      if Genuine(m, frame, id) {
        var k: nat :| k < ChunkCount(frame) && m == PacketOf(frame, id, k);
        ReceiveGenuine(before, frame, id, p.shown, k);
      } else {
        ReceiveIgnorable(before, frame, id, p.shown, m);
      }
    }
  }

  lemma NothingArrived(p: Page, frame: seq<byte>, id: nat)
    requires Sendable(frame)
    ensures Receive(p, Header(id, ChunkCount(frame))) == Expected([], frame, id, p.shown)
  {
    hide Chunk, PacketOf;
    assert !Arrived([], frame, id, 0);
    assert PartsOf([], frame, id) == NoParts(ChunkCount(frame));
    PresentNone(ChunkCount(frame));
  }

  /** The frame appears with the message that brings the last missing index, and not before or again. */
  lemma ShownExactlyWhenComplete(p: Page, ms: seq<Message>, m: Message, frame: seq<byte>, id: nat)
    requires Sendable(frame) && id < TWO_32
    requires forall i :: 0 <= i < |ms| ==> Genuine(ms[i], frame, id) || Ignorable(ms[i], id, ChunkCount(frame))
    requires Genuine(m, frame, id) || Ignorable(m, id, ChunkCount(frame))
    ensures var start := Receive(p, Header(id, ChunkCount(frame)));
            var before, after := Run(start, ms), Run(start, ms + [m]);
            && (after.shown != before.shown <==> AllArrived(ms + [m], frame, id) && !AllArrived(ms, frame, id))
            && (after.shown != before.shown ==> after.shown == p.shown + [(id, frame)])
  {
    AnyArrivalOrder(p, ms, frame, id);
    AnyArrivalOrder(p, ms + [m], frame, id);
    hide Genuine, Ignorable, Run, Receive, PacketOf, ChunkCount, PartsOf, Present;
    assert AllArrived(ms, frame, id) ==> AllArrived(ms + [m], frame, id);
  }

  /** In particular, what the sender sends is shown as it was. */
  lemma SentIsShown(p: Page, frame: seq<byte>, id: nat)
    requires Sendable(frame) && id < TWO_32
    ensures Run(p, Messages(frame, id)) == Page(None, p.shown + [(id as int, frame)])
  {
    var n := ChunkCount(frame);
    var ms := Messages(frame, id);
    MessagesAre(frame, id, n);
    RunFrom(p, ms);
    forall i | 0 <= i < n ensures Genuine(ms[1..][i], frame, id) && Arrived(ms[1..], frame, id, i) {
      assert ms[1..][i] == PacketOf(frame, id, i);
    }
    AnyArrivalOrder(p, ms[1..], frame, id);
  }

  lemma {:induction false} MessagesAre(frame: seq<byte>, id: nat, k: nat)
    requires k <= ChunkCount(frame)
    ensures var ms := MessagesUpTo(frame, id, k);
            && |ms| == k + 1 && ms[0] == Header(id, ChunkCount(frame))
            && forall i :: 0 <= i < k ==> ms[i + 1] == PacketOf(frame, id, i)
  {
    hide PacketOf;
    if k > 0 { MessagesAre(frame, id, k - 1); }
  }

  lemma {:induction false} RunFrom(p: Page, ms: seq<Message>)
    requires ms != []
    ensures Run(p, ms) == Run(Receive(p, ms[0]), ms[1..])
  {
    hide Receive;
    var n := |ms| - 1;
    if n > 0 {
      RunFrom(p, ms[..n]);
      assert ms[..n][1..] == ms[1..][..n - 1];
    } else {
      assert ms[..0] == [];
    }
  }

  // ---------------------------------------------------------------- any messages at all

  /** The counter is the number of parts held, and an unfinished frame has a hole. */
  predicate Consistent(p: Page) {
    p.current.Some? ==>
      var f := p.current.value;
      |f.parts| == f.chunks && f.received == Present(f.parts) && (f.chunks > 0 ==> f.received < f.chunks)
  }

  lemma ReceiveKeepsConsistent(p: Page, m: Message)
    requires Consistent(p)
    ensures Consistent(Receive(p, m))
    ensures Receive(p, m).shown != p.shown ==>
              m.Packet? && p.current.Some? && |m.data| >= 8 && BigEndian(m.data[4..6]) < |p.current.value.parts|
              && var parts := p.current.value.parts[BigEndian(m.data[4..6]) := Some(m.data[8..])];
                 && (forall k :: 0 <= k < |parts| ==> parts[k].Some?)
                 && Receive(p, m).shown == p.shown + [(p.current.value.id, Blob(parts))]
  {
    hide Blob, Present;
    match m
    case Header(id, chunks) => if 0 <= chunks < TWO_32 { PresentNone(chunks); }
    case Packet(data) =>
      if p.current.Some? && !Stranger(data, p.current.value.id, p.current.value.chunks) {
        var parts, index := p.current.value.parts, BigEndian(data[4..6]);
        if parts[index].None? {
          PresentUpdate(parts, index, data[8..]);
          PresentBound(parts[index := Some(data[8..])]);
        }
      }
    case OtherText =>
  }

  /** No sequence of messages, however hostile, makes the page show a frame with a missing part. */
  lemma {:induction false} RunKeepsConsistent(p: Page, ms: seq<Message>)
    requires Consistent(p)
    ensures Consistent(Run(p, ms))
  {
    hide Consistent, Receive;
    if ms != [] {
      RunKeepsConsistent(p, ms[..|ms| - 1]);
      ReceiveKeepsConsistent(Run(p, ms[..|ms| - 1]), ms[|ms| - 1]);
    }
  }

  // ---------------------------------------------------------------- the messages in bytes

  lemma ShareOfFrame(frame: seq<byte>, k: nat)
    requires k < ChunkCount(frame)
    ensures ChunkCount(frame) == (|frame| + 12287) / 12288 && 12288 * k < |frame|
    ensures Chunk(frame, k) == frame[12288 * k..if 12288 * (k + 1) < |frame| then 12288 * (k + 1) else |frame|]
  {
    ChunkBounds(frame, k);
  }

  lemma FourTwoTwo(a: byte, b: byte, c: byte, d: byte, e: byte, f: byte, g: byte, h: byte)
    ensures [a, b, c, d] + [e, f] + [g, h] == [a, b, c, d, e, f, g, h]
  {}

  /**
   A packet is the frame's number in four bytes, its own and the number of packets in two each,
   and its share of the frame: 12288 bytes, the last one what is left.
   */
  lemma PacketInBytes(frame: seq<byte>, id: nat, k: nat)
    requires k < ChunkCount(frame) && ChunkCount(frame) <= 65535 && id < 0x1_0000_0000
    ensures ChunkCount(frame) == (|frame| + 12287) / 12288
    ensures var n := ChunkCount(frame);
            PacketOf(frame, id, k).data ==
              [id / 0x100_0000, id / 0x1_0000 % 256, id / 0x100 % 256, id % 256, k / 256, k % 256, n / 256, n % 256]
              + frame[12288 * k..if 12288 * (k + 1) < |frame| then 12288 * (k + 1) else |frame|]
  {
    var n := ChunkCount(frame);
    ShareOfFrame(frame, k);
    BytesOfFour(id);
    BytesOfTwo(k);
    BytesOfTwo(n);
    hide Bytes, Chunk, ChunkCount;
    FourTwoTwo(id / 0x100_0000, id / 0x1_0000 % 256, id / 0x100 % 256, id % 256, k / 256, k % 256, n / 256, n % 256);
  }

  /** Frames from one byte to 65535 full packets are sent. */
  lemma SendableExactly(frame: seq<byte>)
    ensures Sendable(frame) <==> 1 <= |frame| <= 805_294_080
  {}

  /** A packet is passed over if it is short, of another frame or another number of packets, or numbered beyond it. */
  lemma StrangerInBytes(data: seq<byte>, id: int, chunks: nat)
    ensures Stranger(data, id, chunks) <==>
      || |data| < 8
      || data[0] as int * 0x100_0000 + data[1] as int * 0x1_0000 + data[2] as int * 0x100 + data[3] != id
      || data[6] as int * 0x100 + data[7] != chunks
      || data[4] as int * 0x100 + data[5] >= chunks
  {
    hide BigEndian;
    if |data| >= 8 {
      FourBytes(data[..4]);
      TwoBytes(data[4..6]);
      TwoBytes(data[6..8]);
    }
  }

  /** A packet that is not passed over fills its own place if that is empty, and the last one shows the frame. */
  lemma ReceivedExactly(p: Page, data: seq<byte>)
    requires p.current.Some? && |p.current.value.parts| == p.current.value.chunks
    requires |data| >= 8 && data[4] as int * 0x100 + data[5] < p.current.value.chunks
    requires !Stranger(data, p.current.value.id, p.current.value.chunks)
    ensures var f, index, r := p.current.value, data[4] as int * 0x100 + data[5], Receive(p, Packet(data));
            var parts := f.parts[index := Some(data[8..])];
            if f.parts[index].Some? then r == p
            else if f.received + 1 == f.chunks then r == Page(None, p.shown + [(f.id, Blob(parts))])
            else r == Page(Some(Assembly(f.id, f.chunks, parts, f.received + 1)), p.shown)
  {
    TwoBytes(data[4..6]);
    hide BigEndian;
  }

  /** A header begins a frame with as many empty places, up to what an array can have. */
  lemma HeaderReceived(p: Page, id: int, chunks: int)
    ensures var r := Receive(p, Header(id, chunks));
            if 0 <= chunks <= 4294967295 then
              && r.current.Some? && r.current.value.id == id && r.current.value.chunks == chunks == |r.current.value.parts|
              && r.current.value.received == 0 && r.shown == p.shown
              && forall i :: 0 <= i < chunks ==> r.current.value.parts[i] == None
            else r == p
  {}

  // ---------------------------------------------------------------- the sender

  /** The channel; `room` is the number of sends that succeed before it fails. */
  class DataChannel {
    var sent: seq<Message>
    var room: nat

    constructor (room: nat)
      ensures sent == [] && this.room == room
    {
      sent, this.room := [], room;
    }

    method Send(m: Message) returns (err: bool)
      modifies this
      ensures err == (old(room) == 0)
      ensures sent == old(sent) + if err then [] else [m]
      ensures room == if err then 0 else old(room) - 1
    {
      err := room == 0;
      if !err { sent, room := sent + [m], room - 1; }
    }
  }

  method PutUint(packet: array<byte>, at: nat, value: nat, n: nat)
    requires at + n <= packet.Length
    modifies packet
    ensures packet[..] == old(packet[..at]) + Bytes(value, n) + old(packet[at + n..])
  {
    var bytes := Bytes(value, n);
    forall i | 0 <= i < n { packet[at + i] := bytes[i]; }
  }

  /** The eight bytes in front of a packet's share of the frame. */
  method FillFields(packet: array<byte>, frameID: nat, index: nat, chunks: nat)
    requires packet.Length >= 8
    modifies packet
    ensures packet[..8] == Bytes(frameID, 4) + Bytes(index, 2) + Bytes(chunks, 2)
  {
    hide Bytes;
    PutUint(packet, 0, frameID, 4);
    assert packet[..4] == Bytes(frameID, 4);
    PutUint(packet, 4, index, 2);
    assert packet[..6] == Bytes(frameID, 4) + Bytes(index, 2);
    PutUint(packet, 6, chunks, 2);
  }

  /** One packet buffer, filled field by field. */
  method FillPacket(frame: array<byte>, frameID: nat, index: nat, chunks: nat) returns (packet: array<byte>)
    requires chunks == ChunkCount(frame[..]) && index < chunks
    ensures fresh(packet) && Packet(packet[..]) == PacketOf(frame[..], frameID, index)
  {
    hide Bytes;
    ChunkBounds(frame[..], index);
    var start := index * FRAME_CHUNK_SIZE;
    var end := start + FRAME_CHUNK_SIZE;
    if end > frame.Length { end := frame.Length; }
    packet := new byte[8 + end - start](_ => 0);
    FillFields(packet, frameID, index, chunks);
    ghost var fields := packet[..8];
    forall i | 0 <= i < end - start { packet[8 + i] := frame[start + i]; }
    assert packet[8..] == frame[start..end] == Chunk(frame[..], index);
    assert packet[..] == packet[..8] + packet[8..] && packet[..8] == fields;
  }

  /** `sendWebRTCFrame`: on a failing channel, exactly the messages that still went out. */
  method SendFrame(channel: DataChannel, frameID: nat, frame: array<byte>) returns (err: bool)
    modifies channel
    ensures !Sendable(frame[..]) ==> err && channel.sent == old(channel.sent) && channel.room == old(channel.room)
    ensures Sendable(frame[..]) ==> (err <==> old(channel.room) <= ChunkCount(frame[..]))
    ensures Sendable(frame[..]) ==>
              channel.sent == old(channel.sent) + Messages(frame[..], frameID)[..Least(old(channel.room), |Messages(frame[..], frameID)|)]
  {
    hide PacketOf, Bytes;
    var chunks := (frame.Length + FRAME_CHUNK_SIZE - 1) / FRAME_CHUNK_SIZE;
    if chunks == 0 || chunks > MAX_CHUNKS { return true; }
    MessagesAre(frame[..], frameID, chunks);
    err := channel.Send(Header(frameID, chunks));
    if err { return; }
    var index := 0;
    while index < chunks
      invariant 0 <= index <= chunks && !err
      invariant channel.sent == old(channel.sent) + Messages(frame[..], frameID)[..index + 1]
      invariant channel.room == old(channel.room) - index - 1
    {
      var packet := FillPacket(frame, frameID, index, chunks);
      err := channel.Send(Packet(packet[..]));
      if err { return; }
      index := index + 1;
    }
  }

  // ---------------------------------------------------------------- the page's receiver

  /** `webRTCFrame` as fields; `assembling` is false where the script holds null. */
  class Receiver {
    var assembling: bool
    var id: int
    var chunks: nat
    var parts: array<Option<seq<byte>>>
    var received: nat
    var shown: seq<(int, seq<byte>)>

    ghost function View(): Page
      reads this, parts
    {
      Page(if assembling then Some(Assembly(id, chunks, parts[..], received)) else None, shown)
    }

    ghost predicate Valid()
      reads this, parts
    {
      Consistent(View())
    }

    constructor ()
      ensures Valid() && fresh(parts) && View() == Page(None, [])
    {
      assembling, id, chunks, received, shown := false, 0, 0, 0, [];
      parts := new Option<seq<byte>>[0];
    }

    method ReceiveHeader(id: int, chunks: int)
      requires Valid()
      modifies this
      ensures Valid() && View() == Receive(old(View()), Header(id, chunks))
      ensures parts == old(parts) || fresh(parts)
    {
      ReceiveKeepsConsistent(View(), Header(id, chunks));
      if 0 <= chunks < TWO_32 {
        this.assembling, this.id, this.chunks, this.received := true, id, chunks, 0;
        parts := new Option<seq<byte>>[chunks](_ => None);
        assert parts[..] == NoParts(chunks);
      }
    }

    method ReceiveFrameChunk(data: array<byte>)
      requires Valid()
      modifies this, parts
      ensures Valid() && View() == Receive(old(View()), Packet(data[..]))
      ensures parts == old(parts)
    {
      ReceiveKeepsConsistent(View(), Packet(data[..]));
      if !assembling || data.Length < 8 { return; }
      var frameID := BigEndian(data[..4]);
      var index := BigEndian(data[4..6]);
      var total := BigEndian(data[6..8]);
      assert data[..][..4] == data[..4] && data[..][4..6] == data[4..6] && data[..][6..8] == data[6..8];
      if frameID != id || total != chunks || index >= total || parts[index].Some? { return; }
      ghost var before := parts[..];
      parts[index] := Some(data[8..]);
      assert parts[..] == before[index := Some(data[..][8..])];
      received := received + 1;
      if received != chunks { return; }
      shown := shown + [(id, Blob(parts[..]))];
      assembling := false;
    }
  }
}
