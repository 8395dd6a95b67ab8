/**
 * Cutting a message into packets, from the running byte count on the first
 * pass and from a sequence number on retransmission.
 */
module Packets {
  import opened Common
  import opened Blocks

  // kGradPacketHeader
  const HEADER: nat := 20

  // The header fields that describe which bytes a packet carries.  `offset` and
  // `seqNum` are uint32_t and `len` is a uint16_t.
  datatype Packet = Packet(msgId: nat, offset: nat, seqNum: nat, len: nat, isLast: bool)

  // A segment that leaves room for the header; `payload` is the rest of it.
  ghost predicate Segment(payload: nat) {
    0 < payload < 0x8000_0000
  }

  function Narrow32(x: nat): nat {
    x % 0x1_0000_0000
  }

  function Narrow16(x: nat): nat {
    x % 0x1_0000
  }

  function NumPackets(size: nat, payload: nat): nat
    requires 0 < payload
  {
    (size + payload - 1) / payload
  }

  // uint32_t: the count less one, wrapping for the empty message.
  function GetMaxSeqNum(size: nat, payload: nat): nat
    requires 0 < payload
  {
    var n := NumPackets(size, payload);
    if n == 0 then U32 - 1 else Narrow32(n - 1)
  }

  // Bytes carried when `sent` bytes are already covered; the difference is a
  // size_t, so it is huge when `sent` is past the end.
  function Chunk(size: nat, payload: nat, sent: nat): nat {
    if sent > size || size - sent > payload then payload else size - sent
  }

  function MakePacket(msgId: nat, size: nat, payload: nat, sent: nat, seqNum: nat): Packet {
    var n := Chunk(size, payload, sent);
    Packet(msgId, Narrow32(sent), Narrow32(seqNum), Narrow16(n + HEADER), sent + n == size)
  }

  // The packet with sequence number k.
  function PacketAt(msgId: nat, size: nat, payload: nat, k: nat): Packet {
    MakePacket(msgId, size, payload, k * payload, k)
  }

  // The program subtracts and compares size_t values; past the end the difference wraps.
  lemma ChunkIsUnsignedMin(size: nat, payload: nat, sent: nat)
    requires size < 0x8000_0000_0000_0000 && sent < 0x8000_0000_0000_0000 && payload < 0x8000_0000_0000_0000
    ensures Chunk(size, payload, sent) == Min(payload, (size - sent) % 0x1_0000_0000_0000_0000)
  {
  }

  // An empty message announces the largest number there is.
  lemma EmptyMessageWraps(payload: nat)
    requires 0 < payload
    ensures GetMaxSeqNum(0, payload) == 0xFFFF_FFFF
  {
    SmallQuotient(payload - 1, payload);
  }

  // ---- Arithmetic ----

  lemma NumPacketsBounds(size: nat, payload: nat)
    requires 0 < payload
    ensures var n := NumPackets(size, payload);
            && size <= n * payload < size + payload
            && (0 < size ==> 0 < n && (n - 1) * payload < size)
            && (size == 0 ==> n == 0)
  {
    var x := size + payload - 1;
    var n := x / payload;
    assert x == n * payload + x % payload;
    if size == 0 {
      SmallQuotient(x, payload);
    }
    assert 0 < n ==> (n - 1) * payload == n * payload - payload;
  }

  lemma SmallQuotient(x: nat, d: nat)
    requires x < d
    ensures x / d == 0
  {}

  // k names a packet exactly when its first byte is inside the message.
  lemma PacketStarts(size: nat, payload: nat, k: nat)
    requires 0 < payload
    ensures k < NumPackets(size, payload) <==> k * payload < size
  {
    NumPacketsBounds(size, payload);
    var n := NumPackets(size, payload);
    if k < n {
      MulLe(k, n - 1, payload);
    } else {
      MulLe(n, k, payload);
    }
  }

  // The chunk of packet k ends where packet k + 1 starts, or at the end.
  lemma ChunkEnds(size: nat, payload: nat, k: nat)
    requires 0 < payload && k < NumPackets(size, payload)
    ensures k * payload < size
    ensures var stop := k * payload + Chunk(size, payload, k * payload);
            && (k + 1 < NumPackets(size, payload) ==> stop == (k + 1) * payload < size)
            && (k + 1 == NumPackets(size, payload) ==> stop == size)
  {
    PacketStarts(size, payload, k);
    PacketStarts(size, payload, k + 1);
    assert (k + 1) * payload == k * payload + payload;
  }

  // ---- The two ways of cutting ----

  // PartitionOne: `sent` is the message's running byte count.
  method PartitionOne(msgId: nat, size: nat, payload: nat, sent: nat)
    returns (pkt: Packet, sent': nat)
    requires 0 < payload
    ensures sent' == sent + Chunk(size, payload, sent)
    ensures pkt == MakePacket(msgId, size, payload, sent, sent / payload)
  {
    var seqNum := sent / payload;
    var n := Chunk(size, payload, sent);
    pkt := Packet(msgId, Narrow32(sent), Narrow32(seqNum), Narrow16(n + HEADER), sent + n == size);
    sent' := sent + n;
  }

  method PartitionOneBySeq(msgId: nat, size: nat, payload: nat, k: nat) returns (pkt: Packet)
    requires 0 < payload
    ensures pkt == PacketAt(msgId, size, payload, k)
  {
    var offset := payload * k;
    var n := Chunk(size, payload, offset);
    pkt := Packet(msgId, Narrow32(offset), Narrow32(k), Narrow16(n + HEADER), offset + n == size);
  }

  // The first pass: one PartitionOne after the other until all bytes are
  // covered.  It yields the packets a retransmission would cut, in order.
  method FirstPass(msgId: nat, size: nat, payload: nat) returns (pkts: seq<Packet>)
    requires 0 < payload
    ensures pkts == AllPackets(msgId, size, payload)
    ensures 0 < size <= 0x1_0000_0000 ==> |pkts| == GetMaxSeqNum(size, payload) + 1
  {
    pkts := [];
    var sent := 0;
    ghost var all := AllPackets(msgId, size, payload);
    NumPacketsBounds(size, payload);
    MaxSeqFits(size, payload);
    while sent < size
      invariant |pkts| <= |all| && pkts == all[..|pkts|]
      invariant sent == Start(size, payload, |pkts|)
      decreases size - sent
    {
      NextPacket(msgId, size, payload, |pkts|);
      var pkt;
      pkt, sent := PartitionOne(msgId, size, payload, sent);
      pkts := pkts + [pkt];
    }
    StartInside(size, payload, |pkts|);
  }

  // The running byte count before packet k is cut.
  function Start(size: nat, payload: nat, k: nat): nat
    requires 0 < payload
  {
    if k < NumPackets(size, payload) then k * payload else size
  }

  lemma StartInside(size: nat, payload: nat, k: nat)
    requires 0 < payload
    ensures Start(size, payload, k) < size <==> k < NumPackets(size, payload)
  {
    PacketStarts(size, payload, k);
  }

  lemma NextPacket(msgId: nat, size: nat, payload: nat, k: nat)
    requires 0 < payload && Start(size, payload, k) < size
    ensures k < NumPackets(size, payload)
    ensures var sent := Start(size, payload, k);
            && MakePacket(msgId, size, payload, sent, sent / payload) == PacketAt(msgId, size, payload, k)
            && sent < sent + Chunk(size, payload, sent) == Start(size, payload, k + 1)
  {
    ChunkEnds(size, payload, k);
    QuotientOfMultiple(k, payload);
  }

  // Only the last packet carries is_last.
  lemma OnlyLastIsLast(msgId: nat, size: nat, payload: nat, k: nat)
    requires 0 < payload && k < NumPackets(size, payload)
    ensures AllPackets(msgId, size, payload)[k].isLast <==> k + 1 == NumPackets(size, payload)
  {
    ChunkEnds(size, payload, k);
  }

  lemma MaxSeqFits(size: nat, payload: nat)
    requires 0 < payload
    ensures 0 < size <= 0x1_0000_0000 ==>
              GetMaxSeqNum(size, payload) + 1 == NumPackets(size, payload)
  {
    NumPacketsBounds(size, payload);
    var n := NumPackets(size, payload);
    if 0 < size <= 0x1_0000_0000 {
      MulLe(1, payload, n - 1);
      assert (n - 1) * payload == payload * (n - 1);
    }
  }

  // ---- When the narrow header fields are exact ----

  // Bytes a receiver reads off the header: uint32_t arithmetic would wrap
  // below the header size, so keep the sign.
  function PayloadOf(pkt: Packet): int {
    pkt.len - HEADER
  }

  // The packets lie end to end from 0 to size.
  ghost predicate Tiles(pkts: seq<Packet>, size: nat) {
    && pkts != [] && pkts[0].offset == 0
    && (forall k :: 0 <= k < |pkts| - 1 ==>
          pkts[k + 1].offset == pkts[k].offset + PayloadOf(pkts[k]))
    && pkts[|pkts| - 1].offset + PayloadOf(pkts[|pkts| - 1]) == size
  }

  function AllPackets(msgId: nat, size: nat, payload: nat): (pkts: seq<Packet>)
    requires 0 < payload
    ensures |pkts| == NumPackets(size, payload)
    ensures forall k :: 0 <= k < |pkts| ==> pkts[k] == PacketAt(msgId, size, payload, k)
  {
    seq(NumPackets(size, payload), k requires 0 <= k => PacketAt(msgId, size, payload, k))
  }

  // The last offset fits a uint32_t and the longest packet a uint16_t.
  predicate FieldsFit(size: nat, payload: nat)
    requires 0 < payload
  {
    && (NumPackets(size, payload) - 1) * payload < 0x1_0000_0000
    && Chunk(size, payload, 0) + HEADER < 0x1_0000
  }

  // The headers describe a tiling of the message exactly when they fit.
  lemma TilesIffFieldsFit(msgId: nat, size: nat, payload: nat)
    requires Segment(payload) && 0 < size
    ensures Tiles(AllPackets(msgId, size, payload), size) <==> FieldsFit(size, payload)
  {
    var pkts := AllPackets(msgId, size, payload);
    NumPacketsBounds(size, payload);
    if FieldsFit(size, payload) {
      FitTiles(msgId, size, payload);
    }
    if Tiles(pkts, size) {
      TilesFit(msgId, size, payload);
    }
  }

  // Together with its 20 byte header a packet may have 65535 bytes.
  lemma LargestPacket()
    ensures FieldsFit(65515, 65515) && !FieldsFit(65516, 65516)
  {
  }

  // A segment size of 70000 bytes: the length field of the first packet wraps.
  lemma JumboSegmentDoesNotTile(msgId: nat)
    ensures !Tiles(AllPackets(msgId, 70000, 69980), 70000)
  {
    TilesIffFieldsFit(msgId, 70000, 69980);
  }

  // A packet that starts at `start` carries the right length when the longest does,
  // and its offset is right as long as it fits.
  lemma HeaderAt(msgId: nat, size: nat, payload: nat, start: nat, k: nat)
    requires start < size && Chunk(size, payload, 0) + HEADER < 0x1_0000
    ensures PayloadOf(MakePacket(msgId, size, payload, start, k)) == Chunk(size, payload, start)
    ensures MakePacket(msgId, size, payload, start, k).offset < 0x1_0000_0000
    ensures start < 0x1_0000_0000 ==> MakePacket(msgId, size, payload, start, k).offset == start
  {
    assert Chunk(size, payload, start) <= Chunk(size, payload, 0);
  }

  // Packet k when every field fits.
  lemma ExactFields(msgId: nat, size: nat, payload: nat, k: nat)
    requires Segment(payload) && k < NumPackets(size, payload)
    requires FieldsFit(size, payload)
    ensures k * payload < size
    ensures PacketAt(msgId, size, payload, k).offset == k * payload
    ensures PayloadOf(PacketAt(msgId, size, payload, k)) == Chunk(size, payload, k * payload)
  {
    PacketStarts(size, payload, k);
    MulLe(k, NumPackets(size, payload) - 1, payload);
    HeaderAt(msgId, size, payload, k * payload, k);
  }

  lemma FitTiles(msgId: nat, size: nat, payload: nat)
    requires Segment(payload) && 0 < size && FieldsFit(size, payload)
    ensures Tiles(AllPackets(msgId, size, payload), size)
  {
    var pkts := AllPackets(msgId, size, payload);
    NumPacketsBounds(size, payload);
    forall k | 0 <= k < |pkts| - 1
      ensures pkts[k + 1].offset == pkts[k].offset + PayloadOf(pkts[k])
    {
      ExactFields(msgId, size, payload, k);
      ExactFields(msgId, size, payload, k + 1);
      ChunkEnds(size, payload, k);
    }
    ExactFields(msgId, size, payload, |pkts| - 1);
    ExactFields(msgId, size, payload, 0);
    ChunkEnds(size, payload, |pkts| - 1);
  }

  // A length that does not fit leaves a gap after the first packet.
  lemma TilesLength(msgId: nat, size: nat, payload: nat)
    requires Segment(payload) && 0 < size
    requires Tiles(AllPackets(msgId, size, payload), size)
    ensures Chunk(size, payload, 0) + HEADER < 0x1_0000
  {
    var pkts := AllPackets(msgId, size, payload);
    ChunkEnds(size, payload, 0);
    assert 0 * payload == 0 && 1 * payload == payload;
    FirstChunkFits(pkts, msgId, size, payload);
  }

  lemma FirstChunkFits(pkts: seq<Packet>, msgId: nat, size: nat, payload: nat)
    requires Segment(payload) && 0 < size && Tiles(pkts, size)
    requires pkts[0] == MakePacket(msgId, size, payload, 0, 0)
    requires if |pkts| == 1 then Chunk(size, payload, 0) == size
             else Chunk(size, payload, 0) == payload && pkts[1] == MakePacket(msgId, size, payload, payload, 1)
    ensures Chunk(size, payload, 0) + HEADER < 0x1_0000
  {
    assert PayloadOf(pkts[0]) < 0x1_0000 - HEADER;
    if |pkts| > 1 {
      assert pkts[0 + 1].offset == pkts[0].offset + PayloadOf(pkts[0]);
    }
  }

  lemma TilesFit(msgId: nat, size: nat, payload: nat)
    requires Segment(payload) && 0 < size
    requires Tiles(AllPackets(msgId, size, payload), size)
    ensures FieldsFit(size, payload)
  {
    TilesLength(msgId, size, payload);
    NumPacketsBounds(size, payload);
    TilesOffsets(msgId, size, payload, NumPackets(size, payload) - 1);
  }

  // In a tiling every offset is the sum of the chunks before it.
  lemma {:induction false} TilesOffsets(msgId: nat, size: nat, payload: nat, k: nat)
    requires Segment(payload) && k < NumPackets(size, payload)
    requires Tiles(AllPackets(msgId, size, payload), size)
    requires Chunk(size, payload, 0) + HEADER < 0x1_0000
    ensures k * payload < 0x1_0000_0000
  {
    if k > 0 {
      TilesOffsets(msgId, size, payload, k - 1);
      ChunkEnds(size, payload, k - 1);
      ChunkEnds(size, payload, k);
      MulLe(0, k - 1, payload);
      MulLe(0, k, payload);
      var pkts := AllPackets(msgId, size, payload);
      TilesNext(pkts, msgId, size, payload, k, (k - 1) * payload, k * payload);
    }
  }

  // Packet k starts at b, right after packet k - 1, which starts at a.
  lemma TilesNext(pkts: seq<Packet>, msgId: nat, size: nat, payload: nat, k: nat, a: nat, b: nat)
    requires Tiles(pkts, size) && 0 < k < |pkts|
    requires pkts[k - 1] == MakePacket(msgId, size, payload, a, k - 1)
    requires pkts[k] == MakePacket(msgId, size, payload, b, k)
    requires a < size && a < 0x1_0000_0000 && b < size && b == a + Chunk(size, payload, a)
    requires Chunk(size, payload, 0) + HEADER < 0x1_0000
    ensures b < 0x1_0000_0000
  {
    HeaderAt(msgId, size, payload, a, k - 1);
    HeaderAt(msgId, size, payload, b, k);
    assert pkts[k - 1 + 1].offset == pkts[k - 1].offset + PayloadOf(pkts[k - 1]);
  }
}
