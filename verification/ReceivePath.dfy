/**
 * What really reaches the user's buffer.  HandleReceive stores the address of the
 * payload into the packet's grad_ptr field before copying, and that field lies over
 * the first eight payload bytes.
 */
module ReceivePath {
  import opened Common
  import opened Blocks
  import opened Packets
  import opened Messages
  import R = Receiver

  // sizeof(grad_ptr)
  const STAMP: nat := 8

  // The payload once the address has been stored over its front.
  function Stamped(data: seq<Byte>, address: seq<Byte>): (r: seq<Byte>)
    requires |address| == STAMP
    ensures |r| == |data|
    ensures forall j :: 0 <= j < |data| ==> r[j] == if j < STAMP then address[j] else data[j]
  {
    var n := Min(STAMP, |data|);
    address[..n] + data[n..]
  }

  // The bytes of the address as the machine stores them, written over the buffer the
  // datagram was read into.
  method StampPayload(raw: array<Byte>, address: seq<Byte>)
    requires |address| == STAMP && HEADER + STAMP <= raw.Length
    modifies raw
    ensures forall len :: HEADER <= len <= raw.Length ==>
              raw[HEADER..len] == Stamped(old(raw[HEADER..len]), address)
    ensures raw[..HEADER] == old(raw[..HEADER])
  {
    for i := 0 to STAMP
      invariant forall j :: 0 <= j < raw.Length ==>
                  raw[j] == if HEADER <= j < HEADER + i then address[j - HEADER] else old(raw[j])
    {
      raw[HEADER + i] := address[i];
    }
  }

  // A datagram for a posted receive: stamp it, copy it, and stop the sender once the
  // bound is reached.
  method HandleReceive(ext: LtMessageExt, pkt: Packet, raw: array<Byte>, address: seq<Byte>)
    returns (ok: bool, stop: bool)
    requires ext.Valid() && raw != ext.buf && pkt.seqNum < U32
    requires HEADER <= pkt.len <= raw.Length && |address| == STAMP && HEADER + STAMP <= raw.Length
    modifies raw, ext, ext.buf, ext.blockMgr
    ensures ext.Valid()
    ensures ok <==> pkt.seqNum + 1 < U32 && R.Accept(old(ext.Record()), pkt).Ok?
    ensures ok ==> ext.Record() == R.Accept(old(ext.Record()), pkt).value
    ensures stop <==> ok && ext.stopped && !old(ext.stopped)
    ensures ok ==> var taken := Room(old(ext.View()).slots, pkt.seqNum)[pkt.seqNum];
                   var data := Stamped(old(raw[HEADER..pkt.len]), address);
                   && (taken ==> ext.View() == old(ext.View()))
                   && (!taken ==> ext.View() == Receive(old(ext.View()), pkt.seqNum, pkt.offset, data))
  {
    StampPayload(raw, address);
    var copied;
    ok, copied := ext.CopyGradients(pkt, raw[HEADER..pkt.len]);
    stop := false;
    if ok && copied > 0 {
      var finished := ext.FinishReceiving();
      if finished && !ext.stopped {
        ext.stopped := true;
        stop := true;
      }
    }
  }

  // ---- Any packets of a message, each stamped on arrival ----

  ghost predicate Named(ks: seq<nat>, size: nat, payload: nat)
    requires 0 < payload
  {
    forall i :: 0 <= i < |ks| ==> ks[i] < NumPackets(size, payload)
  }

  ghost function ReceiveStamped(st: Receipt, msg: seq<Byte>, payload: nat, address: seq<Byte>,
                                ks: seq<nat>): (r: Receipt)
    requires 0 < payload && |st.buf| == |msg| && |address| == STAMP && Named(ks, |msg|, payload)
    ensures |r.buf| == |msg|
  {
    if ks == [] then st
    else
      var prev := ReceiveStamped(st, msg, payload, address, Front(ks));
      var k := Back(ks);
      Receive(prev, k, k * payload, Stamped(ChunkData(msg, payload, k), address))
  }

  // The message with the address over the first bytes of every chunk.
  ghost function StampedMessage(msg: seq<Byte>, payload: nat, address: seq<Byte>): (r: seq<Byte>)
    requires 0 < payload && |address| == STAMP
    ensures |r| == |msg|
  {
    seq(|msg|, j requires 0 <= j < |msg| => if j % payload < STAMP then address[j % payload] else msg[j])
  }

  lemma PlaceInChunk(payload: nat, k: nat, i: nat)
    requires i < payload
    ensures (k * payload + i) % payload == i
  {
    var x := k * payload + i;
    var q := x / payload;
    assert x == q * payload + x % payload;
    assert (q + 1) * payload == q * payload + payload && (k + 1) * payload == k * payload + payload;
    if q < k {
      MulLe(q + 1, k, payload);
    } else if k < q {
      MulLe(k + 1, q, payload);
    }
  }

  lemma StampedChunk(msg: seq<Byte>, payload: nat, address: seq<Byte>, k: nat)
    requires 0 < payload && |address| == STAMP && k < NumPackets(|msg|, payload)
    ensures ChunkData(StampedMessage(msg, payload, address), payload, k) == Stamped(ChunkData(msg, payload, k), address)
  {
    var a := ChunkData(StampedMessage(msg, payload, address), payload, k);
    var b := Stamped(ChunkData(msg, payload, k), address);
    forall i | 0 <= i < |a|
      ensures a[i] == b[i]
    {
      PlaceInChunk(payload, k, i);
    }
  }

  // Stamping on arrival is receiving the stamped message.
  lemma {:induction false} StampedIsReceived(st: Receipt, msg: seq<Byte>, payload: nat, address: seq<Byte>,
                                             ks: seq<nat>)
    requires 0 < payload && |st.buf| == |msg| && |address| == STAMP && Named(ks, |msg|, payload)
    ensures ReceiveStamped(st, msg, payload, address, ks)
            == ReceiveAll(st, StampedMessage(msg, payload, address), payload, ks)
  {
    if ks != [] {
      StampedIsReceived(st, msg, payload, address, Front(ks));
      StampedChunk(msg, payload, address, Back(ks));
    }
  }

  // Each chunk that arrived holds the address in front and the message behind it; each
  // that did not holds what was there before.
  lemma ChunkHolds(msg: seq<Byte>, payload: nat, before: seq<Byte>, address: seq<Byte>, ks: seq<nat>, k: nat, i: nat)
    requires 0 < payload && |before| == |msg| && |address| == STAMP && Named(ks, |msg|, payload)
    requires k < NumPackets(|msg|, payload) && i < Chunk(|msg|, payload, k * payload)
    ensures k * payload + i < |msg|
    ensures ReceiveStamped(Receipt([], 0, before), msg, payload, address, ks).buf[k * payload + i]
            == if k !in ks then before[k * payload + i]
               else if i < STAMP then address[i]
               else msg[k * payload + i]
  {
    StampedIsReceived(Receipt([], 0, before), msg, payload, address, ks);
    ChunkEnds(|msg|, payload, k);
    PlaceInChunk(payload, k, i);
    ByteHolds(StampedMessage(msg, payload, address), payload, before, ks, k, k * payload + i);
  }

  lemma ByteHolds(msg: seq<Byte>, payload: nat, before: seq<Byte>, ks: seq<nat>, k: nat, j: nat)
    requires 0 < payload && |before| == |msg| && Named(ks, |msg|, payload)
    requires k < NumPackets(|msg|, payload) && j < |msg| && InChunk(|msg|, payload, k, j)
    ensures ReceiveAll(Receipt([], 0, before), msg, payload, ks).buf[j] == if k in ks then msg[j] else before[j]
  {
    ReceiveAllAccounts(msg, payload, before, ks);
    var st := ReceiveAll(Receipt([], 0, before), msg, payload, ks);
    assert k in ks <==> k < |st.slots| && st.slots[k];
  }

  ghost predicate StartsWith(data: seq<Byte>, address: seq<Byte>)
    requires |address| == STAMP
  {
    data[..Min(STAMP, |data|)] == address[..Min(STAMP, |data|)]
  }

  lemma StampedUnchangedIff(data: seq<Byte>, address: seq<Byte>)
    requires |address| == STAMP
    ensures Stamped(data, address) == data <==> StartsWith(data, address)
  {
    var n := Min(STAMP, |data|);
    assert data == data[..n] + data[n..];
    assert Stamped(data, address)[..n] == address[..n];
  }

  lemma SameChunks(a: seq<Byte>, b: seq<Byte>, payload: nat)
    requires 0 < payload && |a| == |b|
    ensures a == b <==>
            forall k: nat :: k < NumPackets(|a|, payload) ==> ChunkData(a, payload, k) == ChunkData(b, payload, k)
  {
    if forall k: nat :: k < NumPackets(|a|, payload) ==> ChunkData(a, payload, k) == ChunkData(b, payload, k) {
      forall j: nat | j < |a|
        ensures a[j] == b[j]
      {
        var k := ChunkOf(|a|, payload, j);
        assert ChunkData(a, payload, k)[j - k * payload] == ChunkData(b, payload, k)[j - k * payload];
      }
    }
  }

  /**
   * When every byte is counted, whatever the order and however often packets came, the
   * buffer holds the stamped message, so it holds the message exactly when every chunk
   * of it happens to begin with the bytes of that address.
   */
  lemma FullCountHoldsMessageIff(msg: seq<Byte>, payload: nat, before: seq<Byte>, address: seq<Byte>, ks: seq<nat>)
    requires 0 < payload && |before| == |msg| > 0 && |address| == STAMP && Named(ks, |msg|, payload)
    requires ReceiveStamped(Receipt([], 0, before), msg, payload, address, ks).bytes == |msg|
    ensures var buf := ReceiveStamped(Receipt([], 0, before), msg, payload, address, ks).buf;
            && buf == StampedMessage(msg, payload, address)
            && (buf == msg <==>
                  forall k: nat :: k < NumPackets(|msg|, payload) ==> StartsWith(ChunkData(msg, payload, k), address))
  {
    var stamped := StampedMessage(msg, payload, address);
    StampedIsReceived(Receipt([], 0, before), msg, payload, address, ks);
    CompleteReceipt(stamped, payload, before, ks);
    SameChunks(stamped, msg, payload);
    forall k: nat | k < NumPackets(|msg|, payload)
      ensures ChunkData(stamped, payload, k) == ChunkData(msg, payload, k) <==>
              StartsWith(ChunkData(msg, payload, k), address)
    {
      StampedChunk(msg, payload, address, k);
      StampedUnchangedIff(ChunkData(msg, payload, k), address);
    }
  }

  // One byte, received whole: the buffer holds the low byte of an address.
  lemma OneByteIsOverwritten()
    ensures var address := [20, 0, 0, 0, 0, 0, 0, 0];
            var st := ReceiveStamped(Receipt([], 0, [0]), [7], 1452, address, [0]);
            st.bytes == 1 && st.buf == [20]
  {
    var msg: seq<Byte>, address: seq<Byte> := [7], [20, 0, 0, 0, 0, 0, 0, 0];
    assert ChunkData(msg, 1452, 0) == [7];
    assert Stamped([7], address) == [20];
    assert Front([0]) == [] && Back([0]) == 0;
    assert ReceiveStamped(Receipt([], 0, [0]), msg, 1452, address, []) == Receipt([], 0, [0]);
  }
}
