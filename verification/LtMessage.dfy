/**
 * A posted receive: which packets have been copied into the user's buffer and
 * how many bytes they carried.
 */
module Messages {
  import opened Common
  import opened Blocks
  import opened TreeBlocks
  import opened Packets

  type Byte = b: int | 0 <= b < 256

  // What a receive has accumulated.
  datatype Receipt = Receipt(slots: seq<bool>, bytes: nat, buf: seq<Byte>)

  function Room(slots: seq<bool>, k: nat): (r: seq<bool>)
    ensures k < |r|
    ensures forall p :: 0 <= p < |r| ==> r[p] == (p < |slots| && slots[p])
  {
    if k < |slots| then slots else GrowTo(slots, k + 1)
  }

  function Overwrite(buf: seq<Byte>, offset: nat, data: seq<Byte>): (r: seq<Byte>)
    requires offset + |data| <= |buf|
    ensures |r| == |buf|
    ensures forall j :: 0 <= j < |buf| ==>
              r[j] == if offset <= j < offset + |data| then data[j - offset] else buf[j]
  {
    buf[..offset] + data + buf[offset + |data|..]
  }

  // A packet is copied the first time its sequence number arrives.
  function Receive(st: Receipt, k: nat, offset: nat, data: seq<Byte>): Receipt
    requires offset + |data| <= |st.buf|
  {
    var slots := Room(st.slots, k);
    if slots[k] then st
    else Receipt(slots[k := true], st.bytes + |data|, Overwrite(st.buf, offset, data))
  }

  // Make room for sequence number k and take it unless it was taken before.  For the
  // largest number k + 1 wraps to zero and Resize refuses to shrink.
  method Claim(blockMgr: TreeBlockMgr, k: nat) returns (ok: bool, taken: bool)
    requires blockMgr.Valid() && k < U32
    modifies blockMgr
    ensures blockMgr.Valid() && (ok <==> k + 1 < U32)
    ensures ok ==> taken == Room(old(blockMgr.Slots()), k)[k]
    ensures blockMgr.Slots() ==
            if !ok || taken then old(blockMgr.Slots()) else Room(old(blockMgr.Slots()), k)[k := true]
  {
    ok, taken := true, false;
    if k >= blockMgr.size {
      var newSize := if k + 1 == U32 then 0 else k + 1;
      if newSize <= blockMgr.size {
        return false, false;
      }
      blockMgr.Resize(newSize);
    }
    taken := blockMgr.Check(k);
    if !taken {
      blockMgr.Take(k);
    }
  }

  // memcpy(buf + offset, data, |data|)
  method CopyInto(buf: array<Byte>, offset: nat, data: seq<Byte>)
    requires offset + |data| <= buf.Length
    modifies buf
    ensures buf[..] == Overwrite(old(buf[..]), offset, data)
  {
    forall i | 0 <= i < |data| {
      buf[offset + i] := data[i];
    }
  }

  // The record of a posted receive, apart from the buffer.
  datatype Posted = Posted(size: nat, bound: nat, bytes: nat, stopped: bool, slots: seq<bool>)

  function Finished(r: Posted): bool {
    r.bytes >= r.bound
  }

  // Up to max_seq_num every sequence number must have a slot.
  function Covering(slots: seq<bool>, maxSeq: nat): (r: seq<bool>)
    ensures maxSeq < |r| && |slots| <= |r|
    ensures forall p :: 0 <= p < |r| ==> r[p] == (p < |slots| && slots[p])
  {
    if |slots| <= maxSeq then GrowTo(slots, maxSeq + 1) else slots
  }

  class LtMessageExt {
    const msgId: nat
    const size: nat
    const buf: array<Byte>
    var bytes: nat  // bytes_received and bytes_sent share this field
    var bound: nat
    var stopped: bool
    const blockMgr: TreeBlockMgr

    ghost predicate Valid()
      reads this, blockMgr
    {
      blockMgr.Valid() && buf.Length == size
    }

    ghost function View(): Receipt
      reads this, buf, blockMgr
    {
      Receipt(blockMgr.Slots(), bytes, buf[..])
    }

    ghost function Record(): Posted
      reads this, blockMgr
    {
      Posted(size, bound, bytes, stopped, blockMgr.Slots())
    }

    constructor (msgId: nat, buf: array<Byte>)
      ensures Valid() && fresh(blockMgr)
      ensures this.msgId == msgId && this.buf == buf
      ensures View() == Receipt([], 0, buf[..])
      ensures Record() == Posted(buf.Length, buf.Length, 0, false, [])
    {
      this.msgId, this.buf, size := msgId, buf, buf.Length;
      bytes, bound, stopped := 0, buf.Length, false;
      var mgr := new TreeBlockMgr(0);
      blockMgr := mgr;
    }

    // `ok` is false when CHECK_LE(offset + grad_bytes, size) or the Resize fails.
    method CopyGradients(pkt: Packet, data: seq<Byte>) returns (ok: bool, copied: nat)
      requires Valid() && pkt.seqNum < U32 && |data| == PayloadOf(pkt)
      modifies this`bytes, buf, blockMgr
      ensures Valid()
      ensures var taken := Room(old(View()).slots, pkt.seqNum)[pkt.seqNum];
              && (ok <==> pkt.seqNum + 1 < U32 && (taken || pkt.offset + |data| <= size))
              && (ok && taken ==> View() == old(View()) && copied == 0)
              && (ok && !taken ==>
                    && View() == Receive(old(View()), pkt.seqNum, pkt.offset, data)
                    && copied == |data|)
    {
      var taken;
      ok, taken := Claim(blockMgr, pkt.seqNum);
      if !ok {
        return false, 0;
      }
      if taken {
        return true, 0;
      }
      var gradBytes := |data|;
      if pkt.offset + gradBytes > size {
        return false, 0;
      }
      CopyInto(buf, pkt.offset, data);
      bytes := bytes + gradBytes;
      return true, gradBytes;
    }

    method FinishReceiving() returns (done: bool)
      ensures done <==> Finished(Record())
    {
      done := bytes >= bound;
    }

    // FinishFlow's use of the block manager: the blocks that a RetransmitRequest
    // lists, none when nothing is missing.
    method MissingBlocks(maxSeq: nat) returns (ok: bool, blocks: seq<Block>)
      requires Valid() && maxSeq + 1 < U32
      modifies blockMgr
      ensures Valid()
      ensures ok && Record() == old(Record()).(slots := Covering(old(Record()).slots, maxSeq))
      ensures blocks == RunsOf(Record().slots, |Record().slots|)
    {
      if blockMgr.size <= maxSeq {
        blockMgr.Resize(maxSeq + 1);
      }
      var payloadSize := blockMgr.ByteSize();
      ok, blocks := blockMgr.SerializeToBuffer(payloadSize);
      RunsDetermined(blocks, RunsOf(blockMgr.Slots(), blockMgr.size), blockMgr.Slots());
    }
  }

  // ---- Accounting ----

  // Payload bytes of the packets that are marked in the table.
  ghost function BytesTaken(slots: seq<bool>, size: nat, payload: nat): nat {
    if slots == [] then 0
    else BytesTaken(Front(slots), size, payload)
         + if Back(slots) then Chunk(size, payload, (|slots| - 1) * payload) else 0
  }

  lemma {:induction false} BytesTakenUpdate(slots: seq<bool>, size: nat, payload: nat, k: nat)
    requires k < |slots| && !slots[k]
    ensures BytesTaken(slots[k := true], size, payload) ==
            BytesTaken(slots, size, payload) + Chunk(size, payload, k * payload)
  {
    if k == |slots| - 1 {
      assert Front(slots[k := true]) == Front(slots);
    } else {
      assert Front(slots[k := true]) == Front(slots)[k := true];
      BytesTakenUpdate(Front(slots), size, payload, k);
    }
  }

  lemma {:induction false} BytesTakenGrow(slots: seq<bool>, size: nat, payload: nat, n: nat)
    requires |slots| <= n
    ensures BytesTaken(GrowTo(slots, n), size, payload) == BytesTaken(slots, size, payload)
    decreases n
  {
    if n == |slots| {
      assert GrowTo(slots, n) == slots;
    } else {
      assert Front(GrowTo(slots, n)) == GrowTo(slots, n - 1);
      BytesTakenGrow(slots, size, payload, n - 1);
    }
  }

  // A table of k packets accounts for at most the bytes before packet k, and
  // for all of them only if every one is marked.
  lemma {:induction false} BytesTakenBound(slots: seq<bool>, size: nat, payload: nat)
    requires 0 < payload && |slots| <= NumPackets(size, payload)
    ensures BytesTaken(slots, size, payload) <= Start(size, payload, |slots|) <= size
    ensures BytesTaken(slots, size, payload) == Start(size, payload, |slots|) <==>
            forall p :: 0 <= p < |slots| ==> slots[p]
  {
    NumPacketsBounds(size, payload);
    if slots != [] {
      var k := |slots| - 1;
      BytesTakenBound(Front(slots), size, payload);
      ChunkEnds(size, payload, k);
      NumPacketsBounds(Chunk(size, payload, k * payload), payload);
      assert forall p :: 0 <= p < k ==> Front(slots)[p] == slots[p];
      StartStep(size, payload, k);
    }
  }

  lemma StartStep(size: nat, payload: nat, k: nat)
    requires 0 < payload && k < NumPackets(size, payload)
    ensures Start(size, payload, k + 1) ==
            Start(size, payload, k) + Chunk(size, payload, k * payload)
    ensures 0 < Chunk(size, payload, k * payload) && Start(size, payload, k + 1) <= size
  {
    ChunkEnds(size, payload, k);
  }

  // The byte count reaches the message size exactly when no packet is missing.
  lemma AllBytesIffAllPackets(slots: seq<bool>, size: nat, payload: nat)
    requires 0 < payload && 0 < size && |slots| <= NumPackets(size, payload)
    ensures BytesTaken(slots, size, payload) <= size
    ensures BytesTaken(slots, size, payload) == size <==>
            |slots| == NumPackets(size, payload) && forall p :: 0 <= p < |slots| ==> slots[p]
  {
    BytesTakenBound(slots, size, payload);
    StartInside(size, payload, |slots|);
  }

  // The bytes of packet k.
  ghost function ChunkData(msg: seq<Byte>, payload: nat, k: nat): (d: seq<Byte>)
    requires 0 < payload && k < NumPackets(|msg|, payload)
    ensures k * payload + |d| <= |msg| && |d| == Chunk(|msg|, payload, k * payload)
  {
    ChunkEnds(|msg|, payload, k);
    msg[k * payload..k * payload + Chunk(|msg|, payload, k * payload)]
  }

  // The packet a byte belongs to.
  ghost predicate InChunk(size: nat, payload: nat, k: nat, j: nat) {
    k * payload <= j < k * payload + Chunk(size, payload, k * payload)
  }

  // What holds of a receipt whatever order its packets came in: the count is
  // that of the marked packets, and the buffer has their bytes and no others.
  ghost predicate Accounted(st: Receipt, msg: seq<Byte>, payload: nat, before: seq<Byte>)
    requires 0 < payload
  {
    && |st.slots| <= NumPackets(|msg|, payload)
    && st.bytes == BytesTaken(st.slots, |msg|, payload)
    && |st.buf| == |before| == |msg|
    && (forall k: nat, j: nat :: k < NumPackets(|msg|, payload) && j < |msg| && InChunk(|msg|, payload, k, j) ==>
          st.buf[j] == if k < |st.slots| && st.slots[k] then msg[j] else before[j])
  }

  lemma ChunksDisjoint(size: nat, payload: nat, k: nat, k': nat, j: nat)
    requires InChunk(size, payload, k, j) && InChunk(size, payload, k', j)
    ensures k == k'
  {
    assert (k + 1) * payload == k * payload + payload;
    assert (k' + 1) * payload == k' * payload + payload;
    if k < k' {
      MulLe(k + 1, k', payload);
    } else if k' < k {
      MulLe(k' + 1, k, payload);
    }
  }

  lemma ReceiveKeepsAccounts(st: Receipt, msg: seq<Byte>, payload: nat, before: seq<Byte>, k: nat)
    requires 0 < payload && k < NumPackets(|msg|, payload)
    requires Accounted(st, msg, payload, before)
    ensures Accounted(Receive(st, k, k * payload, ChunkData(msg, payload, k)), msg, payload, before)
  {
    var room := Room(st.slots, k);
    if !room[k] {
      var st' := Receive(st, k, k * payload, ChunkData(msg, payload, k));
      if k >= |st.slots| {
        BytesTakenGrow(st.slots, |msg|, payload, k + 1);
      }
      BytesTakenUpdate(room, |msg|, payload, k);
      forall k': nat, j: nat | k' < NumPackets(|msg|, payload) && j < |msg| && InChunk(|msg|, payload, k', j)
        ensures st'.buf[j] == if k' < |st'.slots| && st'.slots[k'] then msg[j] else before[j]
      {
        if InChunk(|msg|, payload, k, j) {
          ChunksDisjoint(|msg|, payload, k, k', j);
        }
      }
    }
  }

  // Any packets of the message, in any order, with any repetition.
  ghost function ReceiveAll(st: Receipt, msg: seq<Byte>, payload: nat, ks: seq<nat>): (r: Receipt)
    requires 0 < payload && |st.buf| == |msg|
    requires forall i :: 0 <= i < |ks| ==> ks[i] < NumPackets(|msg|, payload)
    ensures |r.buf| == |msg|
  {
    if ks == [] then st
    else
      var prev := ReceiveAll(st, msg, payload, Front(ks));
      Receive(prev, Back(ks), Back(ks) * payload, ChunkData(msg, payload, Back(ks)))
  }

  // The table marks exactly the packets received and is no longer than needed.
  ghost predicate Marks(slots: seq<bool>, ks: seq<nat>) {
    && (forall k: nat :: k in ks <==> k < |slots| && slots[k])
    && (slots != [] ==> Back(slots))
  }

  lemma MarksMore(slots: seq<bool>, ks: seq<nat>, k: nat)
    requires Marks(slots, ks)
    ensures var room := Room(slots, k);
            Marks(if room[k] then slots else room[k := true], ks + [k])
  {
    var room := Room(slots, k);
    var slots' := if room[k] then slots else room[k := true];
    forall p: nat
      ensures p in ks + [k] <==> p < |slots'| && slots'[p]
    {
      assert p in ks + [k] <==> p in ks || p == k;
    }
  }

  lemma ReceiveOneMore(st: Receipt, msg: seq<Byte>, payload: nat, before: seq<Byte>, ks: seq<nat>, k: nat)
    requires 0 < payload && k < NumPackets(|msg|, payload)
    requires Accounted(st, msg, payload, before) && Marks(st.slots, ks)
    ensures var st' := Receive(st, k, k * payload, ChunkData(msg, payload, k));
            Accounted(st', msg, payload, before) && Marks(st'.slots, ks + [k])
  {
    ReceiveKeepsAccounts(st, msg, payload, before, k);
    MarksMore(st.slots, ks, k);
  }

  lemma {:induction false} ReceiveAllAccounts(msg: seq<Byte>, payload: nat, before: seq<Byte>, ks: seq<nat>)
    requires 0 < payload && |before| == |msg|
    requires forall i :: 0 <= i < |ks| ==> ks[i] < NumPackets(|msg|, payload)
    ensures var st := ReceiveAll(Receipt([], 0, before), msg, payload, ks);
            Accounted(st, msg, payload, before) && Marks(st.slots, ks)
  {
    if ks != [] {
      ReceiveAllAccounts(msg, payload, before, Front(ks));
      var prev := ReceiveAll(Receipt([], 0, before), msg, payload, Front(ks));
      ReceiveOneMore(prev, msg, payload, before, Front(ks), Back(ks));
      assert ks == Front(ks) + [Back(ks)];
    }
  }

  // Which packets were received decides everything; order and duplicates do not.
  lemma OrderIndependent(msg: seq<Byte>, payload: nat, before: seq<Byte>, ks: seq<nat>, ks': seq<nat>)
    requires 0 < payload && |before| == |msg|
    requires forall i :: 0 <= i < |ks| ==> ks[i] < NumPackets(|msg|, payload)
    requires forall i :: 0 <= i < |ks'| ==> ks'[i] < NumPackets(|msg|, payload)
    requires forall k :: k in ks <==> k in ks'
    ensures ReceiveAll(Receipt([], 0, before), msg, payload, ks)
            == ReceiveAll(Receipt([], 0, before), msg, payload, ks')
    ensures ReceiveAll(Receipt([], 0, before), msg, payload, ks).bytes <= |msg|
  {
    ReceiveAllAccounts(msg, payload, before, ks);
    ReceiveAllAccounts(msg, payload, before, ks');
    var a := ReceiveAll(Receipt([], 0, before), msg, payload, ks);
    var b := ReceiveAll(Receipt([], 0, before), msg, payload, ks');
    MarksUnique(a.slots, b.slots, ks, ks');
    BytesTakenBound(a.slots, |msg|, payload);
    forall j: nat | j < |msg|
      ensures a.buf[j] == b.buf[j]
    {
      var k := ChunkOf(|msg|, payload, j);
    }
    assert a.buf == b.buf;
  }

  lemma MarksUnique(a: seq<bool>, b: seq<bool>, ks: seq<nat>, ks': seq<nat>)
    requires Marks(a, ks) && Marks(b, ks') && forall k :: k in ks <==> k in ks'
    ensures a == b
  {
    if a != [] {
      assert |a| - 1 in ks;
    }
    if b != [] {
      assert |b| - 1 in ks';
    }
    forall p: nat | p < |a| && p < |b|
      ensures a[p] == b[p]
    {
      assert p in ks <==> p in ks';
    }
  }

  lemma ChunkOf(size: nat, payload: nat, j: nat) returns (k: nat)
    requires 0 < payload && j < size
    ensures k < NumPackets(size, payload) && InChunk(size, payload, k, j)
  {
    k := j / payload;
    assert j == k * payload + j % payload;
    PacketStarts(size, payload, k);
    ChunkEnds(size, payload, k);
    assert (k + 1) * payload == k * payload + payload;
  }

  // A complete receipt holds the message itself.
  lemma CompleteReceipt(msg: seq<Byte>, payload: nat, before: seq<Byte>, ks: seq<nat>)
    requires 0 < payload && |before| == |msg| > 0
    requires forall i :: 0 <= i < |ks| ==> ks[i] < NumPackets(|msg|, payload)
    ensures var st := ReceiveAll(Receipt([], 0, before), msg, payload, ks);
            st.bytes == |msg| ==> st.buf == msg
  {
    ReceiveAllAccounts(msg, payload, before, ks);
    var st := ReceiveAll(Receipt([], 0, before), msg, payload, ks);
    AllBytesIffAllPackets(st.slots, |msg|, payload);
    if st.bytes == |msg| {
      forall j: nat | j < |msg|
        ensures st.buf[j] == msg[j]
      {
        var k := ChunkOf(|msg|, payload, j);
      }
    }
  }
}
