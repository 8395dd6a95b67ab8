/**
 * Framing on the reliable channel: each message is queued with its length in front,
 * the socket takes and gives bytes in whatever portions it likes, and the receiver
 * cuts the stream back into messages.
 */
module Framing {
  import opened Common
  import Messages

  type Byte = Messages.Byte

  // ---- The length in front: a little-endian uint32_t ----

  function LE32(n: nat): (b: seq<Byte>)
    requires n < 0x1_0000_0000
    ensures |b| == 4
  {
    [(n % 256), (n / 256 % 256), (n / 65536 % 256), (n / 16777216)]
  }

  function FromLE32(b: seq<Byte>): (n: nat)
    requires |b| == 4
    ensures n < 0x1_0000_0000
  {
    b[0] as int + 256 * b[1] as int + 65536 * b[2] as int + 16777216 * b[3] as int
  }

  // The low byte goes first.
  lemma LowByteFirst()
    ensures LE32(0x0102_0304) == [4, 3, 2, 1]
  {
  }

  lemma LengthRoundTrip(n: nat)
    requires n < 0x1_0000_0000
    ensures FromLE32(LE32(n)) == n
  {
    assert n == 256 * (n / 256) + n % 256;
    assert n / 256 == 256 * (n / 65536) + n / 256 % 256;
    assert n / 65536 == 256 * (n / 16777216) + n / 65536 % 256;
  }

  // A message as it is queued; all of it, length included, fits in a uint32_t.
  ghost predicate Framable(body: seq<Byte>) {
    0 < |body| < 0xFFFF_FFFC
  }

  function Frame(body: seq<Byte>): seq<Byte>
    requires |body| < 0xFFFF_FFFC
  {
    LE32(|body|) + body
  }

  ghost predicate AllFramable(bodies: seq<seq<Byte>>) {
    forall i :: 0 <= i < |bodies| ==> Framable(bodies[i])
  }

  // The byte stream of a list of messages.
  ghost function Frames(bodies: seq<seq<Byte>>): seq<Byte>
    requires AllFramable(bodies)
  {
    if bodies == [] then [] else Frame(bodies[0]) + Frames(bodies[1..])
  }

  // ---- Buffers ----

  // A buffer being sent, and one being filled; `data` of the latter is what has come.
  datatype TxBuffer = TxBuffer(data: seq<Byte>, handled: nat)
  datatype RxBuffer = RxBuffer(length: nat, data: seq<Byte>)

  ghost predicate TxOk(tx: seq<TxBuffer>) {
    forall i :: 0 <= i < |tx| ==> tx[i].handled <= |tx[i].data|
  }

  function Remaining(b: TxBuffer): seq<Byte>
    requires b.handled <= |b.data|
  {
    b.data[b.handled..]
  }

  function MarkHandled(b: TxBuffer, n: nat): TxBuffer {
    b.(handled := b.handled + n)
  }

  // The bytes still to be sent.
  ghost function Pending(tx: seq<TxBuffer>): seq<Byte>
    requires TxOk(tx)
  {
    if tx == [] then [] else Remaining(tx[0]) + Pending(tx[1..])
  }

  // At most one partial message is held, and it is not complete.
  ghost predicate RxOk(rx: seq<RxBuffer>) {
    |rx| <= 1 && (rx != [] ==> |rx[0].data| < rx[0].length < 0x1_0000_0000)
  }

  // Without the complete buffers at the end, which the receiver throws away.
  function Open(rx: seq<RxBuffer>): seq<RxBuffer> {
    if rx != [] && |rx[|rx| - 1].data| == rx[|rx| - 1].length then Open(rx[..|rx| - 1]) else rx
  }

  datatype Received =
    | Nothing
    | Message(body: seq<Byte>)
    | Disconnected
    | CheckFailed

  // What a call to OnRecvReady does with the bytes that have arrived: the buffer it
  // keeps, how many bytes it takes, and what comes of them.
  datatype RecvResult = RecvResult(rx: seq<RxBuffer>, taken: nat, received: Received)

  // With nothing there a Recv would block, even one that asks for nothing; with bytes
  // waiting, a Recv that asks for nothing returns zero, which reads as a shutdown.
  function Fill(buffer: RxBuffer, arrived: seq<Byte>): (r: RecvResult)
    requires |buffer.data| <= buffer.length
  {
    var n := Min(buffer.length - |buffer.data|, |arrived|);
    var data := buffer.data + arrived[..n];
    if arrived == [] then RecvResult([buffer], 0, Nothing)
    else if n == 0 then RecvResult([], 0, Disconnected)
    else if |data| == buffer.length then RecvResult([], n, Message(data))
    else RecvResult([RxBuffer(buffer.length, data)], n, Nothing)
  }

  function OnRecv(rx: seq<RxBuffer>, arrived: seq<Byte>): (r: RecvResult)
    requires rx != [] ==> |rx[0].data| <= rx[0].length
  {
    if rx != [] then Fill(rx[0], arrived)
    else if arrived == [] then RecvResult([], 0, Nothing)
    else if |arrived| < 4 then RecvResult([], |arrived|, CheckFailed)
    else
      var r := Fill(RxBuffer(FromLE32(arrived[..4]), []), arrived[4..]);
      r.(taken := 4 + r.taken)
  }

  class RdEndpoint {
    var txQueue: seq<TxBuffer>
    var rxBuffers: seq<RxBuffer>

    constructor ()
      ensures txQueue == [] && rxBuffers == []
    {
      txQueue, rxBuffers := [], [];
    }

    // The buffer is as long as the length and the body; the length leaves itself out.
    method Enqueue(body: seq<Byte>)
      requires |body| < 0xFFFF_FFFC && TxOk(txQueue)
      modifies this
      ensures TxOk(txQueue) && Pending(txQueue) == old(Pending(txQueue)) + Frame(body)
      ensures rxBuffers == old(rxBuffers)
    {
      var size := 4 + |body|;
      var value := size - 4;
      PendingAppend(txQueue, TxBuffer(LE32(value) + body, 0));
      txQueue := txQueue + [TxBuffer(LE32(value) + body, 0)];
    }

    // The socket has room for so many bytes and then would block: what it takes is
    // exactly the front of what was pending.
    method OnSendReady(room: nat) returns (sent: seq<Byte>)
      requires TxOk(txQueue)
      modifies this
      ensures TxOk(txQueue) && sent + Pending(txQueue) == old(Pending(txQueue))
      ensures |sent| == Min(room, old(|Pending(txQueue)|))
      ensures rxBuffers == old(rxBuffers)
    {
      sent := [];
      var left := room;
      ghost var all := Pending(txQueue);
      while txQueue != []
        invariant TxOk(txQueue) && sent + Pending(txQueue) == all && rxBuffers == old(rxBuffers)
        invariant |sent| + left == room
        decreases |txQueue|, left
      {
        var buffer := txQueue[0];
        if buffer.handled == |buffer.data| {
          txQueue := txQueue[1..];
          continue;
        }
        if left == 0 {
          break;
        }
        var n := Min(left, |Remaining(buffer)|);
        var portion := Remaining(buffer)[..n];
        PendingSend(txQueue, n);
        Regroup(sent, portion, Pending([MarkHandled(buffer, n)] + txQueue[1..]));
        sent := sent + portion;
        left := left - n;
        buffer := MarkHandled(buffer, n);
        txQueue := [buffer] + txQueue[1..];
        if buffer.handled == |buffer.data| {
          txQueue := txQueue[1..];
        }
      }
    }

    // `arrived` is what the socket can give; a Recv returns as much of it as it asked for.
    method OnRecvReady(arrived: seq<Byte>) returns (taken: nat, received: Received)
      requires RxOk(Open(rxBuffers))
      modifies this
      ensures RecvResult(rxBuffers, taken, received) == OnRecv(Open(old(rxBuffers)), arrived)
      ensures RxOk(Open(rxBuffers)) && |rxBuffers| <= 1 && txQueue == old(txQueue)
    {
      taken, received := 0, Nothing;
      var buffer := RxBuffer(0, []);
      var found := false;
      while rxBuffers != []
        invariant Open(rxBuffers) == Open(old(rxBuffers)) && txQueue == old(txQueue) && !found
      {
        buffer := rxBuffers[|rxBuffers| - 1];
        rxBuffers := rxBuffers[..|rxBuffers| - 1];
        if |buffer.data| != buffer.length {
          found := true;
          break;
        }
      }
      if !found {
        if arrived == [] {
          return;
        }
        taken := Min(4, |arrived|);
        if taken != 4 {
          received := CheckFailed;
          return;
        }
        buffer := RxBuffer(FromLE32(arrived[..4]), []);
      }
      var left := arrived[taken..];
      var asked := buffer.length - |buffer.data|;
      if left == [] {
        rxBuffers := rxBuffers + [buffer];
        return;
      }
      if asked == 0 {
        received := Disconnected;
        return;
      }
      var n := Min(asked, |left|);
      taken := taken + n;
      buffer := RxBuffer(buffer.length, buffer.data + left[..n]);
      if |buffer.data| != buffer.length {
        rxBuffers := rxBuffers + [buffer];
      } else {
        received := Message(buffer.data);
      }
    }
  }

  lemma {:induction false} PendingAppend(tx: seq<TxBuffer>, b: TxBuffer)
    requires TxOk(tx) && b.handled <= |b.data|
    ensures TxOk(tx + [b]) && Pending(tx + [b]) == Pending(tx) + Remaining(b)
  {
    if tx != [] {
      assert (tx + [b])[1..] == tx[1..] + [b];
      PendingAppend(tx[1..], b);
    } else {
      assert tx + [b] == [b] && Pending([b][1..]) == [];
    }
  }

  lemma RemainingSplit(b: TxBuffer, n: nat)
    requires b.handled <= |b.data| && n <= |Remaining(b)|
    ensures Remaining(b) == Remaining(b)[..n] + Remaining(MarkHandled(b, n))
  {
  }

  lemma PendingSend(tx: seq<TxBuffer>, n: nat)
    requires TxOk(tx) && tx != [] && n <= |Remaining(tx[0])|
    ensures TxOk([MarkHandled(tx[0], n)] + tx[1..])
    ensures Pending(tx) == Remaining(tx[0])[..n] + Pending([MarkHandled(tx[0], n)] + tx[1..])
  {
    var b := MarkHandled(tx[0], n);
    var tx' := [b] + tx[1..];
    RemainingSplit(tx[0], n);
    assert tx'[0] == b && tx'[1..] == tx[1..];
    Regroup(Remaining(tx[0])[..n], Remaining(b), Pending(tx[1..]));
  }

  // ---- Both ends of a connection ----

  datatype Connection = Connection(
    queued: seq<seq<Byte>>,     // every message ever queued
    tx: seq<TxBuffer>,
    wire: seq<Byte>,            // sent and not yet received
    rx: seq<RxBuffer>,
    delivered: seq<seq<Byte>>,  // handed to HandleReceivedData
    up: bool)                   // no CHECK failed, not disconnected

  datatype Step =
    | Queue(body: seq<Byte>)
    | SendReady(tx: seq<TxBuffer>, sent: seq<Byte>)
    | RecvReady(arrived: nat)

  // Sending leaves any queue and any portion that together are what was pending; any
  // front part of what is under way may have arrived.
  ghost predicate CanStep(c: Connection, step: Step) {
    && c.up
    && match step
       case Queue(body) => Framable(body)
       case SendReady(tx, sent) => TxOk(c.tx) && TxOk(tx) && sent + Pending(tx) == Pending(c.tx)
       case RecvReady(n) => n <= |c.wire|
  }

  // The receiver looks for a length when only part of it has come.
  predicate Splits(c: Connection, step: Step) {
    step.RecvReady? && c.rx == [] && 0 < step.arrived < 4
  }

  ghost function Deliver(delivered: seq<seq<Byte>>, received: Received): seq<seq<Byte>> {
    if received.Message? then delivered + [received.body] else delivered
  }

  ghost function Go(c: Connection, step: Step): Connection
    requires CanStep(c, step) && RxOk(c.rx)
  {
    match step
    case Queue(body) => c.(queued := c.queued + [body], tx := c.tx + [TxBuffer(Frame(body), 0)])
    case SendReady(tx, sent) => c.(tx := tx, wire := c.wire + sent)
    case RecvReady(n) =>
      var r := OnRecv(c.rx, c.wire[..n]);
      TakenFits(c.rx, c.wire[..n]);
      c.(rx := r.rx, wire := c.wire[r.taken..], delivered := Deliver(c.delivered, r.received),
         up := c.up && (r.received.Nothing? || r.received.Message?))
  }

  lemma TakenFits(rx: seq<RxBuffer>, arrived: seq<Byte>)
    requires RxOk(rx)
    ensures OnRecv(rx, arrived).taken <= |arrived|
  {
  }

  // The bytes of the message being received.
  ghost function Held(rx: seq<RxBuffer>): seq<Byte>
    requires RxOk(rx)
  {
    if rx == [] then [] else LE32(rx[0].length) + rx[0].data
  }

  // What has been delivered is the front of what was queued, and the bytes between
  // the two ends are the rest of it.
  ghost predicate Inv(c: Connection) {
    && c.up && TxOk(c.tx) && RxOk(c.rx) && AllFramable(c.queued)
    && |c.delivered| <= |c.queued| && c.delivered == c.queued[..|c.delivered|]
    && AllFramable(c.queued[|c.delivered|..])
    && Held(c.rx) + c.wire + Pending(c.tx) == Frames(c.queued[|c.delivered|..])
  }

  lemma FramesCons(body: seq<Byte>, bodies: seq<seq<Byte>>)
    requires Framable(body) && AllFramable(bodies)
    ensures AllFramable([body] + bodies) && Frames([body] + bodies) == Frame(body) + Frames(bodies)
  {
    assert ([body] + bodies)[1..] == bodies;
  }

  lemma {:induction false} FramesAppend(bodies: seq<seq<Byte>>, body: seq<Byte>)
    requires AllFramable(bodies) && Framable(body)
    ensures AllFramable(bodies + [body]) && Frames(bodies + [body]) == Frames(bodies) + Frame(body)
  {
    if bodies == [] {
      assert bodies + [body] == [body] && Frames([body][1..]) == [];
    } else {
      HeadFirst(bodies, [body]);
      FramesAppend(bodies[1..], body);
      FramesCons(bodies[0], bodies[1..] + [body]);
      Regroup(Frame(bodies[0]), Frames(bodies[1..]), Frame(body));
    }
  }

  // The first four bytes of a stream of messages are the length of the first.
  lemma LengthFirst(bodies: seq<seq<Byte>>, length: seq<Byte>, tail: seq<Byte>)
    requires AllFramable(bodies) && |length| == 4 && length + tail == Frames(bodies)
    ensures bodies != [] && FromLE32(length) == |bodies[0]| && length == LE32(|bodies[0]|)
    ensures tail == bodies[0] + Frames(bodies[1..])
  {
    assert bodies != [];
    var all := Frames(bodies);
    assert all == LE32(|bodies[0]|) + bodies[0] + Frames(bodies[1..]);
    assert all[..4] == length && all[..4] == LE32(|bodies[0]|);
    assert all[4..] == tail && all[4..] == bodies[0] + Frames(bodies[1..]);
    LengthRoundTrip(|bodies[0]|);
  }

  // A complete message held at the front of the stream is the first message.
  lemma BodyFirst(bodies: seq<seq<Byte>>, data: seq<Byte>, tail: seq<Byte>)
    requires AllFramable(bodies) && |data| < 0x1_0000_0000
    requires LE32(|data|) + data + tail == Frames(bodies)
    ensures bodies != [] && data == bodies[0] && tail == Frames(bodies[1..])
  {
    assert LE32(|data|) + data + tail == LE32(|data|) + (data + tail);
    LengthFirst(bodies, LE32(|data|), data + tail);
    LengthRoundTrip(|data|);
    var rest := data + tail;
    assert rest[..|data|] == data && rest[|data|..] == tail;
    assert rest == bodies[0] + Frames(bodies[1..]);
    assert rest[..|data|] == bodies[0];
  }

  // ---- Every step keeps the invariant ----

  lemma QueueKeeps(c: Connection, body: seq<Byte>)
    requires Inv(c) && Framable(body)
    ensures Inv(Go(c, Queue(body)))
  {
    var k := |c.delivered|;
    assert (c.queued + [body])[k..] == c.queued[k..] + [body];
    assert (c.queued + [body])[..k] == c.queued[..k];
    FramesAppend(c.queued[k..], body);
    PendingAppend(c.tx, TxBuffer(Frame(body), 0));
    assert Frame(body)[0..] == Frame(body);
    Regroup(Held(c.rx) + c.wire, Pending(c.tx), Frame(body));
  }

  lemma SendKeeps(c: Connection, tx: seq<TxBuffer>, sent: seq<Byte>)
    requires Inv(c) && CanStep(c, SendReady(tx, sent))
    ensures Inv(Go(c, SendReady(tx, sent)))
  {
    assert Held(c.rx) + (c.wire + sent) + Pending(tx) == Held(c.rx) + c.wire + (sent + Pending(tx));
  }

  // Bytes read into a held buffer move from the wire to the buffer.
  lemma FillMoves(buffer: RxBuffer, wire: seq<Byte>, n: nat, m: nat)
    requires |buffer.data| < buffer.length < 0x1_0000_0000 && m <= n <= |wire|
    ensures Held([buffer]) + wire == LE32(buffer.length) + (buffer.data + wire[..n][..m]) + wire[m..]
  {
    assert wire[..n][..m] == wire[..m] && wire == wire[..m] + wire[m..];
  }

  // Part of the body: it is held, and the wire is shorter.
  lemma PartKeeps(c: Connection, buffer: RxBuffer, wire: seq<Byte>)
    requires Inv(c) && |buffer.data| < buffer.length < 0x1_0000_0000
    requires LE32(buffer.length) + buffer.data + wire == Held(c.rx) + c.wire
    ensures Inv(c.(rx := [buffer], wire := wire))
  {
    assert Held([buffer]) + wire + Pending(c.tx) == Held(c.rx) + c.wire + Pending(c.tx);
  }

  // The end of the body: the message is the next one queued.
  lemma WholeKeeps(c: Connection, data: seq<Byte>, wire: seq<Byte>)
    requires Inv(c) && |data| < 0x1_0000_0000 && LE32(|data|) + data + wire == Held(c.rx) + c.wire
    ensures Inv(c.(rx := [], wire := wire, delivered := c.delivered + [data]))
  {
    var k := |c.delivered|;
    var tail := wire + Pending(c.tx);
    assert LE32(|data|) + data + tail == (LE32(|data|) + data + wire) + Pending(c.tx);
    BodyFirst(c.queued[k..], data, tail);
    assert c.queued[k..][0] == c.queued[k] && c.queued[k..][1..] == c.queued[k + 1..];
    assert c.queued[..k + 1] == c.delivered + [data];
    assert Held([]) + wire + Pending(c.tx) == tail;
  }

  lemma FillKeeps(c: Connection, n: nat)
    requires Inv(c) && c.rx != [] && n <= |c.wire|
    ensures var r := Fill(c.rx[0], c.wire[..n]);
            && r.taken <= n && (r.received.Nothing? || r.received.Message?)
            && Inv(c.(rx := r.rx, wire := c.wire[r.taken..], delivered := Deliver(c.delivered, r.received)))
  {
    var buffer := c.rx[0];
    var m := Min(buffer.length - |buffer.data|, n);
    var data := buffer.data + c.wire[..n][..m];
    FillMoves(buffer, c.wire, n, m);
    if m == 0 {
      assert c.wire[0..] == c.wire && [buffer] == c.rx;
    } else if |data| == buffer.length {
      WholeKeeps(c, data, c.wire[m..]);
    } else {
      PartKeeps(c, RxBuffer(buffer.length, data), c.wire[m..]);
    }
  }

  // Reading the length: the four bytes are held, and they announce the next message.
  lemma LengthKeeps(c: Connection)
    requires Inv(c) && c.rx == [] && 4 <= |c.wire|
    ensures Inv(c.(rx := [RxBuffer(FromLE32(c.wire[..4]), [])], wire := c.wire[4..]))
  {
    var length, bodies := c.wire[..4], c.queued[|c.delivered|..];
    var tail := c.wire[4..] + Pending(c.tx);
    assert length + tail == Held(c.rx) + c.wire + Pending(c.tx);
    LengthFirst(bodies, length, tail);
    assert Framable(bodies[0]);
    PartKeeps(c, RxBuffer(FromLE32(length), []), c.wire[4..]);
  }

  // A length and whatever has come of its body.
  lemma FreshKeeps(c: Connection, n: nat)
    requires Inv(c) && c.rx == [] && 4 <= n <= |c.wire|
    ensures Inv(Go(c, RecvReady(n)))
  {
    LengthKeeps(c);
    var buffer, wire := RxBuffer(FromLE32(c.wire[..4]), []), c.wire[4..];
    FillKeeps(c.(rx := [buffer], wire := wire), n - 4);
    assert c.wire[..n][..4] == c.wire[..4] && c.wire[..n][4..] == wire[..n - 4];
    var r := Fill(buffer, wire[..n - 4]);
    assert wire[r.taken..] == c.wire[4 + r.taken..];
  }

  // The CHECK on the length fails, and nothing more is handed up.
  lemma SplitFails(c: Connection, n: nat)
    requires Inv(c) && CanStep(c, RecvReady(n)) && Splits(c, RecvReady(n))
    ensures var c' := Go(c, RecvReady(n)); !c'.up && c'.delivered == c.delivered && c'.queued == c.queued && c'.rx == []
  {
  }

  lemma RecvKeeps(c: Connection, n: nat)
    requires Inv(c) && CanStep(c, RecvReady(n)) && !Splits(c, RecvReady(n))
    ensures Inv(Go(c, RecvReady(n)))
  {
    if c.rx != [] {
      FillKeeps(c, n);
    } else if n > 0 {
      FreshKeeps(c, n);
    } else {
      assert c.wire[0..] == c.wire;
    }
  }

  lemma StepKeeps(c: Connection, step: Step)
    requires Inv(c) && CanStep(c, step) && !Splits(c, step)
    ensures Inv(Go(c, step))
  {
    match step
    case Queue(body) => QueueKeeps(c, body);
    case SendReady(tx, sent) => SendKeeps(c, tx, sent);
    case RecvReady(n) => RecvKeeps(c, n);
  }

  // ---- Every run ----

  const IDLE := Connection([], [], [], [], [], true)

  // A run from an idle connection, state by state.
  ghost predicate IsRun(states: seq<Connection>, steps: seq<Step>) {
    && |states| == |steps| + 1 && states[0] == IDLE
    && forall i :: 0 <= i < |steps| ==>
         CanStep(states[i], steps[i]) && RxOk(states[i].rx) && states[i + 1] == Go(states[i], steps[i])
  }

  lemma {:induction false} RunInv(states: seq<Connection>, steps: seq<Step>, i: nat)
    requires IsRun(states, steps) && i < |states| && states[i].up
    ensures Inv(states[i])
  {
    if i > 0 {
      RunInv(states, steps, i - 1);
      FailsIffSplit(states[i - 1], steps[i - 1]);
    }
  }

  // A step fails exactly when it splits a length.
  lemma FailsIffSplit(c: Connection, step: Step)
    requires Inv(c) && CanStep(c, step)
    ensures Go(c, step).up <==> !Splits(c, step)
    ensures !Splits(c, step) ==> Inv(Go(c, step))
  {
    if Splits(c, step) {
      SplitFails(c, step.arrived);
    } else {
      StepKeeps(c, step);
    }
  }

  /**
   * Whatever portions the socket takes and gives, the messages handed up are the first
   * ones queued, in order, and at most one partial message is held.  Until a length
   * arrives in parts nothing disconnects or fails, and every message has been handed up
   * exactly when every byte is through; when one does, the next step is the last.
   */
  lemma DeliversInOrder(states: seq<Connection>, steps: seq<Step>, i: nat)
    requires IsRun(states, steps) && i < |states|
    ensures states[i].delivered <= states[i].queued && |states[i].rx| <= 1
    ensures states[i].up ==> Through(states[i])
    ensures i < |steps| ==> (states[i + 1].up <==> !Splits(states[i], steps[i]))
  {
    if i < |steps| {
      RunInv(states, steps, i);
      FailsIffSplit(states[i], steps[i]);
    }
    if states[i].up {
      RunInv(states, steps, i);
      AllThroughIff(states[i]);
    } else {
      RunInv(states, steps, i - 1);
      FailsIffSplit(states[i - 1], steps[i - 1]);
      SplitFails(states[i - 1], steps[i - 1].arrived);
    }
  }

  // All messages are handed up exactly when no byte is left.
  ghost predicate Through(c: Connection) {
    && TxOk(c.tx)
    && (c.rx == [] && c.wire == [] && Pending(c.tx) == [] <==> c.delivered == c.queued)
  }

  lemma AllThroughIff(c: Connection)
    requires Inv(c)
    ensures c.delivered <= c.queued && |c.rx| <= 1 && Through(c)
  {
    var rest := c.queued[|c.delivered|..];
    assert rest == [] <==> Frames(rest) == [];
    assert c.delivered == c.queued <==> rest == [];
    assert Held(c.rx) + c.wire + Pending(c.tx) == [] <==> c.rx == [] && c.wire == [] && Pending(c.tx) == [];
  }

  // An empty message is never handed up.  If more bytes wait behind its length it is
  // taken for a shutdown; if none do, its buffer is kept and thrown away by the next call.
  lemma EmptyBodyIsLost(arrived: seq<Byte>)
    requires 4 <= |arrived|
    ensures OnRecv([], arrived).received == Disconnected <==> arrived[..4] == LE32(0) && |arrived| > 4
    ensures arrived == LE32(0) ==>
              var r := OnRecv([], arrived);
              r == RecvResult([RxBuffer(0, [])], 4, Nothing) && Open(r.rx) == []
  {
    assert Open([RxBuffer(0, [])]) == Open([]);
    LengthRoundTrip(0);
    assert LE32(0) == [0, 0, 0, 0];
    if FromLE32(arrived[..4]) == 0 {
      assert arrived[..4] == [arrived[0], arrived[1], arrived[2], arrived[3]];
    }
  }
}
