/**
 * The life of one flow on a connection, seen apart from all others.
 *
 * The reliable channel is first-in first-out in both directions.  What is on
 * its way up (signals from the receiver and the notices made of them) is one
 * queue here; on the way down signals and notices are kept apart, because the
 * receiving endpoint looks up the flow's last sequence number in between.
 * Packets on UDP may be lost, repeated and reordered: every packet ever sent
 * can arrive any number of times, at any time, or never.
 */
module Flow {
  import opened Common
  import opened Blocks
  import opened Packets
  import opened Messages
  import opened Wire
  import S = Sender
  import R = Receiver

  // What the two users agreed on.
  datatype Plan = Plan(msgId: nat, size: nat, bound: nat, payload: nat)

  // The message is not empty and its packet headers can describe it.
  ghost predicate SoundPlan(plan: Plan) {
    Segment(plan.payload) && 0 < plan.size && FieldsFit(plan.size, plan.payload)
  }

  ghost predicate GoodPlan(plan: Plan) {
    SoundPlan(plan) && 0 < plan.bound <= plan.size
  }

  function Last(plan: Plan): nat
    requires 0 < plan.payload
  {
    GetMaxSeqNum(plan.size, plan.payload)
  }

  datatype FlowState = FlowState(
    sendPosted: bool,
    recvPosted: bool,
    requests: seq<nat>,
    sending: Option<S.Outgoing>,
    retransmitting: Option<S.Outgoing>,
    pending: Option<S.Pending>,
    up: seq<Up>,
    signals: seq<Down>,
    maxSeq: Option<nat>,
    notices: seq<Notice>,
    packets: set<Packet>,
    posts: seq<R.Request>,
    recv: Option<Posted>,
    sendDone: nat,
    recvDone: seq<nat>)

  const IDLE: FlowState :=
    FlowState(false, false, [], None, None, None, [], [], None, [], {}, [], None, 0, [])

  datatype Step =
    | PostSend | PostRecv
    | PopRequest | SendOne | ResendOne | SenderNotice
    | Arrive | Deliver(pkt: Packet) | PopPost | ReceiverNotice

  predicate Enabled(f: FlowState, step: Step) {
    match step
    case PostSend => !f.sendPosted
    case PostRecv => !f.recvPosted
    case PopRequest => f.requests != []
    case SendOne => f.sending.Some?
    case ResendOne => f.pending.Some?
    case SenderNotice => f.up != []
    case Arrive => f.signals != []
    case Deliver(pkt) => pkt in f.packets && HEADER <= pkt.len
    case PopPost => f.posts != []
    case ReceiverNotice => f.notices != []
  }

  function FinishIf(b: bool): seq<Down> {
    if b then [Finish] else []
  }

  function AfterSend(plan: Plan, f: FlowState): FlowState
    requires 0 < plan.payload && f.sending.Some?
  {
    var o := f.sending.value;
    AfterPacket(f, MakePacket(plan.msgId, o.size, plan.payload, o.sent, o.sent / plan.payload),
                o.(sent := o.sent + Chunk(o.size, plan.payload, o.sent)))
  }

  function AfterPacket(f: FlowState, pkt: Packet, o: S.Outgoing): FlowState {
    var f1 := f.(packets := f.packets + {pkt}, signals := f.signals + FinishIf(pkt.isLast));
    if o.sent >= o.size
    then f1.(sending := None,
             retransmitting := if f.retransmitting.Some? then f.retransmitting else Some(o))
    else f1.(sending := Some(o))
  }

  function AfterResend(plan: Plan, f: FlowState): Outcome<FlowState>
    requires 0 < plan.payload && f.pending.Some?
  {
    var p := f.pending.value;
    if f.retransmitting.None? || !S.CursorInside(p) then CheckFailed
    else
      var pkt := PacketAt(plan.msgId, f.retransmitting.value.size, plan.payload, p.seqNum);
      var p' := S.Advance(p);
      Ok(f.(packets := f.packets + {pkt}, signals := f.signals + FinishIf(S.AtEnd(p)),
            pending := if p'.blockNum == |p.blocks| then None else Some(p')))
  }

  function AfterSenderNotice(f: FlowState): Outcome<FlowState>
    requires f.up != []
  {
    var f1 := f.(up := f.up[1..]);
    match f.up[0]
    case Retransmit(blocks) =>
      if blocks == [] then CheckFailed
      else Ok(f1.(pending := Some(S.Pending(blocks, 0, blocks[0].first))))
    case Stop =>
      var f2 := if f.sending.Some? then f1.(sending := None)
                else f1.(pending := None, retransmitting := None);
      Ok(f2.(signals := f.signals + [Confirm], sendDone := f.sendDone + 1))
  }

  function AfterArrive(f: FlowState): Outcome<FlowState>
    requires f.signals != []
  {
    var f1 := f.(signals := f.signals[1..]);
    match f.signals[0]
    case Start(v) => Ok(f1.(maxSeq := Some(v)))
    case Finish =>
      if f.maxSeq.None? then CheckFailed
      else Ok(f1.(notices := f.notices + [FinishFlow(f.maxSeq.value)]))
    case Confirm => Ok(f1.(notices := f.notices + [ConfirmStop], maxSeq := None))
  }

  function AfterDeliver(f: FlowState, pkt: Packet): Outcome<FlowState>
    requires HEADER <= pkt.len
  {
    if f.recv.None? then Ok(f)
    else
      match R.Accept(f.recv.value, pkt)
      case CheckFailed => CheckFailed
      case Ok(r) =>
        Ok(f.(recv := Some(r),
              up := f.up + if r.stopped && !f.recv.value.stopped then [Stop] else []))
  }

  function AfterReceiverNotice(f: FlowState): Outcome<FlowState>
    requires f.notices != []
  {
    var f1 := f.(notices := f.notices[1..]);
    match f.notices[0]
    case FinishFlow(v) =>
      if f.recv.None? then Ok(f1.(up := f.up + [Retransmit([Block(0, v + 1)])]))
      else if Finished(f.recv.value) then Ok(f1)
      else
        var slots := Covering(f.recv.value.slots, v);
        var blocks := RunsOf(slots, |slots|);
        Ok(f1.(recv := Some(f.recv.value.(slots := slots)),
               up := f.up + if blocks == [] then [] else [Retransmit(blocks)]))
    case ConfirmStop =>
      if f.recv.None? then CheckFailed
      else Ok(f1.(recv := None, recvDone := f.recvDone + [f.recv.value.bytes]))
  }

  function Next(plan: Plan, f: FlowState, step: Step): Outcome<FlowState>
    requires 0 < plan.payload && Enabled(f, step)
  {
    match step
    case PostSend =>
      Ok(f.(sendPosted := true, requests := f.requests + [plan.size],
            signals := f.signals + [Start(Last(plan))]))
    case PostRecv =>
      Ok(f.(recvPosted := true, posts := f.posts + [R.Request(plan.size, plan.bound)]))
    case PopRequest =>
      if f.sending.Some? then CheckFailed
      else Ok(f.(requests := f.requests[1..], sending := Some(S.Outgoing(f.requests[0], 0))))
    case SendOne => Ok(AfterSend(plan, f))
    case ResendOne => AfterResend(plan, f)
    case SenderNotice => AfterSenderNotice(f)
    case Arrive => AfterArrive(f)
    case Deliver(pkt) => AfterDeliver(f, pkt)
    case PopPost =>
      if f.recv.Some? then CheckFailed
      else Ok(f.(posts := f.posts[1..],
                 recv := Some(Posted(f.posts[0].size, f.posts[0].bound, 0, false, []))))
    case ReceiverNotice => AfterReceiverNotice(f)
  }

  // ---- The invariant ----

  function IsFinish(): Down -> bool { (d: Down) => d.Finish? }
  function IsConfirm(): Down -> bool { (d: Down) => d.Confirm? }
  function IsRetransmit(): Up -> bool { (u: Up) => u.Retransmit? }
  function IsStop(): Up -> bool { (u: Up) => u.Stop? }

  // The notices in the receiving thread's queue as the signals they came from.
  function AsSignals(notices: seq<Notice>): (d: seq<Down>)
    ensures |d| == |notices|
    ensures forall i :: 0 <= i < |d| ==> d[i] == if notices[i].FinishFlow? then Finish else Confirm
  {
    seq(|notices|, i requires 0 <= i < |notices| =>
      if notices[i].FinishFlow? then Finish else Confirm)
  }

  // Everything on its way down, oldest first.
  function Pipe(notices: seq<Notice>, signals: seq<Down>): seq<Down> {
    AsSignals(notices) + signals
  }

  function AllDown(f: FlowState): seq<Down> {
    Pipe(f.notices, f.signals)
  }

  // The receiver has asked the sender to stop.
  predicate Stopped(f: FlowState) {
    (f.recv.Some? && f.recv.value.stopped) || f.recvDone != []
  }

  // Whoever holds the baton has the next move: a queued request, a message on
  // its first pass, FlowFinish or RetransmitRequest in transit, or a request
  // being served.
  function Batons(f: FlowState): nat {
    |f.requests| + B2N(f.sending.Some?) + Count(AllDown(f), IsFinish())
    + Count(f.up, IsRetransmit()) + B2N(f.pending.Some?)
  }

  ghost predicate OneBaton(f: FlowState) {
    && Batons(f) <= 1
    && (f.sendPosted && !Stopped(f) ==> Batons(f) == 1)
  }

  ghost predicate StopLast(up: seq<Up>) {
    forall i :: 0 <= i < |up| - 1 ==> !up[i].Stop?
  }

  ghost predicate WellOrdered(down: seq<Down>) {
    && (forall i :: 0 <= i < |down| - 1 ==> !down[i].Confirm?)
    && (forall i :: 0 < i < |down| ==> !down[i].Start?)
  }

  // One stop token travels up, comes back as a confirmation, and ends as the
  // receive completion.
  ghost predicate OneStop(f: FlowState) {
    && Count(f.up, IsStop()) + Count(AllDown(f), IsConfirm()) + |f.recvDone| == B2N(Stopped(f))
    && f.sendDone == Count(AllDown(f), IsConfirm()) + |f.recvDone|
    && StopLast(f.up) && WellOrdered(AllDown(f))
    && (f.recvDone != [] ==> AllDown(f) == [])
  }

  predicate StartAhead(f: FlowState) {
    AllDown(f) != [] && AllDown(f)[0].Start?
  }

  ghost predicate KnowsLast(plan: Plan, f: FlowState)
    requires 0 < plan.payload
  {
    && (f.sendPosted ==>
          || StartAhead(f)
          || (f.maxSeq == Some(Last(plan)) && (f.sendDone > 0 ==> f.signals != []))
          || (f.maxSeq.None? && f.signals == [] && f.sendDone > 0))
    && (forall i :: 0 <= i < |f.signals| && f.signals[i].Start? ==> f.signals[i].maxSeq == Last(plan))
    && (forall i :: 0 <= i < |f.notices| && f.notices[i].FinishFlow? ==> f.notices[i].maxSeq == Last(plan))
  }

  // The running byte count stands at a packet boundary inside the message.
  ghost predicate OnTrack(plan: Plan, o: S.Outgoing)
    requires 0 < plan.payload
  {
    && o.size == plan.size && o.sent < plan.size
    && o.sent == (o.sent / plan.payload) * plan.payload
  }

  ghost predicate GoodBlocks(plan: Plan, blocks: seq<Block>)
    requires 0 < plan.payload
  {
    blocks != [] && Separated(blocks, NumPackets(plan.size, plan.payload))
  }

  ghost predicate GoodUps(plan: Plan, up: seq<Up>)
    requires 0 < plan.payload
  {
    forall i :: 0 <= i < |up| && up[i].Retransmit? ==> GoodBlocks(plan, up[i].blocks)
  }

  ghost predicate OwnPacket(plan: Plan, pkt: Packet)
    requires 0 < plan.payload
  {
    && pkt.seqNum < NumPackets(plan.size, plan.payload)
    && pkt == PacketAt(plan.msgId, plan.size, plan.payload, pkt.seqNum)
  }

  predicate SenderIdle(f: FlowState) {
    f.requests == [] && f.sending.None? && f.retransmitting.None? && f.pending.None?
  }

  ghost predicate SenderOk(plan: Plan, f: FlowState)
    requires 0 < plan.payload
  {
    && (!f.sendPosted ==> SenderIdle(f) && f.up == [] && AllDown(f) == [] && f.sendDone == 0)
    && (f.sendDone > 0 ==> SenderIdle(f) && f.up == [])
    && (f.sendPosted && f.sendDone == 0 ==>
          (f.retransmitting.Some? <==> f.requests == [] && f.sending.None?))
    && (forall i :: 0 <= i < |f.requests| ==> f.requests[i] == plan.size)
    && (f.sending.Some? ==> OnTrack(plan, f.sending.value))
    && (f.retransmitting.Some? ==> f.retransmitting.value.size == plan.size)
    && (f.pending.Some? ==> GoodBlocks(plan, f.pending.value.blocks) && S.CursorInside(f.pending.value))
    && GoodUps(plan, f.up)
    && (forall pkt :: pkt in f.packets ==> OwnPacket(plan, pkt))
    && (f.packets != {} ==> f.sendPosted && f.requests == [])
  }

  ghost predicate ReceiptOk(plan: Plan, r: Posted)
    requires 0 < plan.payload
  {
    && r.size == plan.size && r.bound == plan.bound
    && |r.slots| <= NumPackets(plan.size, plan.payload)
    && r.bytes == BytesTaken(r.slots, plan.size, plan.payload)
    && (r.stopped <==> Finished(r))
  }

  ghost predicate ReceiverOk(plan: Plan, f: FlowState)
    requires 0 < plan.payload
  {
    && |f.posts| + B2N(f.recv.Some?) + |f.recvDone| == B2N(f.recvPosted)
    && (forall i :: 0 <= i < |f.posts| ==> f.posts[i] == R.Request(plan.size, plan.bound))
    && (f.recv.Some? ==> ReceiptOk(plan, f.recv.value))
    && (f.recv.Some? && f.recv.value.bytes > 0 ==> f.packets != {})
    && (forall i :: 0 <= i < |f.recvDone| ==> plan.bound <= f.recvDone[i] <= plan.size)
  }

  ghost predicate Inv(plan: Plan, f: FlowState) {
    && GoodPlan(plan)
    && OneBaton(f) && OneStop(f) && KnowsLast(plan, f) && SenderOk(plan, f) && ReceiverOk(plan, f)
  }

  lemma IdleInv(plan: Plan)
    requires GoodPlan(plan)
    ensures Inv(plan, IDLE)
  {}
}
