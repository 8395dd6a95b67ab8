/**
 * Every step of a flow keeps its invariant and passes every CHECK.
 */
module FlowSafety {
  import opened Common
  import opened Blocks
  import opened Packets
  import opened Messages
  import opened Wire
  import opened Flow
  import S = Sender
  import R = Receiver
  import RetransmitService

  // ---- Queues ----

  lemma {:induction false} CountZero<T>(q: seq<T>, f: T -> bool)
    ensures Count(q, f) == 0 <==> forall i :: 0 <= i < |q| ==> !f(q[i])
  {
    if q != [] {
      CountZero(q[1..], f);
      assert forall i :: 0 <= i < |q[1..]| ==> q[1..][i] == q[i + 1];
      assert forall i :: 0 < i < |q| ==> q[i] == q[1..][i - 1];
    }
  }

  lemma PipeAppend(n: seq<Notice>, s: seq<Down>, x: Down)
    ensures Pipe(n, s + [x]) == Pipe(n, s) + [x]
  {}

  lemma PipeDispatch(n: seq<Notice>, s: seq<Down>, x: Notice)
    requires s != [] && s[0] == if x.FinishFlow? then Finish else Confirm
    ensures Pipe(n + [x], s[1..]) == Pipe(n, s)
  {}

  lemma PipeNotice(n: seq<Notice>, s: seq<Down>)
    requires n != []
    ensures Pipe(n[1..], s) == Pipe(n, s)[1..]
  {}

  lemma PipeSignal(s: seq<Down>)
    requires s != []
    ensures Pipe([], s[1..]) == Pipe([], s)[1..]
  {}

  // Appending at the end of the way down while no confirmation is on it.
  lemma DownGrows(n: seq<Notice>, s: seq<Down>, x: Down)
    requires WellOrdered(Pipe(n, s)) && Count(Pipe(n, s), IsConfirm()) == 0
    requires x.Start? ==> Pipe(n, s) == []
    ensures WellOrdered(Pipe(n, s + [x]))
    ensures Count(Pipe(n, s + [x]), IsFinish()) == Count(Pipe(n, s), IsFinish()) + B2N(x.Finish?)
    ensures Count(Pipe(n, s + [x]), IsConfirm()) == B2N(x.Confirm?)
  {
    PipeAppend(n, s, x);
    CountZero(Pipe(n, s), IsConfirm());
    CountAppend(Pipe(n, s), x, IsFinish());
    CountAppend(Pipe(n, s), x, IsConfirm());
  }

  // A later signal hides neither the announcement nor what it announced.
  lemma KnowsLastAppend(plan: Plan, f: FlowState, g: FlowState, x: Down)
    requires 0 < plan.payload && KnowsLast(plan, f) && f.sendDone == 0 && !x.Start?
    requires g.signals == f.signals + [x] && g.notices == f.notices
    requires g.maxSeq == f.maxSeq && g.sendPosted == f.sendPosted
    ensures KnowsLast(plan, g)
  {
    PipeAppend(f.notices, f.signals, x);
  }

  // Appending on the way up while no stop is on it.
  lemma UpGrows(plan: Plan, up: seq<Up>, x: Up)
    requires Count(up, IsStop()) == 0 && 0 < plan.payload
    requires GoodUps(plan, up) && (x.Retransmit? ==> GoodBlocks(plan, x.blocks))
    ensures GoodUps(plan, up + [x])
    ensures StopLast(up + [x])
    ensures Count(up + [x], IsStop()) == B2N(x.Stop?)
    ensures Count(up + [x], IsRetransmit()) == Count(up, IsRetransmit()) + B2N(x.Retransmit?)
  {
    CountZero(up, IsStop());
    CountAppend(up, x, IsStop());
    CountAppend(up, x, IsRetransmit());
  }

  // ---- Steps ----

  lemma PostSendKeeps(plan: Plan, f: FlowState)
    requires Inv(plan, f) && !f.sendPosted
    ensures Inv(plan, Next(plan, f, PostSend).value)
  {
    DownGrows(f.notices, f.signals, Start(Last(plan)));
  }

  lemma PostRecvKeeps(plan: Plan, f: FlowState)
    requires Inv(plan, f) && !f.recvPosted
    ensures Inv(plan, Next(plan, f, PostRecv).value)
  {}

  lemma PopRequestKeeps(plan: Plan, f: FlowState)
    requires Inv(plan, f) && f.requests != []
    ensures Next(plan, f, PopRequest).Ok? && Inv(plan, Next(plan, f, PopRequest).value)
  {
    SmallQuotient(0, plan.payload);
  }

  lemma PopPostKeeps(plan: Plan, f: FlowState)
    requires Inv(plan, f) && f.posts != []
    ensures Next(plan, f, PopPost).Ok? && Inv(plan, Next(plan, f, PopPost).value)
  {
    assert f.recv.None? && f.recvDone == [];
    PopPostTokens(plan, f);
  }

  lemma PopPostTokens(plan: Plan, f: FlowState)
    requires 0 < plan.payload && OneBaton(f) && OneStop(f) && f.posts != [] && f.recv.None? && f.recvDone == []
    ensures var g := Next(plan, f, PopPost).value; OneBaton(g) && OneStop(g)
  {
    var g := Next(plan, f, PopPost).value;
    assert Stopped(g) == Stopped(f) && AllDown(g) == AllDown(f) && Batons(g) == Batons(f);
  }

  // ---- The sender's packets ----

  // One packet of the first pass: it is the message's own, and it is marked
  // last exactly when the message has been covered.
  lemma FirstPassPacket(plan: Plan, o: S.Outgoing)
    requires SoundPlan(plan) && OnTrack(plan, o)
    ensures var pkt := MakePacket(plan.msgId, o.size, plan.payload, o.sent, o.sent / plan.payload);
            var sent := o.sent + Chunk(o.size, plan.payload, o.sent);
            && OwnPacket(plan, pkt) && HEADER <= pkt.len
            && (pkt.isLast <==> sent >= plan.size)
            && (sent < plan.size ==> OnTrack(plan, o.(sent := sent)))
  {
    var k := o.sent / plan.payload;
    PacketStarts(plan.size, plan.payload, k);
    OwnPacketAt(plan, k);
    ChunkEnds(plan.size, plan.payload, k);
    QuotientOfMultiple(k + 1, plan.payload);
  }

  lemma OwnPacketAt(plan: Plan, k: nat)
    requires SoundPlan(plan) && k < NumPackets(plan.size, plan.payload)
    ensures OwnPacket(plan, PacketAt(plan.msgId, plan.size, plan.payload, k))
    ensures HEADER <= PacketAt(plan.msgId, plan.size, plan.payload, k).len
  {
    ExactFields(plan.msgId, plan.size, plan.payload, k);
    MulLe(1, plan.payload, k);
    assert k * plan.payload == plan.payload * k;
    var last := NumPackets(plan.size, plan.payload) - 1;
    MulLe(k, last, plan.payload);
  }

  lemma SeqNumAt(plan: Plan, k: nat)
    requires SoundPlan(plan) && k < NumPackets(plan.size, plan.payload)
    ensures PacketAt(plan.msgId, plan.size, plan.payload, k).seqNum == k
  {
    LastIsMax(plan);
  }

  lemma SendMiddleKeeps(plan: Plan, f: FlowState)
    requires Inv(plan, f) && f.sending.Some?
    requires f.sending.value.sent + Chunk(plan.size, plan.payload, f.sending.value.sent) < plan.size
    ensures Inv(plan, AfterSend(plan, f))
  {
    FirstPassPacket(plan, f.sending.value);
    assert f.signals + [] == f.signals;
  }

  lemma SendLastKeeps(plan: Plan, f: FlowState)
    requires Inv(plan, f) && f.sending.Some?
    requires f.sending.value.sent + Chunk(plan.size, plan.payload, f.sending.value.sent) >= plan.size
    ensures Inv(plan, AfterSend(plan, f))
  {
    SendLastTokens(plan, f);
    SendLastSides(plan, f);
  }

  lemma SendLastTokens(plan: Plan, f: FlowState)
    requires Inv(plan, f) && f.sending.Some?
    requires f.sending.value.sent + Chunk(plan.size, plan.payload, f.sending.value.sent) >= plan.size
    ensures OneBaton(AfterSend(plan, f)) && OneStop(AfterSend(plan, f))
  {
    FirstPassPacket(plan, f.sending.value);
    DownGrows(f.notices, f.signals, Finish);
  }

  lemma SendLastSides(plan: Plan, f: FlowState)
    requires Inv(plan, f) && f.sending.Some?
    requires f.sending.value.sent + Chunk(plan.size, plan.payload, f.sending.value.sent) >= plan.size
    ensures var g := AfterSend(plan, f); KnowsLast(plan, g) && SenderOk(plan, g) && ReceiverOk(plan, g)
  {
    FirstPassPacket(plan, f.sending.value);
    KnowsLastAppend(plan, f, AfterSend(plan, f), Finish);
  }

  lemma SendOneKeeps(plan: Plan, f: FlowState)
    requires Inv(plan, f) && f.sending.Some?
    ensures Inv(plan, Next(plan, f, SendOne).value)
  {
    if f.sending.value.sent + Chunk(plan.size, plan.payload, f.sending.value.sent) < plan.size {
      SendMiddleKeeps(plan, f);
    } else {
      SendLastKeeps(plan, f);
    }
  }

  // A packet of a request that is not its last.
  lemma ResendMiddleKeeps(plan: Plan, f: FlowState)
    requires Inv(plan, f) && f.pending.Some? && !S.AtEnd(f.pending.value)
    ensures Next(plan, f, ResendOne).Ok? && Inv(plan, Next(plan, f, ResendOne).value)
  {
    var p := f.pending.value;
    var n := NumPackets(plan.size, plan.payload);
    RetransmitService.AdvanceInside(p, n);
    RetransmitService.NonEmptyBlocks(p.blocks, n, p.blockNum);
    OwnPacketAt(plan, p.seqNum);
    assert f.signals + [] == f.signals;
  }

  // Its last packet, which hands the baton to FlowFinish.
  lemma ResendLastTokens(plan: Plan, f: FlowState)
    requires Inv(plan, f) && f.pending.Some? && S.AtEnd(f.pending.value)
    ensures AfterResend(plan, f).Ok?
    ensures OneBaton(AfterResend(plan, f).value) && OneStop(AfterResend(plan, f).value)
  {
    RetransmitService.AdvanceInside(f.pending.value, NumPackets(plan.size, plan.payload));
    DownGrows(f.notices, f.signals, Finish);
  }

  lemma ResendLastSides(plan: Plan, f: FlowState)
    requires Inv(plan, f) && f.pending.Some? && S.AtEnd(f.pending.value)
    ensures AfterResend(plan, f).Ok?
    ensures var g := AfterResend(plan, f).value; KnowsLast(plan, g) && SenderOk(plan, g) && ReceiverOk(plan, g)
  {
    var p, n := f.pending.value, NumPackets(plan.size, plan.payload);
    RetransmitService.AdvanceInside(p, n);
    RetransmitService.NonEmptyBlocks(p.blocks, n, p.blockNum);
    OwnPacketAt(plan, p.seqNum);
    KnowsLastAppend(plan, f, AfterResend(plan, f).value, Finish);
  }

  lemma ResendLastKeeps(plan: Plan, f: FlowState)
    requires Inv(plan, f) && f.pending.Some? && S.AtEnd(f.pending.value)
    ensures Next(plan, f, ResendOne).Ok? && Inv(plan, Next(plan, f, ResendOne).value)
  {
    ResendLastTokens(plan, f);
    ResendLastSides(plan, f);
  }

  lemma ResendOneKeeps(plan: Plan, f: FlowState)
    requires Inv(plan, f) && f.pending.Some?
    ensures Next(plan, f, ResendOne).Ok? && Inv(plan, Next(plan, f, ResendOne).value)
  {
    if S.AtEnd(f.pending.value) {
      ResendLastKeeps(plan, f);
    } else {
      ResendMiddleKeeps(plan, f);
    }
  }

  // ---- Notices at the sender ----

  lemma RetransmitNoticeKeeps(plan: Plan, f: FlowState)
    requires Inv(plan, f) && f.up != [] && f.up[0].Retransmit?
    ensures Next(plan, f, SenderNotice).Ok? && Inv(plan, Next(plan, f, SenderNotice).value)
  {
    RetransmitService.NonEmptyBlocks(f.up[0].blocks, NumPackets(plan.size, plan.payload), 0);
  }

  // Stopping finds the message wherever it is, and leaves nothing of it behind.
  // A stop takes whatever baton the sender holds and turns into its confirmation.
  lemma StopNoticeTokens(plan: Plan, f: FlowState)
    requires Inv(plan, f) && f.up != [] && f.up[0].Stop?
    ensures OneBaton(AfterSenderNotice(f).value) && OneStop(AfterSenderNotice(f).value)
  {
    assert |f.up| == 1;
    DownGrows(f.notices, f.signals, Confirm);
  }

  lemma StopNoticeSides(plan: Plan, f: FlowState)
    requires Inv(plan, f) && f.up != [] && f.up[0].Stop?
    ensures var g := AfterSenderNotice(f).value; KnowsLast(plan, g) && SenderOk(plan, g) && ReceiverOk(plan, g)
  {
    assert |f.up| == 1;
    KnowsLastAppend(plan, f, AfterSenderNotice(f).value, Confirm);
  }

  lemma StopNoticeKeeps(plan: Plan, f: FlowState)
    requires Inv(plan, f) && f.up != [] && f.up[0].Stop?
    ensures Next(plan, f, SenderNotice).Ok? && Inv(plan, Next(plan, f, SenderNotice).value)
  {
    StopNoticeTokens(plan, f);
    StopNoticeSides(plan, f);
  }

  lemma SenderNoticeKeeps(plan: Plan, f: FlowState)
    requires Inv(plan, f) && f.up != []
    ensures Next(plan, f, SenderNotice).Ok? && Inv(plan, Next(plan, f, SenderNotice).value)
  {
    if f.up[0].Retransmit? {
      RetransmitNoticeKeeps(plan, f);
    } else {
      StopNoticeKeeps(plan, f);
    }
  }

  // ---- Arrivals at the receiver ----

  // While the last signal is not the confirmation, the sender has not stopped.
  lemma StillSending(f: FlowState)
    requires OneStop(f) && f.signals != [] && !f.signals[|f.signals| - 1].Confirm?
    ensures f.sendDone == 0
  {
    var d := AllDown(f);
    assert d[|d| - 1] == f.signals[|f.signals| - 1];
    CountZero(d, IsConfirm());
  }

  lemma ArriveStartKeeps(plan: Plan, f: FlowState)
    requires Inv(plan, f) && f.signals != [] && f.signals[0].Start?
    ensures Inv(plan, AfterArrive(f).value)
  {
    ArriveStartTokens(plan, f);
    if |f.signals| == 1 {
      StillSending(f);
    }
  }

  lemma ArriveStartTokens(plan: Plan, f: FlowState)
    requires Inv(plan, f) && f.signals != [] && f.signals[0].Start?
    ensures OneBaton(AfterArrive(f).value) && OneStop(AfterArrive(f).value)
  {
    assert Pipe(f.notices, f.signals)[|f.notices|] == f.signals[0];
    assert f.notices == [];
    PipeSignal(f.signals);
  }

  lemma ArriveFinishKeeps(plan: Plan, f: FlowState)
    requires Inv(plan, f) && f.signals != [] && f.signals[0].Finish?
    ensures AfterArrive(f).Ok? && Inv(plan, AfterArrive(f).value)
  {
    PipeDispatch(f.notices, f.signals, FinishFlow(Last(plan)));
    if |f.signals| == 1 {
      StillSending(f);
    }
  }

  lemma ArriveConfirmKeeps(plan: Plan, f: FlowState)
    requires Inv(plan, f) && f.signals != [] && f.signals[0].Confirm?
    ensures Inv(plan, AfterArrive(f).value)
  {
    var d := Pipe(f.notices, f.signals);
    assert d[|f.notices|] == Confirm;
    PipeDispatch(f.notices, f.signals, ConfirmStop);
    CountZero(d, IsConfirm());
    assert IsConfirm()(d[|f.notices|]);
    assert |f.signals| == 1;
  }

  lemma ArriveKeeps(plan: Plan, f: FlowState)
    requires Inv(plan, f) && f.signals != []
    ensures Next(plan, f, Arrive).Ok? && Inv(plan, Next(plan, f, Arrive).value)
  {
    match f.signals[0]
    case Start(_) => ArriveStartKeeps(plan, f);
    case Finish => ArriveFinishKeeps(plan, f);
    case Confirm => ArriveConfirmKeeps(plan, f);
  }

  // A packet of the message never reaches past its end, and is counted once.
  lemma AcceptKeepsReceipt(plan: Plan, r: Posted, pkt: Packet)
    requires SoundPlan(plan) && ReceiptOk(plan, r) && OwnPacket(plan, pkt) && HEADER <= pkt.len
    ensures R.Accept(r, pkt).Ok? && ReceiptOk(plan, R.Accept(r, pkt).value)
    ensures r.stopped ==> R.Accept(r, pkt).value.stopped
  {
    var k := pkt.seqNum;
    ExactFields(plan.msgId, plan.size, plan.payload, k);
    StartStep(plan.size, plan.payload, k);
    ChunkEnds(plan.size, plan.payload, k);
    var room := Room(r.slots, k);
    if !room[k] {
      if k >= |r.slots| {
        BytesTakenGrow(r.slots, plan.size, plan.payload, k + 1);
      }
      BytesTakenUpdate(room, plan.size, plan.payload, k);
    }
  }

  lemma DeliverKeeps(plan: Plan, f: FlowState, pkt: Packet)
    requires Inv(plan, f) && Enabled(f, Deliver(pkt))
    ensures Next(plan, f, Deliver(pkt)).Ok? && Inv(plan, Next(plan, f, Deliver(pkt)).value)
  {
    if f.recv.Some? {
      var r := f.recv.value;
      AcceptKeepsReceipt(plan, r, pkt);
      if !r.stopped {
        UpGrows(plan, f.up, Stop);
      }
      assert f.up + [] == f.up;
    }
  }

  // ---- Notices at the receiver ----

  lemma LastIsMax(plan: Plan)
    requires SoundPlan(plan)
    ensures Last(plan) + 1 == NumPackets(plan.size, plan.payload)
  {
    NumPacketsBounds(plan.size, plan.payload);
    var n := NumPackets(plan.size, plan.payload);
    MulLe(1, plan.payload, n - 1);
    assert (n - 1) * plan.payload == plan.payload * (n - 1);
  }

  // An unfinished receive misses at least one packet, so the request it sends
  // is never empty and lies inside the message.
  lemma UnfinishedMissesSome(plan: Plan, r: Posted)
    requires GoodPlan(plan) && ReceiptOk(plan, r) && !Finished(r)
    ensures var slots := Covering(r.slots, Last(plan));
            && ReceiptOk(plan, r.(slots := slots))
            && GoodBlocks(plan, RunsOf(slots, |slots|))
  {
    LastIsMax(plan);
    var slots := Covering(r.slots, Last(plan));
    if |r.slots| <= Last(plan) {
      BytesTakenGrow(r.slots, plan.size, plan.payload, Last(plan) + 1);
    }
    AllBytesIffAllPackets(slots, plan.size, plan.payload);
    var p :| 0 <= p < |slots| && !slots[p];
    assert Covered(RunsOf(slots, |slots|), p);
  }

  lemma WholeMessageBlock(plan: Plan)
    requires SoundPlan(plan)
    ensures GoodBlocks(plan, [Block(0, Last(plan) + 1)])
  {
    LastIsMax(plan);
    assert Front([Block(0, Last(plan) + 1)]) == [];
  }

  lemma FinishUnpostedTokens(plan: Plan, f: FlowState)
    requires Inv(plan, f) && f.notices != [] && f.notices[0].FinishFlow? && f.recv.None?
    ensures OneBaton(AfterReceiverNotice(f).value) && OneStop(AfterReceiverNotice(f).value)
  {
    PipeNotice(f.notices, f.signals);
    WholeMessageBlock(plan);
    UpGrows(plan, f.up, Retransmit([Block(0, Last(plan) + 1)]));
  }

  lemma FinishUnpostedSides(plan: Plan, f: FlowState)
    requires Inv(plan, f) && f.notices != [] && f.notices[0].FinishFlow? && f.recv.None?
    ensures var g := AfterReceiverNotice(f).value; KnowsLast(plan, g) && SenderOk(plan, g) && ReceiverOk(plan, g)
  {
    PipeNotice(f.notices, f.signals);
    WholeMessageBlock(plan);
    UpGrows(plan, f.up, Retransmit([Block(0, Last(plan) + 1)]));
  }

  lemma FinishUnpostedKeeps(plan: Plan, f: FlowState)
    requires Inv(plan, f) && f.notices != [] && f.notices[0].FinishFlow? && f.recv.None?
    ensures Inv(plan, AfterReceiverNotice(f).value)
  {
    FinishUnpostedTokens(plan, f);
    FinishUnpostedSides(plan, f);
  }

  lemma FinishEnoughKeeps(plan: Plan, f: FlowState)
    requires Inv(plan, f) && f.notices != [] && f.notices[0].FinishFlow?
    requires f.recv.Some? && Finished(f.recv.value)
    ensures Inv(plan, AfterReceiverNotice(f).value)
  {
    PipeNotice(f.notices, f.signals);
  }

  lemma FinishUnfinishedKeeps(plan: Plan, f: FlowState)
    requires Inv(plan, f) && f.notices != [] && f.notices[0].FinishFlow?
    requires f.recv.Some? && !Finished(f.recv.value)
    ensures Inv(plan, AfterReceiverNotice(f).value)
  {
    PipeNotice(f.notices, f.signals);
    var slots := Covering(f.recv.value.slots, Last(plan));
    UnfinishedMissesSome(plan, f.recv.value);
    UpGrows(plan, f.up, Retransmit(RunsOf(slots, |slots|)));
  }

  lemma FinishNoticeKeeps(plan: Plan, f: FlowState)
    requires Inv(plan, f) && f.notices != [] && f.notices[0].FinishFlow?
    ensures AfterReceiverNotice(f).Ok? && Inv(plan, AfterReceiverNotice(f).value)
  {
    if f.recv.None? {
      FinishUnpostedKeeps(plan, f);
    } else if Finished(f.recv.value) {
      FinishEnoughKeeps(plan, f);
    } else {
      FinishUnfinishedKeeps(plan, f);
    }
  }

  lemma ConfirmNoticeKeeps(plan: Plan, f: FlowState)
    requires Inv(plan, f) && f.notices != [] && f.notices[0].ConfirmStop?
    ensures AfterReceiverNotice(f).Ok? && Inv(plan, AfterReceiverNotice(f).value)
  {
    PipeNotice(f.notices, f.signals);
    assert |Pipe(f.notices, f.signals)| == 1;
    BytesTakenBound(f.recv.value.slots, plan.size, plan.payload);
  }

  // Every step of every flow.
  lemma StepKeeps(plan: Plan, f: FlowState, step: Step)
    requires Inv(plan, f) && Enabled(f, step)
    ensures Next(plan, f, step).Ok? && Inv(plan, Next(plan, f, step).value)
  {
    match step
    case PostSend => PostSendKeeps(plan, f);
    case PostRecv => PostRecvKeeps(plan, f);
    case PopRequest => PopRequestKeeps(plan, f);
    case SendOne => SendOneKeeps(plan, f);
    case ResendOne => ResendOneKeeps(plan, f);
    case SenderNotice => SenderNoticeKeeps(plan, f);
    case Arrive => ArriveKeeps(plan, f);
    case Deliver(pkt) => DeliverKeeps(plan, f, pkt);
    case PopPost => PopPostKeeps(plan, f);
    case ReceiverNotice =>
      if f.notices[0].FinishFlow? {
        FinishNoticeKeeps(plan, f);
      } else {
        ConfirmNoticeKeeps(plan, f);
      }
  }
}
