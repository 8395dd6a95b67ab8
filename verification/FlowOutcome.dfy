/**
 * Which byte bounds let a flow complete at all.  A bound above the message size is
 * never reached, so no run ever stops or completes; every other bound, zero included,
 * has a run that completes both sides.
 */
module FlowOutcome {
  import opened Common
  import opened Blocks
  import opened Packets
  import opened Messages
  import opened Wire
  import opened Flow
  import opened FlowProgress
  import FlowSafety
  import FlowStall
  import RetransmitService
  import S = Sender
  import R = Receiver

  // ---- A bound above the size ----

  // The sender's side: everything it holds is about this message.
  ghost predicate SenderSound(plan: Plan, f: FlowState)
    requires 0 < plan.payload
  {
    && (forall i :: 0 <= i < |f.requests| ==> f.requests[i] == plan.size)
    && (f.sending.Some? ==> OnTrack(plan, f.sending.value))
    && (f.retransmitting.Some? ==> f.retransmitting.value.size == plan.size)
    && (f.pending.Some? ==> GoodBlocks(plan, f.pending.value.blocks) && S.CursorInside(f.pending.value))
    && (forall pkt :: pkt in f.packets ==> OwnPacket(plan, pkt))
  }

  // No stop, no confirmation, no completion anywhere.
  ghost predicate NoStopAnywhere(f: FlowState) {
    && f.recvDone == [] && f.sendDone == 0
    && (forall i :: 0 <= i < |f.up| ==> !f.up[i].Stop?)
    && (forall i :: 0 <= i < |f.signals| ==> !f.signals[i].Confirm?)
    && (forall i :: 0 <= i < |f.notices| ==> !f.notices[i].ConfirmStop?)
  }

  ghost predicate ReceiverSound(plan: Plan, f: FlowState)
    requires 0 < plan.payload
  {
    && GoodUps(plan, f.up)
    && (forall i :: 0 <= i < |f.posts| ==> f.posts[i] == R.Request(plan.size, plan.bound))
    && (f.recv.Some? ==> ReceiptOk(plan, f.recv.value))
    && (forall i :: 0 <= i < |f.signals| && f.signals[i].Start? ==> f.signals[i].maxSeq == Last(plan))
    && (forall i :: 0 <= i < |f.notices| && f.notices[i].FinishFlow? ==> f.notices[i].maxSeq == Last(plan))
    && (f.maxSeq.Some? ==> f.maxSeq.value == Last(plan))
  }

  ghost predicate Endless(plan: Plan, f: FlowState)
    requires 0 < plan.payload
  {
    SenderSound(plan, f) && NoStopAnywhere(f) && ReceiverSound(plan, f)
  }

  // A receive never reaches a bound above the size.
  lemma NeverFinished(plan: Plan, r: Posted)
    requires SoundPlan(plan) && plan.bound > plan.size && ReceiptOk(plan, r)
    ensures !Finished(r) && !r.stopped
  {
    BytesTakenBound(r.slots, plan.size, plan.payload);
  }

  lemma SendEndless(plan: Plan, f: FlowState)
    requires SoundPlan(plan) && Endless(plan, f) && f.sending.Some?
    ensures Endless(plan, AfterSend(plan, f))
  {
    FlowSafety.FirstPassPacket(plan, f.sending.value);
  }

  lemma ResendEndless(plan: Plan, f: FlowState)
    requires SoundPlan(plan) && Endless(plan, f) && f.pending.Some? && AfterResend(plan, f).Ok?
    ensures Endless(plan, AfterResend(plan, f).value)
  {
    var p, n := f.pending.value, NumPackets(plan.size, plan.payload);
    RetransmitService.AdvanceInside(p, n);
    RetransmitService.NonEmptyBlocks(p.blocks, n, p.blockNum);
    FlowSafety.OwnPacketAt(plan, p.seqNum);
  }

  lemma SenderNoticeEndless(plan: Plan, f: FlowState)
    requires SoundPlan(plan) && Endless(plan, f) && f.up != [] && AfterSenderNotice(f).Ok?
    ensures Endless(plan, AfterSenderNotice(f).value)
  {
    assert GoodBlocks(plan, f.up[0].blocks);
    RetransmitService.NonEmptyBlocks(f.up[0].blocks, NumPackets(plan.size, plan.payload), 0);
  }

  lemma DeliverEndless(plan: Plan, f: FlowState, pkt: Packet)
    requires SoundPlan(plan) && plan.bound > plan.size && Endless(plan, f)
    requires Enabled(f, Deliver(pkt)) && AfterDeliver(f, pkt).Ok?
    ensures Endless(plan, AfterDeliver(f, pkt).value)
  {
    if f.recv.Some? {
      FlowSafety.AcceptKeepsReceipt(plan, f.recv.value, pkt);
      NeverFinished(plan, R.Accept(f.recv.value, pkt).value);
    }
  }

  // FinishFlow on a receive that is not finished: its table covers the message, and
  // what it asks for lies inside.
  lemma CoveringOk(plan: Plan, r: Posted)
    requires SoundPlan(plan) && ReceiptOk(plan, r)
    ensures var slots := Covering(r.slots, Last(plan));
            && ReceiptOk(plan, r.(slots := slots))
            && Separated(RunsOf(slots, |slots|), NumPackets(plan.size, plan.payload))
  {
    FlowSafety.LastIsMax(plan);
    if |r.slots| <= Last(plan) {
      BytesTakenGrow(r.slots, plan.size, plan.payload, Last(plan) + 1);
    }
  }

  lemma ReceiverNoticeEndless(plan: Plan, f: FlowState)
    requires SoundPlan(plan) && plan.bound > plan.size && Endless(plan, f)
    requires f.notices != [] && AfterReceiverNotice(f).Ok?
    ensures Endless(plan, AfterReceiverNotice(f).value)
  {
    assert f.notices[0].FinishFlow?;
    if f.recv.None? {
      FlowSafety.WholeMessageBlock(plan);
    } else {
      CoveringOk(plan, f.recv.value);
    }
  }

  lemma PopPostEndless(plan: Plan, f: FlowState)
    requires SoundPlan(plan) && plan.bound > plan.size && Endless(plan, f)
    requires f.posts != [] && Next(plan, f, PopPost).Ok?
    ensures Endless(plan, Next(plan, f, PopPost).value)
  {
  }

  lemma ArriveEndless(plan: Plan, f: FlowState)
    requires SoundPlan(plan) && Endless(plan, f) && f.signals != [] && AfterArrive(f).Ok?
    ensures Endless(plan, AfterArrive(f).value)
  {
  }

  lemma UserEndless(plan: Plan, f: FlowState, step: Step)
    requires SoundPlan(plan) && Endless(plan, f) && Enabled(f, step) && Next(plan, f, step).Ok?
    requires step.PostSend? || step.PostRecv? || step.PopRequest?
    ensures Endless(plan, Next(plan, f, step).value)
  {
    SmallQuotient(0, plan.payload);
  }

  lemma StepEndless(plan: Plan, f: FlowState, step: Step)
    requires SoundPlan(plan) && plan.bound > plan.size && Endless(plan, f)
    requires Enabled(f, step) && Next(plan, f, step).Ok?
    ensures Endless(plan, Next(plan, f, step).value)
  {
    match step
    case SendOne => SendEndless(plan, f);
    case ResendOne => ResendEndless(plan, f);
    case SenderNotice => SenderNoticeEndless(plan, f);
    case Deliver(pkt) => DeliverEndless(plan, f, pkt);
    case ReceiverNotice => ReceiverNoticeEndless(plan, f);
    case PopPost => PopPostEndless(plan, f);
    case Arrive => ArriveEndless(plan, f);
    case _ => UserEndless(plan, f, step);
  }

  lemma {:induction false} LeadsEndless(plan: Plan, f: FlowState, steps: seq<Step>, g: FlowState)
    requires SoundPlan(plan) && plan.bound > plan.size && Endless(plan, f) && Leads(plan, f, steps, g)
    ensures Endless(plan, g)
    decreases |steps|
  {
    if steps != [] {
      StepEndless(plan, f, steps[0]);
      LeadsEndless(plan, Next(plan, f, steps[0]).value, steps[1..], g);
    }
  }

  // With a bound above the size neither side ever completes, in any run.
  lemma NeverCompletes(plan: Plan, steps: seq<Step>, f: FlowState)
    requires SoundPlan(plan) && plan.bound > plan.size && Leads(plan, IDLE, steps, f)
    ensures f.recvDone == [] && f.sendDone == 0 && !Stopped(f)
  {
    LeadsEndless(plan, IDLE, steps, f);
    if f.recv.Some? {
      NeverFinished(plan, f.recv.value);
    }
  }

  // ---- A bound of zero ----

  lemma LeadsFirst(plan: Plan, f: FlowState, step: Step, g: FlowState, rest: seq<Step>, h: FlowState)
    requires 0 < plan.payload && Enabled(f, step) && Next(plan, f, step) == Ok(g) && Leads(plan, g, rest, h)
    ensures Leads(plan, f, [step] + rest, h)
  {
    assert ([step] + rest)[1..] == rest;
  }

  // The first packet that arrives stops a receive that wants nothing.
  lemma FirstPacketStops(plan: Plan, f: FlowState) returns (steps: seq<Step>, g: FlowState, last: bool)
    requires SoundPlan(plan) && plan.bound == 0 && FlowStall.Passing(plan, f, false)
    ensures Leads(plan, f, steps, g)
    ensures g.recv.Some? && Finished(g.recv.value) && g.recvDone == [] && g.notices == [] && g.sendDone == 1
    ensures g.signals == [Start(Last(plan))] + FinishIf(last) + [Confirm]
  {
    var o := f.sending.value;
    var k := o.sent / plan.payload;
    var pkt := MakePacket(plan.msgId, o.size, plan.payload, o.sent, k);
    FlowSafety.FirstPassPacket(plan, o);
    PacketStarts(plan.size, plan.payload, k);
    ExactFields(plan.msgId, plan.size, plan.payload, k);
    StartStep(plan.size, plan.payload, k);
    ChunkEnds(plan.size, plan.payload, k);
    last := pkt.isLast;
    var f1 := AfterSend(plan, f);
    assert R.Accept(f1.recv.value, pkt).Ok? && R.Accept(f1.recv.value, pkt).value.stopped;
    var f2 := AfterDeliver(f1, pkt).value;
    assert f2.up == [Stop];
    g := AfterSenderNotice(f2).value;
    assert Leads(plan, g, [], g);
    LeadsFirst(plan, f2, SenderNotice, g, [], g);
    LeadsFirst(plan, f1, Deliver(pkt), f2, [SenderNotice] + [], g);
    LeadsFirst(plan, f, SendOne, f1, [Deliver(pkt)] + ([SenderNotice] + []), g);
    steps := [SendOne] + ([Deliver(pkt)] + ([SenderNotice] + []));
  }

  // What is on its way down ends with the confirmation, which completes the receive.
  lemma {:induction false} DrainNotices(plan: Plan, f: FlowState) returns (steps: seq<Step>, g: FlowState)
    requires 0 < plan.payload && f.recv.Some? && Finished(f.recv.value) && f.recvDone == []
    requires f.notices != [] && f.notices[|f.notices| - 1].ConfirmStop?
    requires forall i :: 0 <= i < |f.notices| - 1 ==> f.notices[i].FinishFlow?
    ensures Leads(plan, f, steps, g) && g.recvDone != [] && g.sendDone == f.sendDone
    decreases |f.notices|
  {
    var f1 := AfterReceiverNotice(f).value;
    if |f.notices| == 1 {
      g := f1;
      assert Leads(plan, g, [], g);
      LeadsFirst(plan, f, ReceiverNotice, g, [], g);
      steps := [ReceiverNotice] + [];
    } else {
      var rest;
      rest, g := DrainNotices(plan, f1);
      LeadsFirst(plan, f, ReceiverNotice, f1, rest, g);
      steps := [ReceiverNotice] + rest;
    }
  }

  lemma DrainDown(plan: Plan, f: FlowState, last: bool) returns (steps: seq<Step>, g: FlowState)
    requires 0 < plan.payload && f.recv.Some? && Finished(f.recv.value) && f.recvDone == [] && f.notices == []
    requires f.signals == [Start(Last(plan))] + FinishIf(last) + [Confirm]
    ensures Leads(plan, f, steps, g) && g.recvDone != [] && g.sendDone == f.sendDone
  {
    var f1 := AfterArrive(f).value;
    assert f1.signals == FinishIf(last) + [Confirm] && f1.maxSeq == Some(Last(plan));
    var f2 := AfterArrive(f1).value;
    var rest;
    if last {
      assert f2.signals == [Confirm] && f2.notices == [FinishFlow(Last(plan))];
      var f3 := AfterArrive(f2).value;
      assert f3.notices == [FinishFlow(Last(plan)), ConfirmStop];
      rest, g := DrainNotices(plan, f3);
      LeadsFirst(plan, f2, Arrive, f3, rest, g);
      rest := [Arrive] + rest;
    } else {
      assert f2.notices == [ConfirmStop];
      rest, g := DrainNotices(plan, f2);
    }
    LeadsFirst(plan, f1, Arrive, f2, rest, g);
    LeadsFirst(plan, f, Arrive, f1, [Arrive] + rest, g);
    steps := [Arrive] + ([Arrive] + rest);
  }

  lemma ZeroBoundCompletes(plan: Plan) returns (steps: seq<Step>, g: FlowState)
    requires SoundPlan(plan) && plan.bound == 0
    ensures Leads(plan, IDLE, steps, g) && g.recvDone != [] && g.sendDone == 1
  {
    var s1, f1 := FlowStall.Opening(plan, false);
    var s2, f2, last := FirstPacketStops(plan, f1);
    var s3;
    s3, g := DrainDown(plan, f2, last);
    FlowStall.LeadsOn(plan, IDLE, s1, f1, s2, f2);
    FlowStall.LeadsOn(plan, IDLE, s1 + s2, f2, s3, g);
    steps := s1 + s2 + s3;
  }

  ghost predicate MayComplete(plan: Plan)
    requires 0 < plan.payload
  {
    exists steps, f :: Leads(plan, IDLE, steps, f) && f.recvDone != [] && f.sendDone == 1
  }

  // A flow can complete exactly when its bound is not above the message size.
  lemma CompletesIffBoundReachable(plan: Plan)
    requires SoundPlan(plan)
    ensures MayComplete(plan) <==> plan.bound <= plan.size
  {
    if plan.bound > plan.size {
      forall steps, f | Leads(plan, IDLE, steps, f)
        ensures f.recvDone == []
      {
        NeverCompletes(plan, steps, f);
      }
    } else if plan.bound == 0 {
      var steps, g := ZeroBoundCompletes(plan);
    } else {
      var steps, g := CompletesFromIdle(plan);
    }
  }
}
