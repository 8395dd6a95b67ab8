/**
 * The byte bound decides whether a flow can stall.  With a bound of zero, or
 * one above the message size, some run drops the baton while the receive is
 * neither stopped nor waiting for anything; with every other bound none does.
 */
module FlowStall {
  import opened Common
  import opened Blocks
  import opened Packets
  import opened Messages
  import opened Wire
  import opened Flow
  import opened FlowProgress
  import FlowSafety
  import R = Receiver

  // Posted, not asked to stop, and nobody has the next move.
  ghost predicate Stalled(f: FlowState) {
    f.sendPosted && f.recvPosted && !Stopped(f) && Batons(f) == 0
  }

  ghost predicate MayStall(plan: Plan)
    requires 0 < plan.payload
  {
    exists steps, f :: Leads(plan, IDLE, steps, f) && Stalled(f)
  }

  lemma {:induction false} LeadsKeepsInv(plan: Plan, f: FlowState, steps: seq<Step>, g: FlowState)
    requires Inv(plan, f) && Leads(plan, f, steps, g)
    ensures Inv(plan, g)
    decreases |steps|
  {
    if steps != [] {
      FlowSafety.StepKeeps(plan, f, steps[0]);
      LeadsKeepsInv(plan, Next(plan, f, steps[0]).value, steps[1..], g);
    }
  }

  // On the first pass with the announcement still unread.  When `heard`, every
  // packet sent so far has been received, otherwise none has.
  ghost predicate Passing(plan: Plan, f: FlowState, heard: bool)
    requires 0 < plan.payload
  {
    && f.sendPosted && f.recvPosted && f.requests == [] && f.posts == []
    && f.sending.Some? && OnTrack(plan, f.sending.value)
    && f.retransmitting.None? && f.pending.None? && f.up == []
    && f.signals == [Start(Last(plan))] && f.maxSeq.None? && f.notices == []
    && f.recvDone == [] && f.sendDone == 0
    && f.recv == Some(Heard(plan, if heard then f.sending.value.sent / plan.payload else 0))
  }

  // The record after the first k packets.
  ghost function Heard(plan: Plan, k: nat): Posted
    requires 0 < plan.payload
  {
    Posted(plan.size, plan.bound, Packets.Start(plan.size, plan.payload, k), false, AllTaken(k))
  }

  function AllTaken(k: nat): seq<bool> {
    seq(k, _ => true)
  }

  lemma AcceptNext(plan: Plan, k: nat)
    requires SoundPlan(plan) && plan.bound > plan.size && k < NumPackets(plan.size, plan.payload)
    ensures var pkt := PacketAt(plan.msgId, plan.size, plan.payload, k);
            HEADER <= pkt.len && R.Accept(Heard(plan, k), pkt) == Ok(Heard(plan, k + 1))
  {
    var pkt := PacketAt(plan.msgId, plan.size, plan.payload, k);
    FlowSafety.OwnPacketAt(plan, k);
    FlowSafety.SeqNumAt(plan, k);
    ExactFields(plan.msgId, plan.size, plan.payload, k);
    StartStep(plan.size, plan.payload, k);
    ChunkEnds(plan.size, plan.payload, k);
    assert Room(AllTaken(k), k)[k := true] == AllTaken(k + 1);
  }

  // All is sent; what has been heard does not make the receiver ask for more.
  ghost predicate AllSent(plan: Plan, f: FlowState, heard: bool)
    requires 0 < plan.payload
  {
    && f.sendPosted && f.recvPosted && f.requests == [] && f.posts == []
    && f.sending.None? && f.pending.None? && f.up == []
    && f.signals == [Start(Last(plan)), Finish] && f.maxSeq.None? && f.notices == []
    && f.recvDone == []
    && f.recv == Some(Heard(plan, if heard then NumPackets(plan.size, plan.payload) else 0))
  }

  // Send the next packet and, when `heard`, let it arrive.
  lemma PassOne(plan: Plan, f: FlowState, heard: bool) returns (steps: seq<Step>, g: FlowState)
    requires SoundPlan(plan) && Passing(plan, f, heard) && (heard ==> plan.bound > plan.size)
    ensures Leads(plan, f, steps, g)
    ensures AllSent(plan, g, heard)
            || (Passing(plan, g, heard) && f.sending.value.sent < g.sending.value.sent)
  {
    var o := f.sending.value;
    var k := o.sent / plan.payload;
    var pkt := MakePacket(plan.msgId, o.size, plan.payload, o.sent, k);
    FlowSafety.FirstPassPacket(plan, o);
    PacketStarts(plan.size, plan.payload, k);
    StartStep(plan.size, plan.payload, k);
    ChunkEnds(plan.size, plan.payload, k);
    QuotientOfMultiple(k + 1, plan.payload);
    var f1 := AfterSend(plan, f);
    if heard {
      AcceptNext(plan, k);
      steps := [SendOne, Deliver(pkt)];
      g := AfterDeliver(f1, pkt).value;
      assert Leads(plan, g, [], g);
      assert Leads(plan, f1, [Deliver(pkt)], g);
      assert steps[1..] == [Deliver(pkt)];
    } else {
      steps := [SendOne];
      g := f1;
      assert Leads(plan, g, [], g);
    }
  }

  lemma {:induction false} LeadsOn(plan: Plan, f: FlowState, s: seq<Step>, g: FlowState, t: seq<Step>, h: FlowState)
    requires 0 < plan.payload && Leads(plan, f, s, g) && Leads(plan, g, t, h)
    ensures Leads(plan, f, s + t, h)
    decreases |s|
  {
    if s == [] {
      assert s + t == t;
    } else {
      LeadsOn(plan, Next(plan, f, s[0]).value, s[1..], g, t, h);
      assert (s + t)[1..] == s[1..] + t;
    }
  }

  lemma PassAll(plan: Plan, f: FlowState, heard: bool) returns (steps: seq<Step>, g: FlowState)
    requires SoundPlan(plan) && Passing(plan, f, heard) && (heard ==> plan.bound > plan.size)
    ensures Leads(plan, f, steps, g) && AllSent(plan, g, heard)
    decreases plan.size - f.sending.value.sent
  {
    var first, mid := PassOne(plan, f, heard);
    if AllSent(plan, mid, heard) {
      return first, mid;
    }
    var rest;
    rest, g := PassAll(plan, mid, heard);
    LeadsOn(plan, f, first, mid, rest, g);
    steps := first + rest;
  }

  lemma NothingMissing(k: nat)
    ensures RunsOf(AllTaken(k), k) == []
  {
    RunsUnique(RunsOf(AllTaken(k), k), [], AllTaken(k), k);
  }

  // Reading the announcement and FlowFinish then drops the baton.
  lemma LastNotice(plan: Plan, f: FlowState, heard: bool) returns (steps: seq<Step>, g: FlowState)
    requires SoundPlan(plan) && AllSent(plan, f, heard)
    requires if heard then plan.bound > plan.size else plan.bound == 0
    ensures Leads(plan, f, steps, g) && Stalled(g)
  {
    steps := [Arrive, Arrive, ReceiverNotice];
    var f1 := AfterArrive(f).value;
    var f2 := AfterArrive(f1).value;
    g := AfterReceiverNotice(f2).value;
    FlowSafety.LastIsMax(plan);
    NumPacketsBounds(plan.size, plan.payload);
    NothingMissing(NumPackets(plan.size, plan.payload));
    assert f2.notices == [FinishFlow(Last(plan))] && f2.signals == [];
    assert g.up == [] && g.notices == [];
    assert Leads(plan, g, [], g);
    assert Leads(plan, f2, [ReceiverNotice], g);
    assert [Arrive, ReceiverNotice][1..] == [ReceiverNotice];
    assert Leads(plan, f1, [Arrive, ReceiverNotice], g);
    assert steps[1..] == [Arrive, ReceiverNotice];
  }

  lemma Opening(plan: Plan, heard: bool) returns (steps: seq<Step>, g: FlowState)
    requires SoundPlan(plan)
    ensures Leads(plan, IDLE, steps, g) && Passing(plan, g, heard)
  {
    var f1 := Next(plan, IDLE, PostRecv).value;
    var f2 := Next(plan, f1, PopPost).value;
    var f3 := Next(plan, f2, PostSend).value;
    g := Next(plan, f3, PopRequest).value;
    SmallQuotient(0, plan.payload);
    NumPacketsBounds(plan.size, plan.payload);
    assert AllTaken(0) == [];
    steps := [PostRecv, PopPost, PostSend, PopRequest];
    assert Leads(plan, g, [], g);
    assert Leads(plan, f3, [PopRequest], g);
    assert [PostSend, PopRequest][1..] == [PopRequest];
    assert Leads(plan, f2, [PostSend, PopRequest], g);
    assert [PopPost, PostSend, PopRequest][1..] == [PostSend, PopRequest];
    assert Leads(plan, f1, [PopPost, PostSend, PopRequest], g);
    assert steps[1..] == [PopPost, PostSend, PopRequest];
  }

  // Exactly the bounds between one and the message size are safe.
  lemma StallsIffBadBound(plan: Plan)
    requires SoundPlan(plan)
    ensures MayStall(plan) <==> !(0 < plan.bound <= plan.size)
  {
    if 0 < plan.bound <= plan.size {
      forall steps, f | Leads(plan, IDLE, steps, f)
        ensures !Stalled(f)
      {
        IdleInv(plan);
        LeadsKeepsInv(plan, IDLE, steps, f);
      }
    } else {
      var heard := plan.bound > plan.size;
      var s1, f1 := Opening(plan, heard);
      var s2, f2 := PassAll(plan, f1, heard);
      var s3, f3 := LastNotice(plan, f2, heard);
      LeadsOn(plan, IDLE, s1, f1, s2, f2);
      LeadsOn(plan, IDLE, s1 + s2, f2, s3, f3);
    }
  }

  // The bound the receiving side computes is safe exactly when the part of the
  // message that must arrive is not empty and rounding it up to whole floats
  // does not pass the end.
  lemma BoundIsSafeIff(size: nat, lossRatio: real)
    requires 0.0 <= lossRatio <= 1.0
    ensures 0 < R.Bound(size, lossRatio) <= size <==>
            0 < R.Wanted(size, lossRatio) <= size / 4 * 4
  {
    AlignedFits(R.Wanted(size, lossRatio), size);
  }

  lemma AlignedFits(n: nat, size: nat)
    ensures 0 < R.AlignUp4(n) <= size <==> 0 < n <= size / 4 * 4
  {
    var q := (n + 3) / 4;
    assert 4 * q - 3 <= n <= 4 * q;
  }

  // Five bytes without tolerated loss: the bound is eight and the flow can stall.
  lemma FiveBytesStall()
    ensures R.Bound(5, 0.0) == 8
    ensures SoundPlan(Plan(0, 5, 8, 1452)) && MayStall(Plan(0, 5, 8, 1452))
  {
    StallsIffBadBound(Plan(0, 5, 8, 1452));
  }
}
