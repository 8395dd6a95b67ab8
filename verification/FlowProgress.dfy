/**
 * Completion stays within reach: from every state a posted flow can get into,
 * some continuation ends with both completions.  At every moment one party can
 * take a helpful step, and helpful steps cannot go on for ever.
 */
module FlowProgress {
  import opened Blocks
  import opened Packets
  import opened Messages
  import opened Flow
  import FlowSafety
  import S = Sender
  import opened RetransmitService

  // The steps lead from f to g.
  ghost predicate Leads(plan: Plan, f: FlowState, steps: seq<Step>, g: FlowState)
    requires 0 < plan.payload
    decreases |steps|
  {
    if steps == [] then f == g
    else
      && Enabled(f, steps[0]) && Next(plan, f, steps[0]).Ok?
      && Leads(plan, Next(plan, f, steps[0]).value, steps[1..], g)
  }

  // The posted receive does not have packet k.
  predicate Misses(f: FlowState, k: nat) {
    f.recv.Some? && !(k < |f.recv.value.slots| && f.recv.value.slots[k])
  }

  ghost predicate NewsInFlight(f: FlowState) {
    exists pkt :: pkt in f.packets && Misses(f, pkt.seqNum)
  }

  // ---- How far a flow is from completion, lexicographically ----

  function MissingBytes(plan: Plan, f: FlowState): int {
    if f.recv.Some? then plan.size - f.recv.value.bytes else plan.size
  }

  ghost function Stage(f: FlowState): nat {
    if f.posts != [] then 9
    else if Stopped(f) then 0
    else if NewsInFlight(f) then 1
    else if f.pending.Some? then (if Misses(f, f.pending.value.seqNum) then 2 else 5)
    else if f.up != [] then
      (if f.up[0].Retransmit? && f.up[0].blocks != [] && Misses(f, f.up[0].blocks[0].first)
       then 3 else 6)
    else if f.sending.Some? then 7
    else if f.requests != [] then 8
    else 4
  }

  ghost function Effort(plan: Plan, f: FlowState): int
    requires 0 < plan.payload
    requires f.pending.Some? ==> CursorStays(plan, f.pending.value)
  {
    if Stopped(f) then |f.up|
    else if f.pending.Some? then |ToServe(f.pending.value, NumPackets(plan.size, plan.payload))|
    else if f.sending.Some? then plan.size - f.sending.value.sent
    else 0
  }

  ghost predicate CursorStays(plan: Plan, p: S.Pending)
    requires 0 < plan.payload
  {
    Separated(p.blocks, NumPackets(plan.size, plan.payload)) && S.CursorInside(p)
  }

  // g is closer to completion than f.
  ghost predicate Closer(plan: Plan, g: FlowState, f: FlowState)
    requires Inv(plan, f) && Inv(plan, g)
  {
    var m, m' := MissingBytes(plan, f), MissingBytes(plan, g);
    var s, s' := Stage(f), Stage(g);
    var e, e' := Effort(plan, f), Effort(plan, g);
    m' < m || (m' == m && (s' < s || (s' == s && (e' < e || (e' == e &&
      (|g.signals| < |f.signals| || (|g.signals| == |f.signals| && |g.notices| < |f.notices|)))))))
  }

  // What a helpful step achieves.
  ghost predicate Helps(plan: Plan, f: FlowState, step: Step)
    requires Inv(plan, f)
  {
    && Enabled(f, step) && Next(plan, f, step).Ok? && Inv(plan, Next(plan, f, step).value)
    && (var g := Next(plan, f, step).value;
        g.sendPosted == f.sendPosted && g.recvPosted == f.recvPosted
        && (g.recvDone != [] || Closer(plan, g, f)))
  }

  // ---- One helpful step for every stage ----

  lemma HelpUnposted(plan: Plan, f: FlowState)
    requires Inv(plan, f) && f.posts != []
    ensures Helps(plan, f, PopPost)
  {
    FlowSafety.PopPostKeeps(plan, f);
  }

  // The stop is on its way round: up, down, and into the receiving thread.
  lemma HelpStopUp(plan: Plan, f: FlowState)
    requires Inv(plan, f) && Stopped(f) && f.recvDone == [] && f.up != []
    ensures Helps(plan, f, SenderNotice)
  {
    FlowSafety.SenderNoticeKeeps(plan, f);
  }

  lemma HelpStopIn(plan: Plan, f: FlowState)
    requires Inv(plan, f) && Stopped(f) && f.recvDone == [] && f.up == [] && f.signals == []
    ensures Helps(plan, f, ReceiverNotice)
  {
    assert f.notices != [];
    FlowSafety.StepKeeps(plan, f, ReceiverNotice);
  }

  // A packet the receive does not have yet arrives.
  lemma HelpNews(plan: Plan, f: FlowState) returns (step: Step)
    requires Inv(plan, f) && NewsInFlight(f) && !Stopped(f)
    ensures Helps(plan, f, step)
  {
    var pkt :| pkt in f.packets && Misses(f, pkt.seqNum);
    FlowSafety.OwnPacketAt(plan, pkt.seqNum);
    ExactFields(plan.msgId, plan.size, plan.payload, pkt.seqNum);
    StartStep(plan.size, plan.payload, pkt.seqNum);
    step := Deliver(pkt);
    FlowSafety.DeliverKeeps(plan, f, pkt);
  }

  // A pending request sends the packet under its cursor.
  lemma HelpPending(plan: Plan, f: FlowState)
    requires Inv(plan, f) && !Stopped(f) && f.posts == [] && !NewsInFlight(f) && f.pending.Some?
    ensures Helps(plan, f, ResendOne)
  {
    FlowSafety.ResendOneKeeps(plan, f);
    var p := f.pending.value;
    var n := NumPackets(plan.size, plan.payload);
    AdvanceInside(p, n);
    FinishOnlyAtEnd(p, n);
    NonEmptyBlocks(p.blocks, n, p.blockNum);
    FlowSafety.OwnPacketAt(plan, p.seqNum);
    SentIsNews(plan, f, Next(plan, f, ResendOne).value, p.seqNum);
  }

  // A packet that has just been sent is news exactly when the receive misses it.
  lemma SentIsNews(plan: Plan, f: FlowState, g: FlowState, k: nat)
    requires GoodPlan(plan) && k < NumPackets(plan.size, plan.payload)
    requires g.recv == f.recv && !NewsInFlight(f)
    requires g.packets == f.packets + {PacketAt(plan.msgId, plan.size, plan.payload, k)}
    ensures NewsInFlight(g) <==> Misses(f, k)
  {
    var pkt := PacketAt(plan.msgId, plan.size, plan.payload, k);
    FlowSafety.OwnPacketAt(plan, k);
    FlowSafety.SeqNumAt(plan, k);
    assert pkt in g.packets;
  }

  // A request that has arrived starts to be served.
  lemma HelpRequest(plan: Plan, f: FlowState)
    requires Inv(plan, f) && !Stopped(f) && f.posts == [] && !NewsInFlight(f)
    requires f.pending.None? && f.up != []
    ensures Helps(plan, f, SenderNotice)
  {
    FlowSafety.SenderNoticeKeeps(plan, f);
  }

  // The first pass goes on.
  lemma HelpFirstPass(plan: Plan, f: FlowState)
    requires Inv(plan, f) && !Stopped(f) && f.posts == [] && !NewsInFlight(f)
    requires f.pending.None? && f.up == [] && f.sending.Some?
    ensures Helps(plan, f, SendOne)
  {
    FlowSafety.SendOneKeeps(plan, f);
    var o := f.sending.value;
    var k := FirstPassNumber(plan, o);
    StartStep(plan.size, plan.payload, k);
    SentIsNews(plan, f, AfterSend(plan, f), k);
  }

  // The packet a first pass sends next.
  lemma FirstPassNumber(plan: Plan, o: S.Outgoing) returns (k: nat)
    requires SoundPlan(plan) && OnTrack(plan, o)
    ensures k < NumPackets(plan.size, plan.payload) && k * plan.payload == o.sent
    ensures MakePacket(plan.msgId, o.size, plan.payload, o.sent, o.sent / plan.payload)
            == PacketAt(plan.msgId, plan.size, plan.payload, k)
  {
    k := o.sent / plan.payload;
    PacketStarts(plan.size, plan.payload, k);
  }

  lemma HelpQueued(plan: Plan, f: FlowState)
    requires Inv(plan, f) && !Stopped(f) && f.posts == [] && !NewsInFlight(f)
    requires f.pending.None? && f.up == [] && f.sending.None? && f.requests != []
    ensures Helps(plan, f, PopRequest)
  {
    FlowSafety.PopRequestKeeps(plan, f);
  }

  lemma FewerSignals(plan: Plan, f: FlowState, g: FlowState)
    requires Inv(plan, f) && Inv(plan, g) && |g.signals| < |f.signals|
    requires g.posts == f.posts && g.recv == f.recv && g.packets == f.packets && g.recvDone == f.recvDone
    requires g.pending == f.pending && g.up == f.up && g.sending == f.sending && g.requests == f.requests
    ensures Closer(plan, g, f)
  {
    assert Stopped(g) == Stopped(f);
    assert NewsInFlight(g) <==> NewsInFlight(f);
    assert Stage(g) == Stage(f) && Effort(plan, g) == Effort(plan, f);
  }

  lemma ArriveFields(f: FlowState)
    requires f.signals != [] && AfterArrive(f).Ok?
    ensures var g := AfterArrive(f).value;
            && g == f.(signals := f.signals[1..], notices := g.notices, maxSeq := g.maxSeq)
  {
  }

  // A signal arrives, FlowFinish or the confirmation of a stop among them.
  lemma HelpDown(plan: Plan, f: FlowState)
    requires Inv(plan, f) && f.signals != []
    ensures Helps(plan, f, Arrive)
  {
    FlowSafety.ArriveKeeps(plan, f);
    ArriveFields(f);
    FewerSignals(plan, f, AfterArrive(f).value);
  }

  // The request FlowFinish causes starts with a packet the receive misses.
  lemma HelpFinishIn(plan: Plan, f: FlowState)
    requires Inv(plan, f) && !Stopped(f) && f.posts == [] && !NewsInFlight(f)
    requires f.pending.None? && f.up == [] && f.sending.None? && f.requests == []
    requires f.signals == [] && f.sendPosted && f.recvPosted
    ensures Helps(plan, f, ReceiverNotice)
  {
    assert f.notices != [];
    assert f.recv.Some?;
    FlowSafety.StepKeeps(plan, f, ReceiverNotice);
    var r := f.recv.value;
    FlowSafety.UnfinishedMissesSome(plan, r);
    var slots := Covering(r.slots, Last(plan));
    FirstBlockIsMissing(slots);
    var g := Next(plan, f, ReceiverNotice).value;
    assert MissingBytes(plan, g) == MissingBytes(plan, f);
    assert Stage(g) == 3 && Stage(f) == 4;
  }

  lemma FirstBlockIsMissing(slots: seq<bool>)
    requires RunsOf(slots, |slots|) != []
    ensures var k := RunsOf(slots, |slots|)[0].first; k < |slots| && !slots[k]
  {
    var blocks := RunsOf(slots, |slots|);
    NonEmptyBlocks(blocks, |slots|, 0);
    CoveredByIndex(blocks, blocks[0].first);
  }

  lemma HelpfulStep(plan: Plan, f: FlowState) returns (step: Step)
    requires Inv(plan, f) && f.sendPosted && f.recvPosted && f.recvDone == []
    ensures Helps(plan, f, step)
  {
    if f.posts != [] {
      step := PopPost;
      HelpUnposted(plan, f);
    } else if Stopped(f) {
      step := HelpfulStop(plan, f);
    } else if NewsInFlight(f) {
      step := HelpNews(plan, f);
    } else if f.pending.Some? {
      step := ResendOne;
      HelpPending(plan, f);
    } else if f.up != [] {
      step := SenderNotice;
      HelpRequest(plan, f);
    } else if f.sending.Some? {
      step := SendOne;
      HelpFirstPass(plan, f);
    } else if f.requests != [] {
      step := PopRequest;
      HelpQueued(plan, f);
    } else if f.signals != [] {
      step := Arrive;
      HelpDown(plan, f);
    } else {
      step := ReceiverNotice;
      HelpFinishIn(plan, f);
    }
  }

  lemma HelpfulStop(plan: Plan, f: FlowState) returns (step: Step)
    requires Inv(plan, f) && Stopped(f) && f.recvDone == []
    ensures Helps(plan, f, step)
  {
    if f.up != [] {
      step := SenderNotice;
      HelpStopUp(plan, f);
    } else if f.signals != [] {
      step := Arrive;
      HelpDown(plan, f);
    } else {
      step := ReceiverNotice;
      HelpStopIn(plan, f);
    }
  }

  lemma MissingBytesNat(plan: Plan, f: FlowState)
    requires Inv(plan, f)
    ensures 0 <= MissingBytes(plan, f) && 0 <= Effort(plan, f)
  {
    if f.recv.Some? {
      BytesTakenBound(f.recv.value.slots, plan.size, plan.payload);
    }
  }

  // From every state of a posted flow completion can still be reached.
  lemma CanComplete(plan: Plan, f: FlowState) returns (steps: seq<Step>, g: FlowState)
    requires Inv(plan, f) && f.sendPosted && f.recvPosted
    ensures Leads(plan, f, steps, g)
    ensures Inv(plan, g) && g.recvDone != [] && g.sendDone == 1
    decreases f.recvDone == [], MissingBytes(plan, f), Stage(f), Effort(plan, f), |f.signals|, |f.notices|
  {
    if f.recvDone != [] {
      return [], f;
    }
    MissingBytesNat(plan, f);
    var step := HelpfulStep(plan, f);
    var next := Next(plan, f, step).value;
    MissingBytesNat(plan, next);
    var rest;
    rest, g := CanComplete(plan, next);
    steps := [step] + rest;
    assert steps[1..] == rest;
  }

  // A message posted on both sides can be sent and received to the end.
  lemma CompletesFromIdle(plan: Plan) returns (steps: seq<Step>, g: FlowState)
    requires GoodPlan(plan)
    ensures Leads(plan, IDLE, steps, g)
    ensures Inv(plan, g) && g.recvDone != [] && g.sendDone == 1
  {
    IdleInv(plan);
    FlowSafety.PostSendKeeps(plan, IDLE);
    var f := Next(plan, IDLE, PostSend).value;
    FlowSafety.PostRecvKeeps(plan, f);
    var rest;
    rest, g := CanComplete(plan, Next(plan, f, PostRecv).value);
    steps := [PostSend, PostRecv] + rest;
    assert steps[1..][0] == PostRecv && steps[1..][1..] == rest;
  }
}
