/**
 * What a receive completion reports: the payload bytes of the distinct packets of its
 * message that arrived while it was posted, counted from the deliveries of the run.
 */
module TransportBytes {
  import opened Common
  import opened Blocks
  import opened Packets
  import opened Messages
  import opened Wire
  import opened Flow
  import opened Transport
  import R = Receiver

  // The move delivers a packet to flow m's posted receive.
  predicate Hears(w: World, move: Move, m: nat) {
    w.World? && move.Deliver? && move.pkt.msgId == m && m in w.receiver.recv
  }

  // The sequence numbers of flow m that the first i moves have delivered so.
  ghost function Heard(moves: seq<Move>, worlds: seq<World>, i: nat, m: nat): set<nat>
    requires i <= |moves| && i <= |worlds|
  {
    if i == 0 then {}
    else Heard(moves, worlds, i - 1, m)
         + if Hears(worlds[i - 1], moves[i - 1], m) then {moves[i - 1].pkt.seqNum} else {}
  }

  // The payload of the packets with these numbers, of the first n.
  ghost function PayloadBytes(plan: Plan, heard: set<nat>, n: nat): int {
    if n == 0 then 0
    else PayloadBytes(plan, heard, n - 1)
         + if n - 1 in heard then PayloadOf(PacketAt(plan.msgId, plan.size, plan.payload, n - 1)) else 0
  }

  ghost function BytesHeard(plan: Plan, heard: set<nat>): int
    requires 0 < plan.payload
  {
    PayloadBytes(plan, heard, NumPackets(plan.size, plan.payload))
  }

  // The table marks exactly the numbers heard.
  ghost predicate MarksHeard(slots: seq<bool>, heard: set<nat>) {
    forall k: nat :: k in heard <==> k < |slots| && slots[k]
  }

  // Up to n, with nothing marked past the end of the table.
  lemma {:induction false} MarkedBytes(plan: Plan, slots: seq<bool>, heard: set<nat>, n: nat)
    requires SoundPlan(plan) && MarksHeard(slots, heard) && n <= NumPackets(plan.size, plan.payload)
    ensures PayloadBytes(plan, heard, n)
            == BytesTaken(if n <= |slots| then slots[..n] else slots, plan.size, plan.payload)
  {
    if n > 0 {
      MarkedBytes(plan, slots, heard, n - 1);
      ExactFields(plan.msgId, plan.size, plan.payload, n - 1);
      if n <= |slots| {
        assert Front(slots[..n]) == slots[..n - 1] && Back(slots[..n]) == slots[n - 1];
      } else if n == |slots| + 1 {
        assert slots[..n - 1] == slots;
      }
    }
  }

  lemma BytesOfTable(plan: Plan, slots: seq<bool>, heard: set<nat>)
    requires SoundPlan(plan) && MarksHeard(slots, heard) && |slots| <= NumPackets(plan.size, plan.payload)
    ensures BytesHeard(plan, heard) == BytesTaken(slots, plan.size, plan.payload)
  {
    MarkedBytes(plan, slots, heard, NumPackets(plan.size, plan.payload));
    assert slots[..|slots|] == slots;
  }

  // ---- One flow ----

  ghost predicate Tallies(plan: Plan, recv: Option<Posted>, recvDone: seq<nat>, heard: set<nat>)
    requires 0 < plan.payload
  {
    && (recv.Some? ==> MarksHeard(recv.value.slots, heard))
    && (recv.None? && recvDone == [] ==> heard == {})
    && (recvDone != [] ==> recvDone == [BytesHeard(plan, heard)])
  }

  // What a step adds to the numbers heard.
  function NewlyHeard(f: FlowState, step: Step): set<nat> {
    if step.Deliver? && f.recv.Some? then {step.pkt.seqNum} else {}
  }

  lemma AcceptMarks(r: Posted, pkt: Packet, heard: set<nat>)
    requires HEADER <= pkt.len && MarksHeard(r.slots, heard) && R.Accept(r, pkt).Ok?
    ensures MarksHeard(R.Accept(r, pkt).value.slots, heard + {pkt.seqNum})
  {
  }

  lemma DeliverTallies(plan: Plan, f: FlowState, pkt: Packet, heard: set<nat>)
    requires 0 < plan.payload && HEADER <= pkt.len && AfterDeliver(f, pkt).Ok?
    requires Tallies(plan, f.recv, f.recvDone, heard) && (f.recv.Some? ==> f.recvDone == [])
    ensures var g := AfterDeliver(f, pkt).value;
            Tallies(plan, g.recv, g.recvDone, heard + NewlyHeard(f, Step.Deliver(pkt)))
  {
    if f.recv.Some? {
      AcceptMarks(f.recv.value, pkt, heard);
    } else {
      assert heard + {} == heard;
    }
  }

  lemma NoticeTallies(plan: Plan, f: FlowState, heard: set<nat>)
    requires SoundPlan(plan) && f.notices != [] && AfterReceiverNotice(f).Ok?
    requires Tallies(plan, f.recv, f.recvDone, heard)
    requires f.recv.Some? ==> f.recvDone == [] && ReceiptOk(plan, f.recv.value)
    ensures var g := AfterReceiverNotice(f).value; Tallies(plan, g.recv, g.recvDone, heard)
  {
    if f.recv.Some? {
      BytesOfTable(plan, f.recv.value.slots, heard);
    }
  }

  lemma StepTallies(plan: Plan, f: FlowState, step: Step, heard: set<nat>)
    requires Inv(plan, f) && Enabled(f, step) && Next(plan, f, step).Ok?
    requires Tallies(plan, f.recv, f.recvDone, heard)
    ensures var g := Next(plan, f, step).value; Tallies(plan, g.recv, g.recvDone, heard + NewlyHeard(f, step))
  {
    assert heard + {} == heard;
    match step
    case Deliver(pkt) => DeliverTallies(plan, f, pkt, heard);
    case ReceiverNotice => NoticeTallies(plan, f, heard);
    case _ => OtherTallies(plan, f, step);
  }

  // No other step touches a posted receive or a completion.
  lemma OtherTallies(plan: Plan, f: FlowState, step: Step)
    requires 0 < plan.payload && Enabled(f, step) && Next(plan, f, step).Ok?
    requires !step.Deliver? && !step.ReceiverNotice?
    ensures var g := Next(plan, f, step).value;
            && g.recvDone == f.recvDone
            && (g.recv == f.recv || (step.PopPost? && f.recv.None? && g.recv.Some? && g.recv.value.slots == []))
  {
  }

  // ---- Every run ----

  ghost predicate WorldTallies(cfg: Config, w: World, m: nat, heard: set<nat>)
    requires GoodConfig(cfg) && m in cfg.plans
  {
    w.World? && Tallies(cfg.plans[m], Get(w.receiver.recv, m), About(w.receiver.completions, m), heard)
  }

  // As the flow's own view shows it.
  lemma TalliesInView(cfg: Config, w: World, m: nat, heard: set<nat>)
    requires GoodConfig(cfg) && m in cfg.plans && w.World?
    ensures WorldTallies(cfg, w, m, heard) <==>
            Tallies(cfg.plans[m], View(w, m).recv, View(w, m).recvDone, heard)
  {
  }

  lemma OwnTallies(cfg: Config, w: World, move: Move, m: nat, heard: set<nat>)
    requires GoodConfig(cfg) && CanMove(cfg, w, move) && FlowsAs(cfg, w, move, m)
    requires WorldTallies(cfg, w, m, heard)
    ensures WorldTallies(cfg, Go(cfg, w, move), m, heard + NewlyHeard(View(w, m), StepOf(move)))
  {
    TalliesInView(cfg, w, m, heard);
    StepTallies(cfg.plans[m], View(w, m), StepOf(move), heard);
    TalliesInView(cfg, Go(cfg, w, move), m, heard + NewlyHeard(View(w, m), StepOf(move)));
  }

  // The move is a step of flow m that fails no CHECK.
  ghost predicate FlowsAs(cfg: Config, w: World, move: Move, m: nat)
    requires GoodConfig(cfg) && CanMove(cfg, w, move)
  {
    && m in cfg.plans && Inv(cfg.plans[m], View(w, m)) && !move.DispatchUp?
    && Enabled(View(w, m), StepOf(move)) && Go(cfg, w, move).World?
    && Next(cfg.plans[m], View(w, m), StepOf(move)) == Ok(View(Go(cfg, w, move), m))
  }

  lemma MoveTallies(cfg: Config, w: World, move: Move, m: nat, heard: set<nat>)
    requires GoodConfig(cfg) && CanMove(cfg, w, move) && AllFine(cfg, w) && m in cfg.plans
    requires WorldTallies(cfg, w, m, heard)
    ensures WorldTallies(cfg, Go(cfg, w, move), m,
                         heard + if Hears(w, move, m) then {move.pkt.seqNum} else {})
  {
    MoveFine(cfg, w, move);
    TargetPlanned(cfg, w, move);
    MoveProjects(cfg, w, move, m);
    assert FlowFine(cfg, w, m);
    if m == Target(w, move) && !move.DispatchUp? {
      OwnTallies(cfg, w, move, m, heard);
      assert NewlyHeard(View(w, m), StepOf(move)) == if Hears(w, move, m) then {move.pkt.seqNum} else {};
    } else {
      assert heard + {} == heard && !Hears(w, move, m);
      TalliesInView(cfg, w, m, heard);
      TalliesInView(cfg, Go(cfg, w, move), m, heard);
    }
  }

  lemma {:induction false} RunTallies(cfg: Config, moves: seq<Move>, worlds: seq<World>, i: nat, m: nat)
    requires GoodConfig(cfg) && Run(cfg, moves, worlds) && i < |worlds| && m in cfg.plans
    ensures WorldTallies(cfg, worlds[i], m, Heard(moves, worlds, i, m))
  {
    if i > 0 {
      RunTallies(cfg, moves, worlds, i - 1, m);
      EveryRunFine(cfg, moves, worlds, i - 1);
      MoveTallies(cfg, worlds[i - 1], moves[i - 1], m, Heard(moves, worlds, i - 1, m));
    }
  }

  /**
   * In every run a posted receive has counted, and a completed one has reported, exactly
   * the payload of the distinct packets of its message delivered to it.
   */
  lemma CompletionReportsBytesHeard(cfg: Config, moves: seq<Move>, worlds: seq<World>, i: nat, m: nat)
    requires GoodConfig(cfg) && Run(cfg, moves, worlds) && i < |worlds| && m in cfg.plans
    ensures worlds[i].World?
    ensures var bytes := BytesHeard(cfg.plans[m], Heard(moves, worlds, i, m));
            && (m in worlds[i].receiver.recv ==> worlds[i].receiver.recv[m].bytes == bytes)
            && (About(worlds[i].receiver.completions, m) != [] ==>
                  About(worlds[i].receiver.completions, m) == [bytes])
  {
    RunTallies(cfg, moves, worlds, i, m);
    EveryRunFine(cfg, moves, worlds, i);
    assert FlowFine(cfg, worlds[i], m);
    if m in worlds[i].receiver.recv {
      var r := worlds[i].receiver.recv[m];
      assert View(worlds[i], m).recv == Some(r);
      BytesOfTable(cfg.plans[m], r.slots, Heard(moves, worlds, i, m));
    }
  }
}
