/**
 * Retransmit requests in the runs of a whole connection, with first passes of other
 * flows in between and smaller ids served first: what is sent for a request is what
 * was missing from the receiver's table when the request was made.
 */
module RetransmitRun {
  import opened Common
  import opened Blocks
  import opened Packets
  import opened Messages
  import opened Wire
  import opened Flow
  import opened Transport
  import opened RetransmitService
  import FlowSafety
  import S = Sender

  // ---- Where a request comes from ----

  // The receiver's table for a flow, empty before the receive is posted.
  ghost function Table(f: FlowState): seq<bool> {
    if f.recv.Some? then f.recv.value.slots else []
  }

  // The table as FinishFlow looks at it, with a slot for every packet.
  ghost function FullTable(plan: Plan, f: FlowState): seq<bool>
    requires 0 < plan.payload
  {
    Covering(Table(f), Last(plan))
  }

  // These blocks are what FinishFlow asks for in this state.
  ghost predicate MadeFrom(plan: Plan, f: FlowState, blocks: seq<Block>)
    requires 0 < plan.payload
  {
    && f.notices != [] && f.notices[0].FinishFlow?
    && blocks == RunsOf(FullTable(plan, f), |FullTable(plan, f)|)
  }

  // A request with these blocks is under way or being served.
  ghost predicate Asks(f: FlowState, blocks: seq<Block>) {
    Retransmit(blocks) in f.up || (f.pending.Some? && f.pending.value.blocks == blocks)
  }

  // Before the receive is posted everything is missing.
  lemma WholeTableRuns(v: nat)
    ensures RunsOf(Covering([], v), |Covering([], v)|) == [Block(0, v + 1)]
  {
    var slots := Covering([], v);
    assert |slots| == v + 1;
    var whole := [Block(0, v + 1)];
    assert Front(whole) == [] && Back(whole) == Block(0, v + 1);
    RunsDetermined(RunsOf(slots, |slots|), whole, slots);
  }

  lemma NoticeAsks(plan: Plan, f: FlowState, blocks: seq<Block>)
    requires 0 < plan.payload && f.notices != [] && AfterReceiverNotice(f).Ok?
    requires f.notices[0].FinishFlow? ==> f.notices[0].maxSeq == Last(plan)
    requires Asks(AfterReceiverNotice(f).value, blocks)
    ensures Asks(f, blocks) || MadeFrom(plan, f, blocks)
  {
    var g := AfterReceiverNotice(f).value;
    if !Asks(f, blocks) {
      assert g.pending == f.pending && Retransmit(blocks) in g.up && Retransmit(blocks) !in f.up;
      assert f.notices[0].FinishFlow?;
      if f.recv.None? {
        WholeTableRuns(Last(plan));
      }
    }
  }

  lemma SenderNoticeAsks(f: FlowState, blocks: seq<Block>)
    requires f.up != [] && AfterSenderNotice(f).Ok? && Asks(AfterSenderNotice(f).value, blocks)
    ensures Asks(f, blocks)
  {
    var g := AfterSenderNotice(f).value;
    if Retransmit(blocks) in f.up[1..] {
      assert Retransmit(blocks) in f.up;
    } else {
      assert f.up[0] in f.up;
    }
  }

  lemma ResendAsks(plan: Plan, f: FlowState, blocks: seq<Block>)
    requires 0 < plan.payload && f.pending.Some? && AfterResend(plan, f).Ok?
    requires Asks(AfterResend(plan, f).value, blocks)
    ensures Asks(f, blocks)
  {
  }

  lemma OtherStepAsks(plan: Plan, f: FlowState, step: Step, blocks: seq<Block>)
    requires 0 < plan.payload && Enabled(f, step) && Next(plan, f, step).Ok?
    requires !step.ReceiverNotice? && !step.SenderNotice? && !step.ResendOne?
    requires Asks(Next(plan, f, step).value, blocks)
    ensures Asks(f, blocks)
  {
  }

  lemma AsksStep(plan: Plan, f: FlowState, step: Step, blocks: seq<Block>)
    requires Inv(plan, f) && Enabled(f, step) && Next(plan, f, step).Ok?
    requires Asks(Next(plan, f, step).value, blocks)
    ensures Asks(f, blocks) || (step.ReceiverNotice? && MadeFrom(plan, f, blocks))
  {
    match step
    case ReceiverNotice => NoticeAsks(plan, f, blocks);
    case SenderNotice => SenderNoticeAsks(f, blocks);
    case ResendOne => ResendAsks(plan, f, blocks);
    case _ => OtherStepAsks(plan, f, step, blocks);
  }

  // One move of the connection, seen from flow m.
  lemma MoveAsks(cfg: Config, w: World, move: Move, m: nat, blocks: seq<Block>)
    requires GoodConfig(cfg) && CanMove(cfg, w, move) && AllFine(cfg, w) && m in cfg.plans
    ensures Go(cfg, w, move).World?
    ensures Asks(View(Go(cfg, w, move), m), blocks) ==>
              || Asks(View(w, m), blocks)
              || (move.ReceiverNotice? && Target(w, move) == m && MadeFrom(cfg.plans[m], View(w, m), blocks))
  {
    MoveFine(cfg, w, move);
    TargetPlanned(cfg, w, move);
    MoveProjects(cfg, w, move, m);
    assert FlowFine(cfg, w, m);
    if Asks(View(Go(cfg, w, move), m), blocks) && m == Target(w, move) && !move.DispatchUp? {
      AsksStep(cfg.plans[m], View(w, m), StepOf(move), blocks);
    }
  }

  // Every request under way or being served was made by an earlier FinishFlow of its
  // flow, from the table the receiver had then.
  lemma {:induction false} RequestOrigin(cfg: Config, moves: seq<Move>, worlds: seq<World>, i: nat, m: nat,
                                         blocks: seq<Block>) returns (a: nat)
    requires GoodConfig(cfg) && Run(cfg, moves, worlds) && i < |worlds| && m in cfg.plans
    requires worlds[i].World? && Asks(View(worlds[i], m), blocks)
    ensures a < i && moves[a].ReceiverNotice? && worlds[a].World? && Target(worlds[a], moves[a]) == m
    ensures MadeFrom(cfg.plans[m], View(worlds[a], m), blocks)
  {
    assert i > 0 by {
      assert View(START, m).up == [] && View(START, m).pending.None?;
    }
    EveryRunFine(cfg, moves, worlds, i - 1);
    MoveAsks(cfg, worlds[i - 1], moves[i - 1], m, blocks);
    if Asks(View(worlds[i - 1], m), blocks) {
      a := RequestOrigin(cfg, moves, worlds, i - 1, m, blocks);
    } else {
      a := i - 1;
    }
  }

  // ---- What is sent for a request ----

  // The packets of message m handed to the UDP endpoints so far, in order.
  ghost function SentOf(packets: seq<Packet>, m: nat): seq<Packet> {
    if packets == [] then []
    else SentOf(Front(packets), m) + if Back(packets).msgId == m then [Back(packets)] else []
  }

  lemma SentOfAppend(packets: seq<Packet>, pkt: Packet, m: nat)
    ensures SentOf(packets + [pkt], m) == SentOf(packets, m) + if pkt.msgId == m then [pkt] else []
  {
    assert Front(packets + [pkt]) == packets;
  }

  // Only the two sending moves send, and only for the flow they are about.
  lemma SendOneSends(cfg: Config, w: World, m: nat)
    requires GoodConfig(cfg) && CanMove(cfg, w, Move.SendOne) && m != MinKey(w.sender.sending)
    ensures SentOf(Go(cfg, w, Move.SendOne).sender.packets, m) == SentOf(w.sender.packets, m)
  {
    var t := MinKey(w.sender.sending);
    var o := w.sender.sending[t];
    SentOfAppend(w.sender.packets, MakePacket(t, o.size, cfg.payload, o.sent, o.sent / cfg.payload), m);
  }

  lemma ResendOneSends(cfg: Config, w: World, m: nat)
    requires GoodConfig(cfg) && CanMove(cfg, w, Move.ResendOne) && Go(cfg, w, Move.ResendOne).World?
    ensures var t := MinKey(w.sender.pending);
            && t in w.sender.retransmitting
            && SentOf(Go(cfg, w, Move.ResendOne).sender.packets, m) == SentOf(w.sender.packets, m)
                 + if m != t then []
                   else [PacketAt(t, w.sender.retransmitting[t].size, cfg.payload, w.sender.pending[t].seqNum)]
  {
    var t := MinKey(w.sender.pending);
    SentOfAppend(w.sender.packets,
                 PacketAt(t, w.sender.retransmitting[t].size, cfg.payload, w.sender.pending[t].seqNum), m);
  }

  lemma OthersSendNothing(cfg: Config, w: World, move: Move)
    requires GoodConfig(cfg) && CanMove(cfg, w, move) && Go(cfg, w, move).World?
    requires !move.SendOne? && !move.ResendOne?
    ensures Go(cfg, w, move).sender.packets == w.sender.packets
  {
  }

  // What a request of the flow still has to send.
  ghost function Rest(plan: Plan, p: S.Pending): seq<Packet>
    requires 0 < plan.payload
  {
    var n := NumPackets(plan.size, plan.payload);
    if Separated(p.blocks, n) && S.CursorInside(p)
    then PacketsAt(plan.msgId, plan.size, plan.payload, ToServe(p, n)) else []
  }

  lemma PendingFine(cfg: Config, w: World, m: nat)
    requires GoodConfig(cfg) && AllFine(cfg, w) && m in cfg.plans && m in w.sender.pending
    ensures Separated(w.sender.pending[m].blocks, NumPackets(cfg.plans[m].size, cfg.payload))
    ensures S.CursorInside(w.sender.pending[m])
    ensures m in w.sender.retransmitting && w.sender.retransmitting[m].size == cfg.plans[m].size
    ensures m !in w.sender.sending
    ensures Count(About(w.sender.signals, m), IsFinish()) == 0
    ensures Count(About(w.receiver.notices, m), IsFinishNotice()) == 0
  {
    assert FlowFine(cfg, w, m);
    HoldersAreBatons(w, m);
    var f := View(w, m);
    assert f.pending == Some(w.sender.pending[m]);
    assert f.retransmitting.Some? && f.sending.None?;
  }

  // A pending request is touched by its own service and by a stop, and by nothing else.
  lemma PendingOnlyBy(plan: Plan, f: FlowState, step: Step)
    requires Inv(plan, f) && f.pending.Some? && Enabled(f, step) && !step.ResendOne?
    ensures Next(plan, f, step).Ok?
    ensures var g := Next(plan, f, step).value;
            g.pending == f.pending || (step.SenderNotice? && f.up[0].Stop? && g.pending.None?)
  {
    FlowSafety.StepKeeps(plan, f, step);
  }

  // The move serves flow m's own request.
  predicate Serves(w: World, move: Move, m: nat)
    requires w.World?
  {
    move.ResendOne? && w.sender.pending != map[] && m == MinKey(w.sender.pending)
  }

  predicate Stops(w: World, move: Move, m: nat)
    requires w.World?
  {
    move.SenderNotice? && w.sender.notices != [] && w.sender.notices[0] == Tagged(m, Stop)
  }

  lemma OtherMoveSends(cfg: Config, w: World, move: Move, m: nat)
    requires GoodConfig(cfg) && CanMove(cfg, w, move) && Go(cfg, w, move).World?
    requires !Serves(w, move, m) && m !in w.sender.sending
    ensures SentOf(Go(cfg, w, move).sender.packets, m) == SentOf(w.sender.packets, m)
  {
    if move.SendOne? {
      SendOneSends(cfg, w, m);
    } else if move.ResendOne? {
      ResendOneSends(cfg, w, m);
    } else {
      OthersSendNothing(cfg, w, move);
    }
  }

  lemma OtherMove(cfg: Config, w: World, move: Move, m: nat)
    requires GoodConfig(cfg) && CanMove(cfg, w, move) && AllFine(cfg, w) && m in cfg.plans
    requires m in w.sender.pending && !Serves(w, move, m)
    ensures Go(cfg, w, move).World?
    ensures var s, s' := w.sender, Go(cfg, w, move).sender;
            && SentOf(s'.packets, m) == SentOf(s.packets, m)
            && if m in s'.pending then s'.pending[m] == s.pending[m] else Stops(w, move, m)
  {
    MoveFine(cfg, w, move);
    TargetPlanned(cfg, w, move);
    MoveProjects(cfg, w, move, m);
    PendingFine(cfg, w, m);
    OtherMoveSends(cfg, w, move, m);
    assert FlowFine(cfg, w, m);
    if m == Target(w, move) && !move.DispatchUp? {
      PendingOnlyBy(cfg.plans[m], View(w, m), StepOf(move));
    }
    var f, g := View(w, m), View(Go(cfg, w, move), m);
    assert f.pending == Some(w.sender.pending[m]);
    assert g.pending == Get(Go(cfg, w, move).sender.pending, m);
  }

  lemma OwnMove(cfg: Config, w: World, move: Move, m: nat)
    requires GoodConfig(cfg) && CanMove(cfg, w, move) && AllFine(cfg, w) && m in cfg.plans
    requires m in w.sender.pending && Serves(w, move, m)
    ensures Go(cfg, w, move).World?
    ensures var s, s', p := w.sender, Go(cfg, w, move).sender, w.sender.pending[m];
            && SentOf(s'.packets, m) ==
                 SentOf(s.packets, m) + [PacketAt(m, cfg.plans[m].size, cfg.payload, p.seqNum)]
            && S.CursorInside(p)
            && (m in s'.pending <==> !S.AtEnd(p))
            && (m in s'.pending ==> s'.pending[m] == S.Advance(p))
            && About(s'.signals, m) == About(s.signals, m) + FinishIf(S.AtEnd(p))
  {
    MoveFine(cfg, w, move);
    PendingFine(cfg, w, m);
    ResendOneSends(cfg, w, m);
    AdvanceInside(w.sender.pending[m], NumPackets(cfg.plans[m].size, cfg.payload));
    AboutAppend(w.sender.signals, Tagged(m, Finish), m);
    assert w.sender.signals + [] == w.sender.signals;
  }

  // The packets of flow m sent and still to be sent for its request are the same ones.
  ghost predicate Carries(plan: Plan, s: S.SenderState, s': S.SenderState, m: nat)
    requires 0 < plan.payload && m in s.pending && m in s'.pending
  {
    && SentOf(s.packets, m) <= SentOf(s'.packets, m)
    && SentOf(s'.packets, m) + Rest(plan, s'.pending[m]) == SentOf(s.packets, m) + Rest(plan, s.pending[m])
  }

  // The request has been served to its end: all of it is sent and FlowFinish is behind.
  ghost predicate Ends(plan: Plan, s: S.SenderState, s': S.SenderState, m: nat)
    requires 0 < plan.payload && m in s.pending
  {
    && SentOf(s'.packets, m) == SentOf(s.packets, m) + Rest(plan, s.pending[m])
    && About(s'.signals, m) == About(s.signals, m) + [Finish]
  }

  lemma OwnCarries(plan: Plan, s: S.SenderState, s': S.SenderState, m: nat)
    requires 0 < plan.payload && plan.msgId == m && m in s.pending
    requires Separated(s.pending[m].blocks, NumPackets(plan.size, plan.payload)) && S.CursorInside(s.pending[m])
    requires SentOf(s'.packets, m) ==
             SentOf(s.packets, m) + [PacketAt(m, plan.size, plan.payload, s.pending[m].seqNum)]
    requires m in s'.pending <==> !S.AtEnd(s.pending[m])
    requires m in s'.pending ==> s'.pending[m] == S.Advance(s.pending[m])
    requires About(s'.signals, m) == About(s.signals, m) + FinishIf(S.AtEnd(s.pending[m]))
    ensures if m in s'.pending then Carries(plan, s, s', m) else Ends(plan, s, s', m)
  {
    var n := NumPackets(plan.size, plan.payload);
    ToServeStep(s.pending[m], n, m, plan.size, plan.payload);
    if m in s'.pending {
      Regroup(SentOf(s.packets, m), [PacketAt(m, plan.size, plan.payload, s.pending[m].seqNum)],
              Rest(plan, s'.pending[m]));
    }
  }

  // What has been sent and what is left to send make up the same packets before and
  // after every move; the request ends with its last packet and FlowFinish, or with a
  // stop.
  lemma PendingStep(cfg: Config, w: World, move: Move, m: nat)
    requires GoodConfig(cfg) && CanMove(cfg, w, move) && AllFine(cfg, w) && m in cfg.plans
    requires m in w.sender.pending
    ensures Go(cfg, w, move).World?
    ensures var s, s' := w.sender, Go(cfg, w, move).sender;
            if m in s'.pending then Carries(cfg.plans[m], s, s', m)
            else if Stops(w, move, m) then SentOf(s'.packets, m) == SentOf(s.packets, m)
            else Ends(cfg.plans[m], s, s', m)
  {
    var plan := cfg.plans[m];
    PendingFine(cfg, w, m);
    if Serves(w, move, m) {
      OwnMove(cfg, w, move, m);
      OwnCarries(plan, w.sender, Go(cfg, w, move).sender, m);
    } else {
      OtherMove(cfg, w, move, m);
    }
  }

  // ---- Over a run ----

  ghost predicate PendingAll(worlds: seq<World>, i: nat, j: nat, m: nat) {
    i <= j < |worlds| && forall x :: i <= x <= j ==> worlds[x].World? && m in worlds[x].sender.pending
  }

  lemma PendingAtBoth(worlds: seq<World>, i: nat, j: nat, m: nat)
    requires PendingAll(worlds, i, j, m)
    ensures worlds[i].World? && m in worlds[i].sender.pending
    ensures worlds[j].World? && m in worlds[j].sender.pending
    ensures i < j ==> PendingAll(worlds, i, j - 1, m)
  {
  }

  lemma PendingRunStep(cfg: Config, moves: seq<Move>, worlds: seq<World>, j: nat, m: nat)
    requires GoodConfig(cfg) && Run(cfg, moves, worlds) && m in cfg.plans && j < |moves|
    requires worlds[j].World? && m in worlds[j].sender.pending
    ensures worlds[j + 1].World?
    ensures var s, s' := worlds[j].sender, worlds[j + 1].sender;
            if m in s'.pending then Carries(cfg.plans[m], s, s', m)
            else if Stops(worlds[j], moves[j], m) then SentOf(s'.packets, m) == SentOf(s.packets, m)
            else Ends(cfg.plans[m], s, s', m)
  {
    EveryRunFine(cfg, moves, worlds, j);
    PendingStep(cfg, worlds[j], moves[j], m);
  }

  lemma CarriesOn(plan: Plan, s: S.SenderState, s': S.SenderState, s'': S.SenderState, m: nat)
    requires 0 < plan.payload && m in s.pending && m in s'.pending && m in s''.pending
    requires Carries(plan, s, s', m) && Carries(plan, s', s'', m)
    ensures Carries(plan, s, s'', m)
  {
  }

  // World after world with the request pending, each carrying it on from the one before.
  ghost predicate Chain(plan: Plan, worlds: seq<World>, i: nat, j: nat, m: nat)
    requires 0 < plan.payload && PendingAll(worlds, i, j, m)
  {
    forall x :: i < x <= j ==> Carries(plan, worlds[x - 1].sender, worlds[x].sender, m)
  }

  lemma {:induction false} ChainCarries(plan: Plan, worlds: seq<World>, i: nat, j: nat, m: nat)
    requires 0 < plan.payload && PendingAll(worlds, i, j, m) && Chain(plan, worlds, i, j, m)
    ensures Carries(plan, worlds[i].sender, worlds[j].sender, m)
    decreases j
  {
    if i < j {
      ChainCarries(plan, worlds, i, j - 1, m);
      CarriesOn(plan, worlds[i].sender, worlds[j - 1].sender, worlds[j].sender, m);
    }
  }

  /**
   * While a request of flow m is being served, whatever else the connection does in
   * between, what has been sent for m since plus what the cursor still has is what the
   * cursor had at the start.
   */
  lemma ServedSoFar(cfg: Config, moves: seq<Move>, worlds: seq<World>, i: nat, j: nat, m: nat)
    requires GoodConfig(cfg) && Run(cfg, moves, worlds) && m in cfg.plans && PendingAll(worlds, i, j, m)
    ensures Carries(cfg.plans[m], worlds[i].sender, worlds[j].sender, m)
  {
    forall x | i < x <= j
      ensures Carries(cfg.plans[m], worlds[x - 1].sender, worlds[x].sender, m)
    {
      PendingRunStep(cfg, moves, worlds, x - 1, m);
    }
    ChainCarries(cfg.plans[m], worlds, i, j, m);
  }

  // Meanwhile no FlowFinish of the flow is under way.
  lemma NoFinishMeanwhile(cfg: Config, moves: seq<Move>, worlds: seq<World>, i: nat, m: nat)
    requires GoodConfig(cfg) && Run(cfg, moves, worlds) && m in cfg.plans && PendingAll(worlds, i, i, m)
    ensures Count(About(worlds[i].sender.signals, m), IsFinish()) == 0
    ensures Count(About(worlds[i].receiver.notices, m), IsFinishNotice()) == 0
  {
    EveryRunFine(cfg, moves, worlds, i);
    PendingFine(cfg, worlds[i], m);
  }

  // Served from the start s to its end, or stopped on the way.
  ghost predicate ServedFrom(plan: Plan, s: S.SenderState, last: S.SenderState, s': S.SenderState,
                             stopped: bool, m: nat)
    requires 0 < plan.payload && m in s.pending
  {
    var before, rest, after := SentOf(s.packets, m), Rest(plan, s.pending[m]), SentOf(s'.packets, m);
    if stopped then before <= after <= before + rest
    else after == before + rest && About(s'.signals, m) == About(last.signals, m) + [Finish]
  }

  lemma ServedToEnd(cfg: Config, moves: seq<Move>, worlds: seq<World>, i: nat, j: nat, m: nat)
    requires GoodConfig(cfg) && Run(cfg, moves, worlds) && m in cfg.plans && PendingAll(worlds, i, j, m)
    requires j < |moves| && worlds[j + 1].World? && m !in worlds[j + 1].sender.pending
    ensures ServedFrom(cfg.plans[m], worlds[i].sender, worlds[j].sender, worlds[j + 1].sender,
                       Stops(worlds[j], moves[j], m), m)
  {
    ServedSoFar(cfg, moves, worlds, i, j, m);
    PendingAtBoth(worlds, i, j, m);
    PendingRunStep(cfg, moves, worlds, j, m);
  }

  // ---- From the receiver's table to the wire ----

  // The sender takes up this request of flow m.
  predicate Accepts(w: World, move: Move, m: nat, blocks: seq<Block>)
    requires w.World?
  {
    move.SenderNotice? && w.sender.notices != [] && w.sender.notices[0] == Tagged(m, Retransmit(blocks))
  }

  lemma AcceptedFresh(cfg: Config, moves: seq<Move>, worlds: seq<World>, i: nat, m: nat, blocks: seq<Block>)
    requires GoodConfig(cfg) && Run(cfg, moves, worlds) && i < |moves| && m in cfg.plans
    requires worlds[i].World? && Accepts(worlds[i], moves[i], m, blocks)
    ensures blocks != [] && worlds[i + 1].World? && m in worlds[i + 1].sender.pending
    ensures worlds[i + 1].sender.pending[m] == S.Pending(blocks, 0, blocks[0].first)
    ensures worlds[i + 1].sender.packets == worlds[i].sender.packets
    ensures Asks(View(worlds[i], m), blocks)
  {
    EveryRunFine(cfg, moves, worlds, i + 1);
    assert View(worlds[i], m).up[0] == Retransmit(blocks);
  }

  // The first cursor of a request made from a table has just what the table misses.
  lemma FreshHasMissing(plan: Plan, f: FlowState, blocks: seq<Block>)
    requires Inv(plan, f) && MadeFrom(plan, f, blocks) && blocks != []
    ensures var table := FullTable(plan, f);
            Rest(plan, S.Pending(blocks, 0, blocks[0].first))
            == PacketsAt(plan.msgId, plan.size, plan.payload, Missing(table, |table|))
  {
    FlowSafety.LastIsMax(plan);
    assert |FullTable(plan, f)| == NumPackets(plan.size, plan.payload);
    ServesWhatIsMissing(FullTable(plan, f));
  }

  /**
   * In every run: a request that the sender takes up at move i and serves until move j
   * was made at an earlier move a, and what is sent for its flow from i to j is exactly
   * the packets missing from the receiver's table at a, each once and in increasing
   * order, with FlowFinish behind the last; a stop in between cuts this short.
   */
  lemma RequestServed(cfg: Config, moves: seq<Move>, worlds: seq<World>, i: nat, j: nat, m: nat, blocks: seq<Block>)
    returns (a: nat)
    requires GoodConfig(cfg) && Run(cfg, moves, worlds) && m in cfg.plans && i < j < |moves|
    requires worlds[i].World? && Accepts(worlds[i], moves[i], m, blocks)
    requires PendingAll(worlds, i + 1, j, m) && worlds[j + 1].World? && m !in worlds[j + 1].sender.pending
    ensures a < i && moves[a].ReceiverNotice? && worlds[a].World? && Target(worlds[a], moves[a]) == m
    ensures MadeFrom(cfg.plans[m], View(worlds[a], m), blocks)
    ensures var table := FullTable(cfg.plans[m], View(worlds[a], m));
            var missing := PacketsAt(m, cfg.plans[m].size, cfg.payload, Missing(table, |table|));
            var before, after := SentOf(worlds[i].sender.packets, m), SentOf(worlds[j + 1].sender.packets, m);
            if Stops(worlds[j], moves[j], m) then before <= after <= before + missing
            else
              after == before + missing
              && About(worlds[j + 1].sender.signals, m) == About(worlds[j].sender.signals, m) + [Finish]
  {
    AcceptedFresh(cfg, moves, worlds, i, m, blocks);
    a := RequestOrigin(cfg, moves, worlds, i, m, blocks);
    EveryRunFine(cfg, moves, worlds, a);
    assert FlowFine(cfg, worlds[a], m);
    FreshHasMissing(cfg.plans[m], View(worlds[a], m), blocks);
    ServedToEnd(cfg, moves, worlds, i + 1, j, m);
  }
}
