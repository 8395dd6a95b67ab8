/**
 * A whole connection can still complete.  Queues are first-in first-out and the two
 * sending loops always take the smallest message id, so one flow may have to wait for
 * others; whatever is ahead of it can always be cleared without touching it.
 */
module TransportProgress {
  import opened Common
  import opened Blocks
  import opened Packets
  import opened Wire
  import opened Flow
  import opened Transport
  import FlowProgress
  import RetransmitService
  import S = Sender

  // The moves lead from w to w'.
  ghost predicate Reaches(cfg: Config, w: World, moves: seq<Move>, w': World)
    requires GoodConfig(cfg)
    decreases |moves|
  {
    if moves == [] then w == w'
    else CanMove(cfg, w, moves[0]) && Reaches(cfg, Go(cfg, w, moves[0]), moves[1..], w')
  }

  lemma ReachesOne(cfg: Config, w: World, move: Move, b: seq<Move>, w2: World)
    requires GoodConfig(cfg) && CanMove(cfg, w, move) && Reaches(cfg, Go(cfg, w, move), b, w2)
    ensures Reaches(cfg, w, [move] + b, w2)
  {
    assert ([move] + b)[1..] == b;
  }

  lemma {:induction false} ReachesOn(cfg: Config, w: World, a: seq<Move>, w1: World, b: seq<Move>, w2: World)
    requires GoodConfig(cfg) && Reaches(cfg, w, a, w1) && Reaches(cfg, w1, b, w2)
    ensures Reaches(cfg, w, a + b, w2)
    decreases |a|
  {
    if a == [] {
      assert a + b == b;
    } else {
      ReachesOn(cfg, Go(cfg, w, a[0]), a[1..], w1, b, w2);
      ReachesOne(cfg, w, a[0], a[1..] + b, w2);
      HeadFirst(a, b);
    }
  }

  // A continuation that flow m does not notice.
  ghost predicate Aside(cfg: Config, w: World, moves: seq<Move>, w': World, m: nat)
    requires GoodConfig(cfg) && w.World?
  {
    Reaches(cfg, w, moves, w') && AllFine(cfg, w') && View(w', m) == View(w, m)
  }

  // A move about another flow, or one that only hands a signal on.
  lemma QuietMove(cfg: Config, w: World, move: Move, m: nat)
    requires GoodConfig(cfg) && AllFine(cfg, w) && CanMove(cfg, w, move)
    requires m != Target(w, move) || move.DispatchUp?
    ensures AllFine(cfg, Go(cfg, w, move)) && View(Go(cfg, w, move), m) == View(w, m)
  {
    MoveFine(cfg, w, move);
    TargetPlanned(cfg, w, move);
    MoveProjects(cfg, w, move, m);
  }

  lemma AsideFirst(cfg: Config, w: World, move: Move, rest: seq<Move>, w': World, m: nat)
    requires GoodConfig(cfg) && w.World? && CanMove(cfg, w, move) && Go(cfg, w, move).World?
    requires View(Go(cfg, w, move), m) == View(w, m) && Aside(cfg, Go(cfg, w, move), rest, w', m)
    ensures Aside(cfg, w, [move] + rest, w', m)
  {
    ReachesOne(cfg, w, move, rest, w');
  }

  // ---- Queues ----

  predicate TakesFromQueue(move: Move) {
    move.PopRequest? || move.SenderNotice? || move.DispatchDown? || move.PopPost? || move.ReceiverNotice?
  }

  function QueueLength(w: World, move: Move): nat
    requires w.World? && TakesFromQueue(move)
  {
    match move
    case PopRequest => |w.sender.requests|
    case SenderNotice => |w.sender.notices|
    case DispatchDown => |w.sender.signals|
    case PopPost => |w.receiver.posts|
    case ReceiverNotice => |w.receiver.notices|
  }

  predicate Queued(w: World, move: Move, m: nat)
    requires w.World? && TakesFromQueue(move)
  {
    match move
    case PopRequest => About(w.sender.requests, m) != []
    case SenderNotice => About(w.sender.notices, m) != []
    case DispatchDown => About(w.sender.signals, m) != []
    case PopPost => About(w.receiver.posts, m) != []
    case ReceiverNotice => About(w.receiver.notices, m) != []
  }

  // Taking somebody else's entry brings the flow's own closer to the front.
  lemma QueueAdvances(cfg: Config, w: World, move: Move, m: nat)
    requires GoodConfig(cfg) && AllFine(cfg, w) && TakesFromQueue(move) && Queued(w, move, m)
    ensures CanMove(cfg, w, move)
    ensures m != Target(w, move) && Go(cfg, w, move).World? ==>
              QueueLength(Go(cfg, w, move), move) < QueueLength(w, move) && Queued(Go(cfg, w, move), move, m)
  {
  }

  lemma {:induction false} ClearQueue(cfg: Config, w: World, move: Move, m: nat) returns (moves: seq<Move>, w': World)
    requires GoodConfig(cfg) && AllFine(cfg, w) && TakesFromQueue(move) && Queued(w, move, m)
    ensures Aside(cfg, w, moves, w', m) && CanMove(cfg, w', move) && Target(w', move) == m
    decreases QueueLength(w, move)
  {
    QueueAdvances(cfg, w, move, m);
    if Target(w, move) == m {
      return [], w;
    }
    QuietMove(cfg, w, move, m);
    var rest;
    rest, w' := ClearQueue(cfg, Go(cfg, w, move), move, m);
    moves := [move] + rest;
    AsideFirst(cfg, w, move, rest, w', m);
  }

  // A signal for the sender that is still at the receiver's end of the channel.
  lemma {:induction false} BringUp(cfg: Config, w: World, m: nat) returns (moves: seq<Move>, w': World)
    requires GoodConfig(cfg) && AllFine(cfg, w) && View(w, m).up != []
    ensures Aside(cfg, w, moves, w', m) && Queued(w', Move.SenderNotice, m)
    decreases |w.receiver.signals|
  {
    if Queued(w, Move.SenderNotice, m) {
      return [], w;
    }
    assert w.receiver.signals != [];
    QuietMove(cfg, w, DispatchUp, m);
    var rest;
    rest, w' := BringUp(cfg, Go(cfg, w, DispatchUp), m);
    moves := [DispatchUp] + rest;
    AsideFirst(cfg, w, DispatchUp, rest, w', m);
  }

  // ---- Smaller ids go first ----

  ghost function Below<T>(entries: map<nat, T>, m: nat): set<nat> {
    set t | t in entries && t < m
  }

  lemma BelowShrinks<T>(entries: map<nat, T>, entries': map<nat, T>, t: nat, m: nat)
    requires t in entries && t < m && entries'.Keys == entries.Keys - {t}
    ensures |Below(entries', m)| < |Below(entries, m)|
  {
    assert Below(entries', m) == Below(entries, m) - {t};
  }

  lemma SameKeysSameMin<T, U>(a: map<nat, T>, b: map<nat, U>, m: nat)
    requires a.Keys == b.Keys && a != map[] && b != map[]
    ensures MinKey(a) == MinKey(b) && Below(a, m) == Below(b, m)
  {
    assert MinKey(a) in b && MinKey(b) in a;
  }

  // Bytes that the first message on its first pass still has to send.
  function FirstPassLeft(s: S.SenderState): nat {
    if s.sending == map[] then 0
    else
      var o := s.sending[MinKey(s.sending)];
      if o.sent <= o.size then o.size - o.sent else 0
  }

  lemma OnTrackOf(cfg: Config, w: World, t: nat)
    requires GoodConfig(cfg) && AllFine(cfg, w) && t in w.sender.sending
    ensures t in cfg.plans && w.sender.sending[t].sent < w.sender.sending[t].size
  {
    assert FlowFine(cfg, w, t);
    assert View(w, t).sending == Some(w.sender.sending[t]);
  }

  // One packet of a smaller id: it has less to send, or it is done with its first pass.
  lemma FirstPassAdvances(s: S.SenderState, payload: nat, m: nat)
    requires 0 < payload && m in s.sending && m != MinKey(s.sending)
    requires var o := s.sending[MinKey(s.sending)]; o.sent < o.size
    ensures var s' := S.SendOne(s, payload);
            && m in s'.sending
            && (|Below(s'.sending, m)| < |Below(s.sending, m)|
                || (Below(s'.sending, m) == Below(s.sending, m) && FirstPassLeft(s') < FirstPassLeft(s)))
  {
    var t := MinKey(s.sending);
    var s' := S.SendOne(s, payload);
    var o := s.sending[t];
    if o.sent + Chunk(o.size, payload, o.sent) >= o.size {
      BelowShrinks(s.sending, s'.sending, t, m);
    } else {
      SameKeysSameMin(s.sending, s'.sending, m);
    }
  }

  lemma {:induction false} ClearSending(cfg: Config, w: World, m: nat) returns (moves: seq<Move>, w': World)
    requires GoodConfig(cfg) && AllFine(cfg, w) && m in w.sender.sending
    ensures Aside(cfg, w, moves, w', m) && CanMove(cfg, w', Move.SendOne) && Target(w', Move.SendOne) == m
    decreases |Below(w.sender.sending, m)|, FirstPassLeft(w.sender)
  {
    var t := MinKey(w.sender.sending);
    if t == m {
      return [], w;
    }
    OnTrackOf(cfg, w, t);
    FirstPassAdvances(w.sender, cfg.payload, m);
    QuietMove(cfg, w, Move.SendOne, m);
    var rest;
    rest, w' := ClearSending(cfg, Go(cfg, w, Move.SendOne), m);
    moves := [Move.SendOne] + rest;
    AsideFirst(cfg, w, Move.SendOne, rest, w', m);
  }

  // Blocks the first pending request still has, and numbers left in its block.
  function BlocksLeft(s: S.SenderState): nat {
    if s.pending == map[] then 0
    else
      var p := s.pending[MinKey(s.pending)];
      if S.CursorInside(p) then |p.blocks| - p.blockNum else 0
  }

  function NumbersLeft(s: S.SenderState): nat {
    if s.pending == map[] then 0
    else
      var p := s.pending[MinKey(s.pending)];
      if S.CursorInside(p) then p.blocks[p.blockNum].last - p.seqNum else 0
  }

  // One packet of a smaller id's request: its cursor moves on, or it is served.
  lemma ServiceAdvances(s: S.SenderState, payload: nat, m: nat, hi: int)
    requires 0 < payload && m in s.pending && m != MinKey(s.pending) && S.ResendOne(s, payload).Ok?
    requires var p := s.pending[MinKey(s.pending)]; Separated(p.blocks, hi) && S.CursorInside(p)
    ensures var s' := S.ResendOne(s, payload).value;
            && m in s'.pending
            && (|Below(s'.pending, m)| < |Below(s.pending, m)|
                || (Below(s'.pending, m) == Below(s.pending, m)
                    && (BlocksLeft(s') < BlocksLeft(s)
                        || (BlocksLeft(s') == BlocksLeft(s) && NumbersLeft(s') < NumbersLeft(s)))))
  {
    var t := MinKey(s.pending);
    var s' := S.ResendOne(s, payload).value;
    RetransmitService.AdvanceInside(s.pending[t], hi);
    if S.AtEnd(s.pending[t]) {
      BelowShrinks(s.pending, s'.pending, t, m);
    } else {
      SameKeysSameMin(s.pending, s'.pending, m);
    }
  }

  lemma PendingOf(cfg: Config, w: World, t: nat)
    requires GoodConfig(cfg) && AllFine(cfg, w) && t in w.sender.pending
    ensures t in cfg.plans && S.CursorInside(w.sender.pending[t])
    ensures Separated(w.sender.pending[t].blocks, NumPackets(cfg.plans[t].size, cfg.payload))
  {
    assert FlowFine(cfg, w, t);
    assert View(w, t).pending == Some(w.sender.pending[t]);
  }

  lemma {:induction false} ClearPending(cfg: Config, w: World, m: nat) returns (moves: seq<Move>, w': World)
    requires GoodConfig(cfg) && AllFine(cfg, w) && m in w.sender.pending
    ensures Aside(cfg, w, moves, w', m) && CanMove(cfg, w', Move.ResendOne) && Target(w', Move.ResendOne) == m
    decreases |Below(w.sender.pending, m)|, BlocksLeft(w.sender), NumbersLeft(w.sender)
  {
    var t := MinKey(w.sender.pending);
    if t == m {
      return [], w;
    }
    PendingOf(cfg, w, t);
    QuietMove(cfg, w, Move.ResendOne, m);
    ServiceAdvances(w.sender, cfg.payload, m, NumPackets(cfg.plans[t].size, cfg.payload));
    var rest;
    rest, w' := ClearPending(cfg, Go(cfg, w, Move.ResendOne), m);
    moves := [Move.ResendOne] + rest;
    AsideFirst(cfg, w, Move.ResendOne, rest, w', m);
  }

  // ---- A flow's own steps in the connection ----

  // Whatever step the flow could take on its own, the connection can get to it.
  lemma ReadyFor(cfg: Config, w: World, m: nat, step: Step) returns (moves: seq<Move>, w': World, move: Move)
    requires GoodConfig(cfg) && AllFine(cfg, w) && Enabled(View(w, m), step) && !step.PostSend? && !step.PostRecv?
    ensures Aside(cfg, w, moves, w', m)
    ensures CanMove(cfg, w', move) && !move.DispatchUp? && StepOf(move) == step && Target(w', move) == m
  {
    moves, w' := [], w;
    match step
    case PopRequest =>
      move := Move.PopRequest;
      moves, w' := ClearQueue(cfg, w, move, m);
    case SendOne =>
      move := Move.SendOne;
      moves, w' := ClearSending(cfg, w, m);
    case ResendOne =>
      move := Move.ResendOne;
      moves, w' := ClearPending(cfg, w, m);
    case SenderNotice =>
      move := Move.SenderNotice;
      moves, w' := ReadyForNotice(cfg, w, m);
    case Arrive =>
      move := DispatchDown;
      moves, w' := ClearQueue(cfg, w, move, m);
    case Deliver(pkt) =>
      move := Move.Deliver(pkt);
    case PopPost =>
      move := Move.PopPost;
      moves, w' := ClearQueue(cfg, w, move, m);
    case ReceiverNotice =>
      move := Move.ReceiverNotice;
      moves, w' := ClearQueue(cfg, w, move, m);
  }

  lemma ReadyForNotice(cfg: Config, w: World, m: nat) returns (moves: seq<Move>, w': World)
    requires GoodConfig(cfg) && AllFine(cfg, w) && View(w, m).up != []
    ensures Aside(cfg, w, moves, w', m)
    ensures CanMove(cfg, w', Move.SenderNotice) && Target(w', Move.SenderNotice) == m
  {
    var first, mid := BringUp(cfg, w, m);
    var rest;
    rest, w' := ClearQueue(cfg, mid, Move.SenderNotice, m);
    ReachesOn(cfg, w, first, mid, rest, w');
    moves := first + rest;
  }

  // One step of flow m, made in the connection.
  lemma MakeStep(cfg: Config, w: World, m: nat, step: Step) returns (moves: seq<Move>, w': World)
    requires GoodConfig(cfg) && AllFine(cfg, w) && m in cfg.plans
    requires Enabled(View(w, m), step) && !step.PostSend? && !step.PostRecv?
    ensures Reaches(cfg, w, moves, w') && AllFine(cfg, w')
    ensures Ok(View(w', m)) == Next(cfg.plans[m], View(w, m), step)
  {
    var first, mid, move := ReadyFor(cfg, w, m, step);
    MoveFine(cfg, mid, move);
    MoveProjects(cfg, mid, move, m);
    w' := Go(cfg, mid, move);
    ReachesOne(cfg, mid, move, [], w');
    assert [move] + [] == [move];
    ReachesOn(cfg, w, first, mid, [move], w');
    moves := first + [move];
  }

  // Posting happens once, and completions stay.
  lemma StepOnlyAdds(plan: Plan, f: FlowState, step: Step)
    requires 0 < plan.payload && Enabled(f, step) && Next(plan, f, step).Ok?
    ensures var g := Next(plan, f, step).value;
            && (f.sendPosted ==> g.sendPosted) && (f.recvPosted ==> g.recvPosted)
            && (f.recvDone != [] ==> g.recvDone != [])
  {
  }

  // A history of the flow alone can be played in the connection.
  lemma {:induction false} Replay(cfg: Config, w: World, m: nat, steps: seq<Step>, g: FlowState)
    returns (moves: seq<Move>, w': World)
    requires GoodConfig(cfg) && AllFine(cfg, w) && m in cfg.plans
    requires View(w, m).sendPosted && View(w, m).recvPosted
    requires FlowProgress.Leads(cfg.plans[m], View(w, m), steps, g)
    ensures Reaches(cfg, w, moves, w') && AllFine(cfg, w') && View(w', m) == g
    decreases |steps|
  {
    if steps == [] {
      return [], w;
    }
    StepOnlyAdds(cfg.plans[m], View(w, m), steps[0]);
    var first, mid := MakeStep(cfg, w, m, steps[0]);
    var rest;
    rest, w' := Replay(cfg, mid, m, steps[1..], g);
    ReachesOn(cfg, w, first, mid, rest, w');
    moves := first + rest;
  }

  // ---- All flows ----

  ghost predicate Completed(w: World, m: nat)
    requires w.World?
  {
    About(w.receiver.completions, m) != [] && |About(w.sender.completions, m)| == 1
  }

  lemma CompleteOne(cfg: Config, w: World, m: nat) returns (moves: seq<Move>, w': World)
    requires GoodConfig(cfg) && AllFine(cfg, w) && m in cfg.plans && m in w.sendPosted && m in w.recvPosted
    ensures Reaches(cfg, w, moves, w') && AllFine(cfg, w') && Completed(w', m)
  {
    assert FlowFine(cfg, w, m);
    var steps, g := FlowProgress.CanComplete(cfg.plans[m], View(w, m));
    moves, w' := Replay(cfg, w, m, steps, g);
  }

  // What was posted stays posted and what was completed stays completed.
  lemma MoveKeeps(cfg: Config, w: World, move: Move, m: nat)
    requires GoodConfig(cfg) && AllFine(cfg, w) && CanMove(cfg, w, move)
    ensures AllFine(cfg, Go(cfg, w, move))
    ensures var w' := Go(cfg, w, move);
            && (m in w.sendPosted ==> m in w'.sendPosted) && (m in w.recvPosted ==> m in w'.recvPosted)
            && (Completed(w, m) ==> Completed(w', m))
  {
    MoveFine(cfg, w, move);
    TargetPlanned(cfg, w, move);
    MoveProjects(cfg, w, move, m);
    if m == Target(w, move) && !move.DispatchUp? {
      StepOnlyAdds(cfg.plans[m], View(w, m), StepOf(move));
    }
    assert FlowFine(cfg, Go(cfg, w, move), m);
    if m in cfg.plans {
      FineCompletes(cfg.plans[m], View(Go(cfg, w, move), m));
    }
    assert View(w, m).recvDone == About(w.receiver.completions, m);
  }

  lemma {:induction false} ReachesKeeps(cfg: Config, w: World, moves: seq<Move>, w': World, m: nat)
    requires GoodConfig(cfg) && AllFine(cfg, w) && Reaches(cfg, w, moves, w')
    ensures w'.World?
    ensures (m in w.sendPosted ==> m in w'.sendPosted) && (m in w.recvPosted ==> m in w'.recvPosted)
    ensures Completed(w, m) ==> Completed(w', m)
    decreases |moves|
  {
    if moves != [] {
      MoveKeeps(cfg, w, moves[0], m);
      ReachesKeeps(cfg, Go(cfg, w, moves[0]), moves[1..], w', m);
    }
  }

  ghost predicate AllPosted(w: World, todo: set<nat>)
    requires w.World?
  {
    forall m :: m in todo ==> m in w.sendPosted && m in w.recvPosted
  }

  lemma {:induction false} CompleteAll(cfg: Config, w: World, todo: set<nat>) returns (moves: seq<Move>, w': World)
    requires GoodConfig(cfg) && AllFine(cfg, w) && todo <= cfg.plans.Keys && AllPosted(w, todo)
    ensures Reaches(cfg, w, moves, w') && AllFine(cfg, w')
    ensures forall m :: m in todo ==> Completed(w', m)
    decreases |todo|
  {
    if todo == {} {
      return [], w;
    }
    var t :| t in todo;
    var first, mid := CompleteOne(cfg, w, t);
    forall m | m in todo - {t}
      ensures m in mid.sendPosted && m in mid.recvPosted
    {
      ReachesKeeps(cfg, w, first, mid, m);
    }
    var rest;
    rest, w' := CompleteAll(cfg, mid, todo - {t});
    ReachesKeeps(cfg, mid, rest, w', t);
    ReachesOn(cfg, w, first, mid, rest, w');
    moves := first + rest;
  }

  lemma PostedIsPlanned(cfg: Config, w: World, m: nat)
    requires AllFine(cfg, w) && m in w.sendPosted
    ensures m in cfg.plans
  {
    assert FlowFine(cfg, w, m);
  }

  /**
   * From every world of every run some continuation of the whole connection completes
   * every flow that both users have posted, although the sending loops always take the
   * smallest id, queues are served in order, and flows posted on one side only go
   * round for ever.
   */
  lemma EveryRunCanComplete(cfg: Config, moves: seq<Move>, worlds: seq<World>, i: nat)
    returns (more: seq<Move>, w': World)
    requires GoodConfig(cfg) && Run(cfg, moves, worlds) && i < |worlds|
    ensures worlds[i].World? && Reaches(cfg, worlds[i], more, w') && w'.World?
    ensures forall m :: m in worlds[i].sendPosted && m in worlds[i].recvPosted ==> Completed(w', m)
  {
    EveryRunFine(cfg, moves, worlds, i);
    var w := worlds[i];
    var todo := w.sendPosted * w.recvPosted;
    forall m | m in todo
      ensures m in cfg.plans
    {
      PostedIsPlanned(cfg, w, m);
    }
    more, w' := CompleteAll(cfg, w, todo);
  }
}
