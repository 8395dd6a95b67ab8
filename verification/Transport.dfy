/**
 * A whole connection: any number of flows share the sender's and the receiver's
 * tables, the two reliable queues and the UDP path.  Each flow, seen on its
 * own, takes the steps of the single-flow protocol, so what holds of a flow
 * holds of every flow in every run.
 */
module Transport {
  import opened Common
  import opened Blocks
  import opened Packets
  import opened Messages
  import opened Wire
  import opened Flow
  import FlowSafety
  import S = Sender
  import R = Receiver

  // Each message id is used for one flow; both users post the same plan.
  datatype Config = Config(payload: nat, plans: map<nat, Plan>)

  ghost predicate GoodConfig(cfg: Config) {
    && 0 < cfg.payload
    && forall m :: m in cfg.plans ==>
         GoodPlan(cfg.plans[m]) && cfg.plans[m].msgId == m && cfg.plans[m].payload == cfg.payload
  }

  datatype World =
    | World(sender: S.SenderState, receiver: R.ReceiverState,
            sendPosted: set<nat>, recvPosted: set<nat>)
    | Crashed

  const START: World :=
    World(S.SenderState([], map[], map[], map[], [], [], [], []),
          R.ReceiverState([], map[], map[], [], [], []), {}, {})

  datatype Move =
    | UserSend(m: nat) | UserRecv(m: nat)
    | PopRequest | SendOne | ResendOne | SenderNotice
    | DispatchUp | DispatchDown
    | Deliver(pkt: Packet) | PopPost | ReceiverNotice

  predicate CanMove(cfg: Config, w: World, move: Move) {
    && w.World?
    && match move
       case UserSend(m) => m in cfg.plans && m !in w.sendPosted
       case UserRecv(m) => m in cfg.plans && m !in w.recvPosted
       case PopRequest => w.sender.requests != []
       case SendOne => w.sender.sending != map[]
       case ResendOne => w.sender.pending != map[]
       case SenderNotice => w.sender.notices != []
       case DispatchUp => w.receiver.signals != []
       case DispatchDown => w.sender.signals != []
       case Deliver(pkt) => pkt in w.sender.packets && HEADER <= pkt.len
       case PopPost => w.receiver.posts != []
       case ReceiverNotice => w.receiver.notices != []
  }

  function WithSender(w: World, s: Outcome<S.SenderState>): World
    requires w.World?
  {
    match s
    case Ok(s') => w.(sender := s')
    case CheckFailed => Crashed
  }

  function WithReceiver(w: World, r: Outcome<R.ReceiverState>): World
    requires w.World?
  {
    match r
    case Ok(r') => w.(receiver := r')
    case CheckFailed => Crashed
  }

  // PostSend announces the flow on the reliable channel, then queues it.
  function DoUserSend(w: World, plan: Plan): World
    requires w.World? && 0 < plan.payload
  {
    var m := plan.msgId;
    w.(sendPosted := w.sendPosted + {m},
       sender := w.sender.(
         requests := w.sender.requests + [Tagged(m, plan.size)],
         signals := w.sender.signals + [Tagged(m, Start(Last(plan)))]))
  }

  function DoUserRecv(w: World, plan: Plan): World
    requires w.World?
  {
    var m := plan.msgId;
    w.(recvPosted := w.recvPosted + {m},
       receiver := R.Post(w.receiver, m, R.Request(plan.size, plan.bound)))
  }

  // The sender's endpoint hands both kinds of signal on as notices.
  function DoDispatchUp(w: World): World
    requires w.World? && w.receiver.signals != []
  {
    w.(sender := w.sender.(notices := w.sender.notices + [w.receiver.signals[0]]),
       receiver := w.receiver.(signals := w.receiver.signals[1..]))
  }

  function DoDispatchDown(w: World): World
    requires w.World? && w.sender.signals != []
  {
    var x := w.sender.signals[0];
    WithReceiver(w.(sender := w.sender.(signals := w.sender.signals[1..])),
                 R.Dispatch(w.receiver, x.msgId, x.body))
  }

  function Go(cfg: Config, w: World, move: Move): World
    requires GoodConfig(cfg) && CanMove(cfg, w, move)
  {
    match move
    case UserSend(m) => DoUserSend(w, cfg.plans[m])
    case UserRecv(m) => DoUserRecv(w, cfg.plans[m])
    case PopRequest => WithSender(w, S.PopRequest(w.sender))
    case SendOne => w.(sender := S.SendOne(w.sender, cfg.payload))
    case ResendOne => WithSender(w, S.ResendOne(w.sender, cfg.payload))
    case SenderNotice => WithSender(w, S.HandleNotice(w.sender))
    case DispatchUp => DoDispatchUp(w)
    case DispatchDown => DoDispatchDown(w)
    case Deliver(pkt) => WithReceiver(w, R.HandleReceive(w.receiver, pkt))
    case PopPost => WithReceiver(w, R.PopPost(w.receiver))
    case ReceiverNotice => WithReceiver(w, R.HandleNotice(w.receiver))
  }

  // ---- One flow of a world ----

  function Get<T>(m: map<nat, T>, k: nat): Option<T> {
    if k in m then Some(m[k]) else None
  }

  function PacketsOf(packets: seq<Packet>, m: nat): set<Packet> {
    set p | p in packets && p.msgId == m
  }

  ghost function View(w: World, m: nat): FlowState
    requires w.World?
  {
    FlowState(
      m in w.sendPosted, m in w.recvPosted,
      About(w.sender.requests, m),
      Get(w.sender.sending, m), Get(w.sender.retransmitting, m), Get(w.sender.pending, m),
      About(w.sender.notices, m) + About(w.receiver.signals, m),
      About(w.sender.signals, m),
      Get(w.receiver.maxSeq, m),
      About(w.receiver.notices, m),
      PacketsOf(w.sender.packets, m),
      About(w.receiver.posts, m),
      Get(w.receiver.recv, m),
      |About(w.sender.completions, m)|,
      About(w.receiver.completions, m))
  }

  // The message a move is about.
  function Target(w: World, move: Move): nat
    requires w.World?
  {
    match move
    case UserSend(m) => m
    case UserRecv(m) => m
    case PopRequest => if w.sender.requests == [] then 0 else w.sender.requests[0].msgId
    case SendOne => if w.sender.sending == map[] then 0 else MinKey(w.sender.sending)
    case ResendOne => if w.sender.pending == map[] then 0 else MinKey(w.sender.pending)
    case SenderNotice => if w.sender.notices == [] then 0 else w.sender.notices[0].msgId
    case DispatchUp => if w.receiver.signals == [] then 0 else w.receiver.signals[0].msgId
    case DispatchDown => if w.sender.signals == [] then 0 else w.sender.signals[0].msgId
    case Deliver(pkt) => pkt.msgId
    case PopPost => if w.receiver.posts == [] then 0 else w.receiver.posts[0].msgId
    case ReceiverNotice => if w.receiver.notices == [] then 0 else w.receiver.notices[0].msgId
  }

  // What the move is to that flow.
  function StepOf(move: Move): Step
    requires !move.DispatchUp?
  {
    match move
    case UserSend(_) => Step.PostSend
    case UserRecv(_) => Step.PostRecv
    case PopRequest => Step.PopRequest
    case SendOne => Step.SendOne
    case ResendOne => Step.ResendOne
    case SenderNotice => Step.SenderNotice
    case DispatchDown => Step.Arrive
    case Deliver(pkt) => Step.Deliver(pkt)
    case PopPost => Step.PopPost
    case ReceiverNotice => Step.ReceiverNotice
  }

  // Seen from flow m, the move is this flow's own step or nothing at all.
  ghost predicate Projects(cfg: Config, w: World, move: Move, m: nat)
    requires GoodConfig(cfg) && CanMove(cfg, w, move) && Target(w, move) in cfg.plans
  {
    var t := Target(w, move);
    var w' := Go(cfg, w, move);
    if m != t || move.DispatchUp? then w'.World? ==> View(w', m) == View(w, m)
    else
      && Enabled(View(w, m), StepOf(move))
      && match Next(cfg.plans[m], View(w, m), StepOf(move))
         case CheckFailed => w' == Crashed
         case Ok(f) => w'.World? && View(w', m) == f
  }

  lemma UserSendProjects(cfg: Config, w: World, t: nat, m: nat)
    requires GoodConfig(cfg) && CanMove(cfg, w, UserSend(t))
    ensures Projects(cfg, w, UserSend(t), m)
  {
    var plan := cfg.plans[t];
    AboutAppend(w.sender.requests, Tagged(t, plan.size), m);
    AboutAppend(w.sender.signals, Tagged(t, Start(Last(plan))), m);
  }

  lemma UserRecvProjects(cfg: Config, w: World, t: nat, m: nat)
    requires GoodConfig(cfg) && CanMove(cfg, w, UserRecv(t))
    ensures Projects(cfg, w, UserRecv(t), m)
  {
    var plan := cfg.plans[t];
    AboutAppend(w.receiver.posts, Tagged(t, R.Request(plan.size, plan.bound)), m);
  }

  lemma PopRequestProjects(cfg: Config, w: World, m: nat)
    requires GoodConfig(cfg) && CanMove(cfg, w, Move.PopRequest) && Target(w, Move.PopRequest) in cfg.plans
    ensures Projects(cfg, w, Move.PopRequest, m)
  {}

  lemma PacketsOfAppend(packets: seq<Packet>, pkt: Packet, m: nat)
    ensures PacketsOf(packets + [pkt], m) ==
            PacketsOf(packets, m) + if pkt.msgId == m then {pkt} else {}
  {}

  lemma SendOneSparesFields(s: S.SenderState, payload: nat, m: nat)
    requires 0 < payload && s.sending != map[] && m != MinKey(s.sending)
    ensures var s' := S.SendOne(s, payload);
            && s' == s.(packets := s'.packets, signals := s'.signals,
                        sending := s'.sending, retransmitting := s'.retransmitting)
            && PacketsOf(s'.packets, m) == PacketsOf(s.packets, m)
            && About(s'.signals, m) == About(s.signals, m)
            && Get(s'.sending, m) == Get(s.sending, m) && Get(s'.retransmitting, m) == Get(s.retransmitting, m)
  {
    var t := MinKey(s.sending);
    var o := s.sending[t];
    PacketsOfAppend(s.packets, MakePacket(t, o.size, payload, o.sent, o.sent / payload), m);
    AboutAppend(s.signals, Tagged(t, Finish), m);
    assert s.signals + [] == s.signals;
  }

  lemma SendOneSpares(cfg: Config, w: World, m: nat)
    requires GoodConfig(cfg) && CanMove(cfg, w, Move.SendOne) && m != Target(w, Move.SendOne)
    ensures View(Go(cfg, w, Move.SendOne), m) == View(w, m)
  {
    SendOneSparesFields(w.sender, cfg.payload, m);
  }

  // What SendOne leaves in the sender, with pkt and o' as it computes them.
  lemma SendOneFields(s: S.SenderState, payload: nat, t: nat, pkt: Packet, o': S.Outgoing)
    requires 0 < payload && s.sending != map[] && t == MinKey(s.sending)
    requires var o := s.sending[t];
             && pkt == MakePacket(t, o.size, payload, o.sent, o.sent / payload)
             && o' == o.(sent := o.sent + Chunk(o.size, payload, o.sent))
    ensures var s' := S.SendOne(s, payload);
            && s' == s.(packets := s'.packets, signals := s'.signals,
                        sending := s'.sending, retransmitting := s'.retransmitting)
            && PacketsOf(s'.packets, t) == PacketsOf(s.packets, t) + {pkt}
            && About(s'.signals, t) == About(s.signals, t) + FinishIf(pkt.isLast)
            && Get(s'.sending, t) == (if o'.sent >= o'.size then None else Some(o'))
            && Get(s'.retransmitting, t) ==
               if o'.sent >= o'.size && t !in s.retransmitting then Some(o')
               else Get(s.retransmitting, t)
  {
    PacketsOfAppend(s.packets, pkt, t);
    AboutAppend(s.signals, Tagged(t, Finish), t);
    assert s.signals + [] == s.signals;
  }

  lemma SendOneView(w: World, s': S.SenderState, t: nat, pkt: Packet, o': S.Outgoing)
    requires w.World?
    requires var s := w.sender;
             && s' == s.(packets := s'.packets, signals := s'.signals,
                         sending := s'.sending, retransmitting := s'.retransmitting)
             && PacketsOf(s'.packets, t) == PacketsOf(s.packets, t) + {pkt}
             && About(s'.signals, t) == About(s.signals, t) + FinishIf(pkt.isLast)
             && Get(s'.sending, t) == (if o'.sent >= o'.size then None else Some(o'))
             && Get(s'.retransmitting, t) ==
                if o'.sent >= o'.size && t !in s.retransmitting then Some(o')
                else Get(s.retransmitting, t)
    ensures View(w.(sender := s'), t) == AfterPacket(View(w, t), pkt, o')
  {
  }

  lemma SendOneIsAfterSend(plan: Plan, w: World, t: nat)
    requires 0 < plan.payload && plan.msgId == t
    requires w.World? && w.sender.sending != map[] && t == MinKey(w.sender.sending)
    ensures View(w.(sender := S.SendOne(w.sender, plan.payload)), t) == AfterSend(plan, View(w, t))
  {
    var o := w.sender.sending[t];
    var pkt := MakePacket(t, o.size, plan.payload, o.sent, o.sent / plan.payload);
    var o' := o.(sent := o.sent + Chunk(o.size, plan.payload, o.sent));
    SendOneFields(w.sender, plan.payload, t, pkt, o');
    SendOneView(w, S.SendOne(w.sender, plan.payload), t, pkt, o');
  }

  lemma SendOneOwn(cfg: Config, w: World, t: nat)
    requires GoodConfig(cfg) && CanMove(cfg, w, Move.SendOne) && t == Target(w, Move.SendOne)
    requires t in cfg.plans
    ensures View(Go(cfg, w, Move.SendOne), t) == AfterSend(cfg.plans[t], View(w, t))
  {
    SendOneIsAfterSend(cfg.plans[t], w, t);
  }

  lemma SendOneProjects(cfg: Config, w: World, m: nat)
    requires GoodConfig(cfg) && CanMove(cfg, w, Move.SendOne) && Target(w, Move.SendOne) in cfg.plans
    ensures Projects(cfg, w, Move.SendOne, m)
  {
    if m == Target(w, Move.SendOne) {
      SendOneOwn(cfg, w, m);
    } else {
      SendOneSpares(cfg, w, m);
    }
  }

  lemma ResendOneProjects(cfg: Config, w: World, m: nat)
    requires GoodConfig(cfg) && CanMove(cfg, w, Move.ResendOne) && Target(w, Move.ResendOne) in cfg.plans
    ensures Projects(cfg, w, Move.ResendOne, m)
  {
    var t := Target(w, Move.ResendOne);
    AboutAppend(w.sender.signals, Tagged(t, Finish), m);
    assert w.sender.signals + [] == w.sender.signals;
  }

  lemma RetransmitNoticeProjects(cfg: Config, w: World, t: nat, m: nat)
    requires GoodConfig(cfg) && CanMove(cfg, w, Move.SenderNotice)
    requires t == Target(w, Move.SenderNotice) && w.sender.notices[0].body.Retransmit?
    ensures m != t && Go(cfg, w, Move.SenderNotice).World? ==>
              View(Go(cfg, w, Move.SenderNotice), m) == View(w, m)
    ensures View(w, t).up != []
    ensures match AfterSenderNotice(View(w, t))
            case CheckFailed => Go(cfg, w, Move.SenderNotice) == Crashed
            case Ok(f) => Go(cfg, w, Move.SenderNotice).World?
                          && View(Go(cfg, w, Move.SenderNotice), t) == f
  {}

  lemma StopNoticeSpares(cfg: Config, w: World, t: nat, m: nat)
    requires GoodConfig(cfg) && CanMove(cfg, w, Move.SenderNotice)
    requires m != t == Target(w, Move.SenderNotice) && w.sender.notices[0].body.Stop?
    ensures View(Go(cfg, w, Move.SenderNotice), m) == View(w, m)
  {
    var s := w.sender.(notices := w.sender.notices[1..]);
    assert About(s.notices, m) == About(w.sender.notices, m);
    StopSpares(s, t, m);
  }

  lemma StopSpares(s: S.SenderState, t: nat, m: nat)
    requires m != t
    ensures var s' := S.StopFlow(s, t);
            && s' == s.(sending := s'.sending, pending := s'.pending, signals := s'.signals,
                        retransmitting := s'.retransmitting, completions := s'.completions)
            && About(s'.signals, m) == About(s.signals, m)
            && About(s'.completions, m) == About(s.completions, m)
            && Get(s'.sending, m) == Get(s.sending, m) && Get(s'.pending, m) == Get(s.pending, m)
            && Get(s'.retransmitting, m) == Get(s.retransmitting, m)
  {
    AboutAppend(s.signals, Tagged(t, Confirm), m);
    AboutAppend(s.completions, Tagged(t, ()), m);
  }

  // What StopFlow leaves in the sender.
  lemma StopFields(s: S.SenderState, t: nat)
    ensures var s' := S.StopFlow(s, t);
            && s' == s.(sending := s'.sending, pending := s'.pending, signals := s'.signals,
                        retransmitting := s'.retransmitting, completions := s'.completions)
            && About(s'.signals, t) == About(s.signals, t) + [Confirm]
            && |About(s'.completions, t)| == |About(s.completions, t)| + 1
            && Get(s'.sending, t) == None
            && Get(s'.pending, t) == (if t in s.sending then Get(s.pending, t) else None)
            && Get(s'.retransmitting, t) ==
               (if t in s.sending then Get(s.retransmitting, t) else None)
  {
    AboutAppend(s.signals, Tagged(t, Confirm), t);
    AboutAppend(s.completions, Tagged(t, ()), t);
  }

  lemma StopNoticeOwn(cfg: Config, w: World, t: nat)
    requires GoodConfig(cfg) && CanMove(cfg, w, Move.SenderNotice)
    requires t == Target(w, Move.SenderNotice) && w.sender.notices[0].body.Stop?
    ensures View(w, t).up != []
    ensures Ok(View(Go(cfg, w, Move.SenderNotice), t)) == AfterSenderNotice(View(w, t))
  {
    StopFields(w.sender.(notices := w.sender.notices[1..]), t);
    assert View(w, t).up[1..] == About(w.sender.notices[1..], t) + About(w.receiver.signals, t);
  }

  lemma SenderNoticeProjects(cfg: Config, w: World, m: nat)
    requires GoodConfig(cfg) && CanMove(cfg, w, Move.SenderNotice)
    requires Target(w, Move.SenderNotice) in cfg.plans
    ensures Projects(cfg, w, Move.SenderNotice, m)
  {
    var t := Target(w, Move.SenderNotice);
    if w.sender.notices[0].body.Retransmit? {
      RetransmitNoticeProjects(cfg, w, t, m);
    } else if m == t {
      StopNoticeOwn(cfg, w, t);
    } else {
      StopNoticeSpares(cfg, w, t, m);
    }
  }

  lemma DispatchUpProjects(cfg: Config, w: World, m: nat)
    requires GoodConfig(cfg) && CanMove(cfg, w, DispatchUp) && Target(w, DispatchUp) in cfg.plans
    ensures Projects(cfg, w, DispatchUp, m)
  {
    AboutAppend(w.sender.notices, w.receiver.signals[0], m);
  }

  lemma DispatchStartProjects(cfg: Config, w: World, m: nat)
    requires GoodConfig(cfg) && CanMove(cfg, w, DispatchDown) && Target(w, DispatchDown) in cfg.plans
    requires w.sender.signals[0].body.Start?
    ensures Projects(cfg, w, DispatchDown, m)
  {}

  lemma DispatchFinishProjects(cfg: Config, w: World, m: nat)
    requires GoodConfig(cfg) && CanMove(cfg, w, DispatchDown) && Target(w, DispatchDown) in cfg.plans
    requires w.sender.signals[0].body.Finish?
    ensures Projects(cfg, w, DispatchDown, m)
  {
    var t := Target(w, DispatchDown);
    if t in w.receiver.maxSeq {
      AboutAppend(w.receiver.notices, Tagged(t, FinishFlow(w.receiver.maxSeq[t])), m);
    }
  }

  lemma DispatchConfirmProjects(cfg: Config, w: World, m: nat)
    requires GoodConfig(cfg) && CanMove(cfg, w, DispatchDown) && Target(w, DispatchDown) in cfg.plans
    requires w.sender.signals[0].body.Confirm?
    ensures Projects(cfg, w, DispatchDown, m)
  {
    AboutAppend(w.receiver.notices, Tagged(Target(w, DispatchDown), ConfirmStop), m);
  }

  lemma DispatchDownProjects(cfg: Config, w: World, m: nat)
    requires GoodConfig(cfg) && CanMove(cfg, w, DispatchDown) && Target(w, DispatchDown) in cfg.plans
    ensures Projects(cfg, w, DispatchDown, m)
  {
    match w.sender.signals[0].body
    case Start(_) => DispatchStartProjects(cfg, w, m);
    case Finish => DispatchFinishProjects(cfg, w, m);
    case Confirm => DispatchConfirmProjects(cfg, w, m);
  }

  lemma DeliverProjects(cfg: Config, w: World, pkt: Packet, m: nat)
    requires GoodConfig(cfg) && CanMove(cfg, w, Move.Deliver(pkt)) && pkt.msgId in cfg.plans
    ensures Projects(cfg, w, Move.Deliver(pkt), m)
  {
    AboutAppend(w.receiver.signals, Tagged(pkt.msgId, Stop), m);
    assert w.receiver.signals + [] == w.receiver.signals;
  }

  lemma PopPostProjects(cfg: Config, w: World, m: nat)
    requires GoodConfig(cfg) && CanMove(cfg, w, Move.PopPost) && Target(w, Move.PopPost) in cfg.plans
    ensures Projects(cfg, w, Move.PopPost, m)
  {}

  lemma ReceiverNoticeProjects(cfg: Config, w: World, m: nat)
    requires GoodConfig(cfg) && CanMove(cfg, w, Move.ReceiverNotice)
    requires Target(w, Move.ReceiverNotice) in cfg.plans
    ensures Projects(cfg, w, Move.ReceiverNotice, m)
  {
    var t := Target(w, Move.ReceiverNotice);
    var body := w.receiver.notices[0].body;
    if body.ConfirmStop? {
      ConfirmNoticeProjects(cfg, w, m);
    } else if m != t {
      FinishNoticeSpares(cfg, w, t, m);
    } else if t in w.receiver.recv {
      FinishPostedOwn(cfg, w, t, body.maxSeq);
    } else {
      FinishUnpostedOwn(cfg, w, t, body.maxSeq);
    }
  }

  lemma FinishNoticeSpares(cfg: Config, w: World, t: nat, m: nat)
    requires GoodConfig(cfg) && CanMove(cfg, w, Move.ReceiverNotice)
    requires m != t == Target(w, Move.ReceiverNotice) && w.receiver.notices[0].body.FinishFlow?
    ensures View(Go(cfg, w, Move.ReceiverNotice), m) == View(w, m)
  {
    FinishFields(w.receiver.(notices := w.receiver.notices[1..]), t, w.receiver.notices[0].body.maxSeq, m);
  }

  // What FinishFlow leaves of another message in the receiver.
  lemma FinishFields(r: R.ReceiverState, t: nat, v: nat, m: nat)
    requires m != t
    ensures var r' := R.FinishOne(r, t, v);
            && r' == r.(recv := r'.recv, signals := r'.signals)
            && About(r'.signals, m) == About(r.signals, m)
            && Get(r'.recv, m) == Get(r.recv, m)
  {
    if t in r.recv {
      var slots := Covering(r.recv[t].slots, v);
      AboutAppend(r.signals, Tagged(t, Retransmit(RunsOf(slots, |slots|))), m);
    } else {
      AboutAppend(r.signals, Tagged(t, Retransmit([Block(0, v + 1)])), m);
    }
    assert r.signals + [] == r.signals;
  }

  lemma FinishUnpostedOwn(cfg: Config, w: World, t: nat, v: nat)
    requires GoodConfig(cfg) && CanMove(cfg, w, Move.ReceiverNotice)
    requires w.receiver.notices[0] == Tagged(t, FinishFlow(v)) && t !in w.receiver.recv
    ensures View(w, t).notices != []
    ensures Ok(View(Go(cfg, w, Move.ReceiverNotice), t)) == AfterReceiverNotice(View(w, t))
  {
    var x := Retransmit([Block(0, v + 1)]);
    AboutAppend(w.receiver.signals, Tagged(t, x), t);
    assert View(w, t).up + [x] == About(w.sender.notices, t) + (About(w.receiver.signals, t) + [x]);
  }

  lemma FinishPostedOwn(cfg: Config, w: World, t: nat, v: nat)
    requires GoodConfig(cfg) && CanMove(cfg, w, Move.ReceiverNotice)
    requires w.receiver.notices[0] == Tagged(t, FinishFlow(v)) && t in w.receiver.recv
    ensures View(w, t).notices != []
    ensures Ok(View(Go(cfg, w, Move.ReceiverNotice), t)) == AfterReceiverNotice(View(w, t))
  {
    var slots := Covering(w.receiver.recv[t].slots, v);
    var x := Retransmit(RunsOf(slots, |slots|));
    AboutAppend(w.receiver.signals, Tagged(t, x), t);
    assert w.receiver.signals + [] == w.receiver.signals && View(w, t).up + [] == View(w, t).up;
    assert View(w, t).up + [x] == About(w.sender.notices, t) + (About(w.receiver.signals, t) + [x]);
  }

  lemma ConfirmNoticeProjects(cfg: Config, w: World, m: nat)
    requires GoodConfig(cfg) && CanMove(cfg, w, Move.ReceiverNotice)
    requires Target(w, Move.ReceiverNotice) in cfg.plans && w.receiver.notices[0].body.ConfirmStop?
    ensures Projects(cfg, w, Move.ReceiverNotice, m)
  {
    var t := Target(w, Move.ReceiverNotice);
    if t in w.receiver.recv {
      AboutAppend(w.receiver.completions, Tagged(t, w.receiver.recv[t].bytes), m);
    }
  }

  // ---- Every run ----

  // A flow in the plan keeps its invariant; no other message leaves a trace.
  ghost predicate FlowFine(cfg: Config, w: World, m: nat)
    requires w.World?
  {
    if m in cfg.plans then Inv(cfg.plans[m], View(w, m)) else View(w, m) == IDLE
  }

  ghost predicate AllFine(cfg: Config, w: World) {
    w.World? && forall m: nat :: FlowFine(cfg, w, m)
  }

  lemma StartFine(cfg: Config)
    requires GoodConfig(cfg)
    ensures AllFine(cfg, START)
  {
    forall m: nat
      ensures FlowFine(cfg, START, m)
    {
      assert View(START, m) == IDLE;
      if m in cfg.plans {
        IdleInv(cfg.plans[m]);
      }
    }
  }

  lemma MoveProjects(cfg: Config, w: World, move: Move, m: nat)
    requires GoodConfig(cfg) && CanMove(cfg, w, move) && Target(w, move) in cfg.plans
    ensures Projects(cfg, w, move, m)
  {
    match move
    case UserSend(t) => UserSendProjects(cfg, w, t, m);
    case UserRecv(t) => UserRecvProjects(cfg, w, t, m);
    case PopRequest => PopRequestProjects(cfg, w, m);
    case SendOne => SendOneProjects(cfg, w, m);
    case ResendOne => ResendOneProjects(cfg, w, m);
    case SenderNotice => SenderNoticeProjects(cfg, w, m);
    case DispatchUp => DispatchUpProjects(cfg, w, m);
    case DispatchDown => DispatchDownProjects(cfg, w, m);
    case Deliver(pkt) => DeliverProjects(cfg, w, pkt, m);
    case PopPost => PopPostProjects(cfg, w, m);
    case ReceiverNotice => ReceiverNoticeProjects(cfg, w, m);
  }

  // Only planned flows are ever in a queue or a table.
  lemma TargetPlanned(cfg: Config, w: World, move: Move)
    requires GoodConfig(cfg) && CanMove(cfg, w, move) && AllFine(cfg, w)
    ensures Target(w, move) in cfg.plans
  {
    var t := Target(w, move);
    assert FlowFine(cfg, w, t);
    if t !in cfg.plans {
      LeavesTrace(cfg, w, move);
    }
  }

  // A move is about a message that its flow's view shows.
  lemma LeavesTrace(cfg: Config, w: World, move: Move)
    requires CanMove(cfg, w, move) && Target(w, move) !in cfg.plans
    ensures View(w, Target(w, move)) != IDLE
  {
    var t := Target(w, move);
    var f := View(w, t);
    match move
    case UserSend(_) =>
    case UserRecv(_) =>
    case PopRequest => assert f.requests != [];
    case SendOne => assert f.sending.Some?;
    case ResendOne => assert f.pending.Some?;
    case SenderNotice => assert f.up != [];
    case DispatchUp => assert f.up != [];
    case DispatchDown => assert f.signals != [];
    case Deliver(pkt) => assert pkt in f.packets;
    case PopPost => assert f.posts != [];
    case ReceiverNotice => assert f.notices != [];
  }

  lemma MoveFine(cfg: Config, w: World, move: Move)
    requires GoodConfig(cfg) && CanMove(cfg, w, move) && AllFine(cfg, w)
    ensures AllFine(cfg, Go(cfg, w, move))
  {
    TargetPlanned(cfg, w, move);
    var t := Target(w, move);
    MoveProjects(cfg, w, move, t);
    assert FlowFine(cfg, w, t);
    if !move.DispatchUp? {
      FlowSafety.StepKeeps(cfg.plans[t], View(w, t), StepOf(move));
    }
    var w' := Go(cfg, w, move);
    assert w'.World?;
    forall m: nat
      ensures FlowFine(cfg, w', m)
    {
      assert FlowFine(cfg, w, m);
      MoveProjects(cfg, w, move, m);
    }
  }

  // A run: the worlds a sequence of moves passes through.
  ghost predicate Run(cfg: Config, moves: seq<Move>, worlds: seq<World>)
    requires GoodConfig(cfg)
  {
    && |worlds| == |moves| + 1 && worlds[0] == START
    && forall i :: 0 <= i < |moves| ==>
         CanMove(cfg, worlds[i], moves[i]) && worlds[i + 1] == Go(cfg, worlds[i], moves[i])
  }

  // In every run every flow is fine at every moment; in particular no CHECK fails.
  lemma {:induction false} EveryRunFine(cfg: Config, moves: seq<Move>, worlds: seq<World>, i: nat)
    requires GoodConfig(cfg) && Run(cfg, moves, worlds) && i < |worlds|
    ensures AllFine(cfg, worlds[i])
  {
    if i == 0 {
      StartFine(cfg);
    } else {
      EveryRunFine(cfg, moves, worlds, i - 1);
      MoveFine(cfg, worlds[i - 1], moves[i - 1]);
    }
  }

  // ---- What it means for a flow ----

  // Where the next move of flow m can come from.
  ghost function Holders(w: World, m: nat): nat
    requires w.World?
  {
    |About(w.sender.requests, m)|
    + B2N(m in w.sender.sending)
    + Count(About(w.receiver.notices, m), IsFinishNotice()) + Count(About(w.sender.signals, m), IsFinish())
    + Count(About(w.sender.notices, m), IsRetransmit()) + Count(About(w.receiver.signals, m), IsRetransmit())
    + B2N(m in w.sender.pending)
  }

  function IsFinishNotice(): Notice -> bool { (n: Notice) => n.FinishFlow? }

  // The receiver has sent its StopRequest for m, or is already done with it.
  ghost predicate StopSent(w: World, m: nat)
    requires w.World?
  {
    (m in w.receiver.recv && w.receiver.recv[m].stopped) || About(w.receiver.completions, m) != []
  }

  lemma {:induction false} CountConcat<T>(a: seq<T>, b: seq<T>, f: T -> bool)
    ensures Count(a + b, f) == Count(a, f) + Count(b, f)
  {
    if a == [] {
      assert a + b == b;
    } else {
      assert (a + b)[1..] == a[1..] + b;
      CountConcat(a[1..], b, f);
    }
  }

  lemma {:induction false} CountFinishNotices(n: seq<Notice>)
    ensures Count(AsSignals(n), IsFinish()) == Count(n, IsFinishNotice())
  {
    if n != [] {
      CountFinishNotices(n[1..]);
      assert AsSignals(n)[1..] == AsSignals(n[1..]);
    }
  }

  lemma HoldersAreBatons(w: World, m: nat)
    requires w.World?
    ensures Holders(w, m) == Batons(View(w, m))
  {
    CountConcat(AsSignals(About(w.receiver.notices, m)), About(w.sender.signals, m), IsFinish());
    CountFinishNotices(About(w.receiver.notices, m));
    CountConcat(About(w.sender.notices, m), About(w.receiver.signals, m), IsRetransmit());
  }

  // Until the receiver has asked to stop, exactly one party has the next move,
  // whatever UDP loses, repeats or reorders; afterwards at most one has.
  lemma SingleBaton(cfg: Config, moves: seq<Move>, worlds: seq<World>, i: nat, m: nat)
    requires GoodConfig(cfg) && Run(cfg, moves, worlds) && i < |worlds| && m in cfg.plans
    ensures worlds[i].World?
    ensures m in worlds[i].sendPosted && !StopSent(worlds[i], m) ==> Holders(worlds[i], m) == 1
    ensures Holders(worlds[i], m) <= 1
  {
    EveryRunFine(cfg, moves, worlds, i);
    assert FlowFine(cfg, worlds[i], m);
    HoldersAreBatons(worlds[i], m);
  }

  // No move of any run fails a CHECK.
  lemma NoCheckFails(cfg: Config, moves: seq<Move>, worlds: seq<World>, i: nat)
    requires GoodConfig(cfg) && Run(cfg, moves, worlds) && i < |worlds|
    ensures worlds[i] != Crashed
    ensures forall m :: m in worlds[i].sender.pending ==>
              m in worlds[i].sender.retransmitting && S.CursorInside(worlds[i].sender.pending[m])
  {
    EveryRunFine(cfg, moves, worlds, i);
    var w := worlds[i];
    forall m | m in w.sender.pending
      ensures m in w.sender.retransmitting && S.CursorInside(w.sender.pending[m])
    {
      assert FlowFine(cfg, w, m);
      PendingHeld(cfg, w, m);
    }
  }

  lemma PendingHeld(cfg: Config, w: World, m: nat)
    requires w.World? && FlowFine(cfg, w, m) && m in w.sender.pending
    ensures m in w.sender.retransmitting && S.CursorInside(w.sender.pending[m])
  {
    assert View(w, m).pending.Some?;
  }

  // A receive is stopped exactly when its bound is reached; it completes at most
  // once, with at least the bound and at most the whole message, and by then the
  // sender has completed exactly once and neither side holds anything of the flow.
  ghost predicate CompletedRight(plan: Plan, f: FlowState) {
    && (f.recv.Some? ==> (f.recv.value.stopped <==> f.recv.value.bytes >= plan.bound))
    && |f.recvDone| <= f.sendDone <= 1
    && (f.recvDone != [] ==> SenderIdle(f) && plan.bound <= f.recvDone[0] <= plan.size)
    && (f.recvDone != [] ==> f.recv.None? && f.posts == [] && f.maxSeq.None?)
    && (f.recvDone != [] ==> f.up == [] && f.signals == [] && f.notices == [])
  }

  lemma CompletesOnce(cfg: Config, moves: seq<Move>, worlds: seq<World>, i: nat, m: nat)
    requires GoodConfig(cfg) && Run(cfg, moves, worlds) && i < |worlds| && m in cfg.plans
    ensures worlds[i].World? && CompletedRight(cfg.plans[m], View(worlds[i], m))
  {
    EveryRunFine(cfg, moves, worlds, i);
    assert FlowFine(cfg, worlds[i], m);
    FineCompletes(cfg.plans[m], View(worlds[i], m));
  }

  lemma FineCompletes(plan: Plan, f: FlowState)
    requires Inv(plan, f)
    ensures CompletedRight(plan, f)
  {}

  // ---- How many StopRequests a run sends ----

  predicate MoreStops(f: FlowState, g: FlowState) {
    Count(g.up, IsStop()) > Count(f.up, IsStop())
  }

  lemma DeliverStops(plan: Plan, f: FlowState, pkt: Packet)
    requires Inv(plan, f) && Enabled(f, Step.Deliver(pkt)) && AfterDeliver(f, pkt).Ok?
    ensures var g := AfterDeliver(f, pkt).value; B2N(Stopped(g)) == B2N(Stopped(f)) + B2N(MoreStops(f, g))
  {
    CountAppend(f.up, Stop, IsStop());
    assert f.up + [] == f.up;
    if f.recv.Some? {
      FlowSafety.AcceptKeepsReceipt(plan, f.recv.value, pkt);
    }
  }

  lemma ReceiverNoticeStops(plan: Plan, f: FlowState)
    requires Inv(plan, f) && f.notices != [] && AfterReceiverNotice(f).Ok?
    ensures var g := AfterReceiverNotice(f).value; Stopped(g) == Stopped(f) && !MoreStops(f, g)
  {
    var g := AfterReceiverNotice(f).value;
    assert f.up + [] == f.up;
    if g.up != f.up {
      CountAppend(f.up, g.up[|f.up|], IsStop());
      assert g.up == f.up + [g.up[|f.up|]];
    }
    if f.notices[0].ConfirmStop? {
      assert AllDown(f)[0].Confirm?;
    }
  }

  lemma OtherStepStops(plan: Plan, f: FlowState, step: Step)
    requires 0 < plan.payload && Enabled(f, step) && Next(plan, f, step).Ok?
    requires !step.Deliver? && !step.ReceiverNotice?
    ensures var g := Next(plan, f, step).value; Stopped(g) == Stopped(f) && !MoreStops(f, g)
  {
  }

  // A step that sends a StopRequest is the one that stops the receive.
  lemma StepStops(plan: Plan, f: FlowState, step: Step)
    requires Inv(plan, f) && Enabled(f, step) && Next(plan, f, step).Ok?
    ensures var g := Next(plan, f, step).value; B2N(Stopped(g)) == B2N(Stopped(f)) + B2N(MoreStops(f, g))
  {
    match step
    case Deliver(pkt) => DeliverStops(plan, f, pkt);
    case ReceiverNotice => ReceiverNoticeStops(plan, f);
    case _ => OtherStepStops(plan, f, step);
  }

  // The StopRequests for flow m that the first i moves have sent.
  ghost function StopsSent(worlds: seq<World>, i: nat, m: nat): nat
    requires i < |worlds| && forall x :: 0 <= x < |worlds| ==> worlds[x].World?
  {
    if i == 0 then 0 else StopsSent(worlds, i - 1, m) + B2N(MoreStops(View(worlds[i - 1], m), View(worlds[i], m)))
  }

  lemma MoveStops(cfg: Config, w: World, move: Move, m: nat)
    requires GoodConfig(cfg) && CanMove(cfg, w, move) && AllFine(cfg, w)
    ensures Go(cfg, w, move).World?
    ensures var f, g := View(w, m), View(Go(cfg, w, move), m);
            B2N(Stopped(g)) == B2N(Stopped(f)) + B2N(MoreStops(f, g))
  {
    MoveFine(cfg, w, move);
    TargetPlanned(cfg, w, move);
    MoveProjects(cfg, w, move, m);
    assert FlowFine(cfg, w, m);
    if m == Target(w, move) && !move.DispatchUp? {
      StepStops(cfg.plans[m], View(w, m), StepOf(move));
    }
  }

  // In every run a flow's receiver sends one StopRequest, when it stops, and no other.
  lemma {:induction false} OneStopRequest(cfg: Config, moves: seq<Move>, worlds: seq<World>, i: nat, m: nat)
    requires GoodConfig(cfg) && Run(cfg, moves, worlds) && i < |worlds|
    ensures forall x :: 0 <= x < |worlds| ==> worlds[x].World?
    ensures StopsSent(worlds, i, m) == B2N(StopSent(worlds[i], m))
  {
    forall x | 0 <= x < |worlds|
      ensures worlds[x].World?
    {
      EveryRunFine(cfg, moves, worlds, x);
    }
    if i > 0 {
      OneStopRequest(cfg, moves, worlds, i - 1, m);
      EveryRunFine(cfg, moves, worlds, i - 1);
      MoveStops(cfg, worlds[i - 1], moves[i - 1], m);
    }
    StoppedIsSent(worlds[i], m);
  }

  lemma StoppedIsSent(w: World, m: nat)
    requires w.World?
    ensures Stopped(View(w, m)) == StopSent(w, m)
  {
  }
}
