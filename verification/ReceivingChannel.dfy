/**
 * The receiving side of a connection: copying packets, asking for what is
 * missing, and stopping the sender once enough has arrived.
 */
module Receiver {
  import opened Blocks
  import opened Packets
  import opened Messages
  import opened Wire

  // AlignUp(sizeof(float), n)
  function AlignUp4(n: nat): nat {
    (n + 3) / 4 * 4
  }

  // The whole bytes that must arrive; the product is a double in the program,
  // taken as exact here.
  function Wanted(size: nat, lossRatio: real): nat
    requires 0.0 <= lossRatio <= 1.0
  {
    assert 0.0 <= (size as real) * (1.0 - lossRatio);
    ((size as real) * (1.0 - lossRatio)).Floor
  }

  function Bound(size: nat, lossRatio: real): nat
    requires 0.0 <= lossRatio <= 1.0
  {
    AlignUp4(Wanted(size, lossRatio))
  }

  // Whole floats, less than a byte short of the tolerated share and less than four over.
  lemma BoundIsRounded(size: nat, lossRatio: real)
    requires 0.0 <= lossRatio <= 1.0
    ensures Bound(size, lossRatio) % 4 == 0
    ensures (size as real) * (1.0 - lossRatio) - 1.0 < Bound(size, lossRatio) as real
            < (size as real) * (1.0 - lossRatio) + 4.0
  {
    var n := Wanted(size, lossRatio);
    assert n <= AlignUp4(n) <= n + 3;
  }

  datatype Request = Request(size: nat, bound: nat)

  datatype ReceiverState = ReceiverState(
    posts: seq<Tagged<Request>>,       // rr_queue_
    recv: map<nat, Posted>,            // recv_msgs
    maxSeq: map<nat, nat>,             // msg_max_seq of the reliable endpoint
    notices: seq<Tagged<Notice>>,      // notification_queue_
    signals: seq<Tagged<Up>>,          // handed to the reliable channel
    completions: seq<Tagged<nat>>)     // receive completions with byte counts

  // The user posts a receive.
  function Post(s: ReceiverState, m: nat, request: Request): ReceiverState {
    s.(posts := s.posts + [Tagged(m, request)])
  }

  function PopPost(s: ReceiverState): Outcome<ReceiverState>
    requires s.posts != []
  {
    var p := s.posts[0];
    if p.msgId in s.recv then CheckFailed
    else Ok(s.(posts := s.posts[1..],
               recv := s.recv[p.msgId := Posted(p.body.size, p.body.bound, 0, false, [])]))
  }

  // What one packet does to a posted receive.
  function Accept(r: Posted, pkt: Packet): Outcome<Posted>
    requires HEADER <= pkt.len
  {
    var room := Room(r.slots, pkt.seqNum);
    if room[pkt.seqNum] then Ok(r)
    else if pkt.offset + PayloadOf(pkt) > r.size then CheckFailed
    else
      var r' := r.(slots := room[pkt.seqNum := true], bytes := r.bytes + PayloadOf(pkt));
      Ok(r'.(stopped := r.stopped || (PayloadOf(pkt) > 0 && Finished(r'))))
  }

  // The bookkeeping of a record is that of the message whose bytes are copied.
  lemma AcceptIsReceive(r: Posted, pkt: Packet, data: seq<Messages.Byte>, buf: seq<Messages.Byte>)
    requires HEADER <= pkt.len && |data| == PayloadOf(pkt) && |buf| == r.size
    requires pkt.offset + |data| <= |buf|
    ensures Accept(r, pkt).Ok?
    ensures var st := Messages.Receive(Messages.Receipt(r.slots, r.bytes, buf), pkt.seqNum, pkt.offset, data);
            Accept(r, pkt).value.slots == st.slots && Accept(r, pkt).value.bytes == st.bytes
  {
  }

  // A packet for a message that is not posted is dropped; the packet that
  // completes a receive sends StopRequest.
  function HandleReceive(s: ReceiverState, pkt: Packet): Outcome<ReceiverState>
    requires HEADER <= pkt.len
  {
    if pkt.msgId !in s.recv then Ok(s)
    else
      var r := s.recv[pkt.msgId];
      match Accept(r, pkt)
      case CheckFailed => CheckFailed
      case Ok(r') =>
        Ok(s.(recv := s.recv[pkt.msgId := r'],
              signals := s.signals
                + if r'.stopped && !r.stopped then [Tagged(pkt.msgId, Stop)] else []))
  }

  // Ask for the missing blocks unless enough has arrived.  A receive that is not
  // posted asks for everything.
  function FinishOne(s: ReceiverState, m: nat, maxSeq: nat): ReceiverState {
    if m !in s.recv then
      s.(signals := s.signals + [Tagged(m, Retransmit([Block(0, maxSeq + 1)]))])
    else
      var r := s.recv[m];
      if Finished(r) then s
      else
        var slots := Covering(r.slots, maxSeq);
        var blocks := RunsOf(slots, |slots|);
        s.(recv := s.recv[m := r.(slots := slots)],
           signals := s.signals + if blocks == [] then [] else [Tagged(m, Retransmit(blocks))])
  }

  function ConfirmOne(s: ReceiverState, m: nat): Outcome<ReceiverState> {
    if m !in s.recv then CheckFailed
    else Ok(s.(recv := s.recv - {m}, completions := s.completions + [Tagged(m, s.recv[m].bytes)]))
  }

  function HandleNotice(s: ReceiverState): Outcome<ReceiverState>
    requires s.notices != []
  {
    var n := s.notices[0];
    var s1 := s.(notices := s.notices[1..]);
    match n.body
    case FinishFlow(maxSeq) => Ok(FinishOne(s1, n.msgId, maxSeq))
    case ConfirmStop => ConfirmOne(s1, n.msgId)
  }

  // The reliable endpoint's dispatch of a signal from the sender.
  function Dispatch(s: ReceiverState, m: nat, signal: Down): Outcome<ReceiverState> {
    match signal
    case Start(maxSeq) => Ok(s.(maxSeq := s.maxSeq[m := maxSeq]))
    case Finish =>
      if m !in s.maxSeq then CheckFailed
      else Ok(s.(notices := s.notices + [Tagged(m, FinishFlow(s.maxSeq[m]))]))
    case Confirm =>
      Ok(s.(notices := s.notices + [Tagged(m, ConfirmStop)], maxSeq := s.maxSeq - {m}))
  }

  // ---- The loops that drain a queue ----

  function PopAllPosts(s: ReceiverState): Outcome<ReceiverState>
    decreases |s.posts|
  {
    if s.posts == [] then Ok(s)
    else match PopPost(s)
      case CheckFailed => CheckFailed
      case Ok(s') => PopAllPosts(s')
  }

  function HandleAllNotices(s: ReceiverState): Outcome<ReceiverState>
    decreases |s.notices|
  {
    if s.notices == [] then Ok(s)
    else match HandleNotice(s)
      case CheckFailed => CheckFailed
      case Ok(s') => HandleAllNotices(s')
  }

  // ---- When the CHECKs fail ----

  // Draining the queue succeeds exactly when no id is queued twice or already posted;
  // then every queued receive is posted, empty, and nothing else changes.
  lemma {:induction false} AllPostsPopped(s: ReceiverState)
    ensures PopAllPosts(s).Ok? <==> AllNew(s.posts, s.recv)
    ensures PopAllPosts(s).Ok? ==>
              var s' := PopAllPosts(s).value;
              && s' == s.(posts := [], recv := s'.recv)
              && (forall m :: m in s'.recv <==> m in s.recv || m in Ids(s.posts))
              && (forall m :: m in s.recv ==> s'.recv[m] == s.recv[m])
              && (forall i :: 0 <= i < |s.posts| ==>
                    s'.recv[s.posts[i].msgId] == Posted(s.posts[i].body.size, s.posts[i].body.bound, 0, false, []))
    decreases |s.posts|
  {
    if s.posts != [] {
      var p := s.posts[0];
      AllNewStep(s.posts, s.recv, Posted(p.body.size, p.body.bound, 0, false, []));
      assert Ids(s.posts) == [p.msgId] + Ids(s.posts[1..]);
      if p.msgId !in s.recv {
        AllPostsPopped(PopPost(s).value);
        PostedFirst(s);
      }
    }
  }

  lemma PostedFirst(s: ReceiverState)
    requires s.posts != [] && PopPost(s).Ok?
    ensures var s1, p := PopPost(s).value, s.posts[0];
            && s1.posts == s.posts[1..]
            && s1.recv == s.recv[p.msgId := Posted(p.body.size, p.body.bound, 0, false, [])]
    ensures forall i :: 0 < i < |s.posts| ==> s.posts[i] == PopPost(s).value.posts[i - 1]
  {
  }

  // A packet fails the size check exactly when it is new and reaches past the end.
  lemma PacketFailsIff(s: ReceiverState, pkt: Packet)
    requires HEADER <= pkt.len
    ensures HandleReceive(s, pkt).CheckFailed? <==>
            && pkt.msgId in s.recv && !Room(s.recv[pkt.msgId].slots, pkt.seqNum)[pkt.seqNum]
            && s.recv[pkt.msgId].size < pkt.offset + pkt.len - HEADER
  {
  }

  // StopRequest leaves with the new packet that brings the count to the bound, once; a
  // packet without payload never brings it there, even where the bound is zero.
  lemma StopIffReached(s: ReceiverState, pkt: Packet)
    requires HEADER <= pkt.len && pkt.msgId in s.recv && HandleReceive(s, pkt).Ok?
    ensures var r, s' := s.recv[pkt.msgId], HandleReceive(s, pkt).value;
            if !r.stopped && HEADER < pkt.len && !Room(r.slots, pkt.seqNum)[pkt.seqNum]
               && r.bound <= r.bytes + pkt.len - HEADER
            then s'.signals == s.signals + [Tagged(pkt.msgId, Stop)]
            else s'.signals == s.signals
  {
  }

  // A signal fails exactly if it is a FlowFinish without announcement, a notice exactly
  // if it confirms a stop of a receive that is not posted.
  lemma SignalsFailIff(s: ReceiverState, m: nat, signal: Down)
    ensures Dispatch(s, m, signal).CheckFailed? <==> signal == Finish && m !in s.maxSeq
    ensures s.notices != [] ==>
              (HandleNotice(s).CheckFailed? <==>
                 s.notices[0].body == ConfirmStop && s.notices[0].msgId !in s.recv)
  {
  }

  class ReceivingChannel {
    var posts: seq<Tagged<Request>>
    var recvMsgs: map<nat, Posted>
    var maxSeq: map<nat, nat>
    var notices: seq<Tagged<Notice>>
    var signals: seq<Tagged<Up>>
    var completions: seq<Tagged<nat>>

    ghost function View(): ReceiverState
      reads this
    {
      ReceiverState(posts, recvMsgs, maxSeq, notices, signals, completions)
    }

    constructor ()
      ensures View() == ReceiverState([], map[], map[], [], [], [])
    {
      posts, notices, signals, completions := [], [], [], [];
      recvMsgs, maxSeq := map[], map[];
    }

    method Enqueue(m: nat, size: nat, lossRatio: real)
      requires 0.0 <= lossRatio <= 1.0
      modifies this
      ensures View() == Post(old(View()), m, Request(size, Bound(size, lossRatio)))
    {
      posts := posts + [Tagged(m, Request(size, Bound(size, lossRatio)))];
    }

    // The backlog is off, so a new receive starts empty.
    method PollReceiveRequest() returns (ok: bool)
      modifies this
      ensures ok <==> PopAllPosts(old(View())).Ok?
      ensures ok ==> View() == PopAllPosts(old(View())).value
    {
      while posts != []
        invariant PopAllPosts(View()) == PopAllPosts(old(View()))
        decreases |posts|
      {
        var p := posts[0];
        if p.msgId in recvMsgs {
          return false;
        }
        posts := posts[1..];
        recvMsgs := recvMsgs[p.msgId := Posted(p.body.size, p.body.bound, 0, false, [])];
      }
      ok := true;
    }

    method OnPacket(pkt: Packet) returns (ok: bool)
      requires HEADER <= pkt.len
      modifies this
      ensures ok <==> HandleReceive(old(View()), pkt).Ok?
      ensures ok ==> View() == HandleReceive(old(View()), pkt).value
    {
      var m := pkt.msgId;
      if m !in recvMsgs {
        return true;
      }
      var msg := recvMsgs[m];
      var k := pkt.seqNum;
      var slots := if k >= |msg.slots| then GrowTo(msg.slots, k + 1) else msg.slots;
      if slots[k] {
        return true;
      }
      var copied := pkt.len - HEADER;
      if pkt.offset + copied > msg.size {
        return false;
      }
      msg := msg.(slots := slots[k := true], bytes := msg.bytes + copied);
      if copied > 0 && msg.bytes >= msg.bound && !msg.stopped {
        msg := msg.(stopped := true);
        signals := signals + [Tagged(m, Stop)];
      }
      recvMsgs := recvMsgs[m := msg];
      ok := true;
    }

    method FinishFlow(m: nat, maxSeqNum: nat)
      modifies this
      ensures View() == FinishOne(old(View()), m, maxSeqNum)
    {
      var finish := m in recvMsgs && recvMsgs[m].bytes >= recvMsgs[m].bound;
      if !finish {
        var blocks := [Block(0, maxSeqNum + 1)];
        if m in recvMsgs {
          var msg := recvMsgs[m];
          if |msg.slots| <= maxSeqNum {
            msg := msg.(slots := GrowTo(msg.slots, maxSeqNum + 1));
          }
          recvMsgs := recvMsgs[m := msg];
          blocks := RunsOf(msg.slots, |msg.slots|);
        }
        if blocks == [] {
          return;
        }
        signals := signals + [Tagged(m, Retransmit(blocks))];
      }
    }

    method PollNotification() returns (ok: bool)
      modifies this
      ensures ok <==> HandleAllNotices(old(View())).Ok?
      ensures ok ==> View() == HandleAllNotices(old(View())).value
    {
      while notices != []
        invariant HandleAllNotices(View()) == HandleAllNotices(old(View()))
        decreases |notices|
      {
        var n := notices[0];
        notices := notices[1..];
        match n.body
        case FinishFlow(maxSeqNum) =>
          FinishFlow(n.msgId, maxSeqNum);
        case ConfirmStop =>
          if n.msgId !in recvMsgs {
            return false;
          }
          completions := completions + [Tagged(n.msgId, recvMsgs[n.msgId].bytes)];
          recvMsgs := recvMsgs - {n.msgId};
      }
      ok := true;
    }

    // The reliable endpoint's HandleReceivedData for signals from the sender.
    method HandleReceivedData(m: nat, signal: Down) returns (ok: bool)
      modifies this
      ensures ok <==> Dispatch(old(View()), m, signal).Ok?
      ensures ok ==> View() == Dispatch(old(View()), m, signal).value
    {
      match signal {
        case Start(max) =>
          maxSeq := maxSeq[m := max];
        case Finish =>
          if m !in maxSeq {
            return false;
          }
          notices := notices + [Tagged(m, Notice.FinishFlow(maxSeq[m]))];
        case Confirm =>
          notices := notices + [Tagged(m, ConfirmStop)];
          maxSeq := maxSeq - {m};
      }
      ok := true;
    }
  }
}
