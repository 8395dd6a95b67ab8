/**
 * The sending side of a connection: first pass, retransmission by block list,
 * and stopping a flow.
 */
module Sender {
  import opened Common
  import opened Blocks
  import opened Packets
  import opened Wire

  // A message on its first pass or held for retransmission.
  datatype Outgoing = Outgoing(size: nat, sent: nat)

  // A retransmit request being served: block list and cursor.
  datatype Pending = Pending(blocks: seq<Block>, blockNum: nat, seqNum: nat)

  datatype SenderState = SenderState(
    requests: seq<Tagged<nat>>,          // sr_queue_: message sizes
    sending: map<nat, Outgoing>,         // sending_msgs
    retransmitting: map<nat, Outgoing>,  // retransmitting_msgs
    pending: map<nat, Pending>,          // retransmit_reqs
    notices: seq<Tagged<Up>>,            // notification_queue_
    packets: seq<Packet>,                // handed to the UDP endpoints
    signals: seq<Tagged<Down>>,          // handed to the reliable channel
    completions: seq<Tagged<()>>)        // send completions

  function Without<T>(m: map<nat, T>, k: nat): map<nat, T> {
    m - {k}
  }

  // std::map::insert and std::map::insert(node) leave an existing entry alone.
  function InsertNew<T>(m: map<nat, T>, k: nat, v: T): map<nat, T> {
    if k in m then m else m[k := v]
  }

  // ---- One iteration of each polling loop ----

  function PopRequest(s: SenderState): Outcome<SenderState>
    requires s.requests != []
  {
    var r := s.requests[0];
    if r.msgId in s.sending then CheckFailed
    else Ok(s.(requests := s.requests[1..], sending := s.sending[r.msgId := Outgoing(r.body, 0)]))
  }

  // One packet of the first message; after its last byte the message waits for
  // retransmit requests, and FlowFinish follows the packet marked last.
  function SendOne(s: SenderState, payload: nat): SenderState
    requires 0 < payload
  {
    if s.sending == map[] then s
    else
      var m := MinKey(s.sending);
      var o := s.sending[m];
      var pkt := MakePacket(m, o.size, payload, o.sent, o.sent / payload);
      var o' := o.(sent := o.sent + Chunk(o.size, payload, o.sent));
      var s1 := s.(packets := s.packets + [pkt],
                   signals := s.signals + if pkt.isLast then [Tagged(m, Finish)] else []);
      if o'.sent >= o.size
      then s1.(sending := Without(s.sending, m),
               retransmitting := InsertNew(s.retransmitting, m, o'))
      else s1.(sending := s.sending[m := o'])
  }

  function CursorInside(p: Pending): bool {
    p.blockNum < |p.blocks|
    && p.blocks[p.blockNum].first <= p.seqNum < p.blocks[p.blockNum].last
  }

  function AtEnd(p: Pending): bool
    requires CursorInside(p)
  {
    p.blockNum + 1 == |p.blocks| && p.seqNum + 1 == p.blocks[p.blockNum].last
  }

  function Advance(p: Pending): Pending
    requires CursorInside(p)
  {
    var next := p.seqNum + 1;
    if next < p.blocks[p.blockNum].last then p.(seqNum := next)
    else if p.blockNum + 1 < |p.blocks|
    then Pending(p.blocks, p.blockNum + 1, p.blocks[p.blockNum + 1].first)
    else Pending(p.blocks, p.blockNum + 1, next)
  }

  // One packet of the first pending request; FlowFinish follows its last one.
  function ResendOne(s: SenderState, payload: nat): Outcome<SenderState>
    requires 0 < payload
  {
    if s.pending == map[] then Ok(s)
    else
      var m := MinKey(s.pending);
      var p := s.pending[m];
      if m !in s.retransmitting || !CursorInside(p) then CheckFailed
      else
        var pkt := PacketAt(m, s.retransmitting[m].size, payload, p.seqNum);
        var p' := Advance(p);
        Ok(s.(packets := s.packets + [pkt],
              signals := s.signals + (if AtEnd(p) then [Tagged(m, Finish)] else []),
              pending := if p'.blockNum == |p.blocks| then Without(s.pending, m)
                         else s.pending[m := p']))
  }

  // Stopping drops the flow from wherever it is and confirms.
  function StopFlow(s: SenderState, m: nat): SenderState {
    var s1 := if m in s.sending then s.(sending := Without(s.sending, m))
              else s.(pending := Without(s.pending, m),
                      retransmitting := Without(s.retransmitting, m));
    s1.(signals := s.signals + [Tagged(m, Confirm)], completions := s.completions + [Tagged(m, ())])
  }

  function HandleNotice(s: SenderState): Outcome<SenderState>
    requires s.notices != []
  {
    var n := s.notices[0];
    var s1 := s.(notices := s.notices[1..]);
    match n.body
    case Stop => Ok(StopFlow(s1, n.msgId))
    case Retransmit(blocks) =>
      if blocks == [] then CheckFailed
      else Ok(s1.(pending := s.pending[n.msgId := Pending(blocks, 0, blocks[0].first)]))
  }

  // ---- The loops that drain a queue ----

  function PopAllRequests(s: SenderState): Outcome<SenderState>
    decreases |s.requests|
  {
    if s.requests == [] then Ok(s)
    else match PopRequest(s)
      case CheckFailed => CheckFailed
      case Ok(s') => PopAllRequests(s')
  }

  function HandleAllNotices(s: SenderState): Outcome<SenderState>
    decreases |s.notices|
  {
    if s.notices == [] then Ok(s)
    else match HandleNotice(s)
      case CheckFailed => CheckFailed
      case Ok(s') => HandleAllNotices(s')
  }

  // ---- When the CHECKs fail ----

  // Draining the queue succeeds exactly when no id is queued twice or already on its
  // first pass; then every queued message is, at its first byte, and nothing else changes.
  lemma {:induction false} AllRequestsPopped(s: SenderState)
    ensures PopAllRequests(s).Ok? <==> AllNew(s.requests, s.sending)
    ensures PopAllRequests(s).Ok? ==>
              var s' := PopAllRequests(s).value;
              && s' == s.(requests := [], sending := s'.sending)
              && (forall m :: m in s'.sending <==> m in s.sending || m in Ids(s.requests))
              && (forall m :: m in s.sending ==> s'.sending[m] == s.sending[m])
              && (forall i :: 0 <= i < |s.requests| ==>
                    s'.sending[s.requests[i].msgId] == Outgoing(s.requests[i].body, 0))
    decreases |s.requests|
  {
    if s.requests != [] {
      var r := s.requests[0];
      AllNewStep(s.requests, s.sending, Outgoing(r.body, 0));
      assert Ids(s.requests) == [r.msgId] + Ids(s.requests[1..]);
      if r.msgId !in s.sending {
        AllRequestsPopped(PopRequest(s).value);
        PoppedFirst(s);
      }
    }
  }

  lemma PoppedFirst(s: SenderState)
    requires s.requests != [] && PopRequest(s).Ok?
    ensures var s1, r := PopRequest(s).value, s.requests[0];
            s1.requests == s.requests[1..] && s1.sending == s.sending[r.msgId := Outgoing(r.body, 0)]
    ensures forall i :: 0 < i < |s.requests| ==> s.requests[i] == PopRequest(s).value.requests[i - 1]
  {
  }

  // Serving fails exactly without the message or with the cursor outside its block.
  lemma ResendFailsIff(s: SenderState, payload: nat)
    requires 0 < payload && s.pending != map[]
    ensures ResendOne(s, payload).CheckFailed? <==>
            var m := MinKey(s.pending);
            var p := s.pending[m];
            || m !in s.retransmitting || p.blockNum >= |p.blocks|
            || p.seqNum < p.blocks[p.blockNum].first || p.blocks[p.blockNum].last <= p.seqNum
  {
  }

  // Draining the notices fails exactly on a retransmit request without blocks.
  lemma {:induction false} NoticesFailIff(s: SenderState)
    ensures HandleAllNotices(s).CheckFailed? <==>
              exists i :: 0 <= i < |s.notices| && s.notices[i].body == Retransmit([])
    decreases |s.notices|
  {
    if s.notices != [] {
      if HandleNotice(s).Ok? {
        var s1 := HandleNotice(s).value;
        NoticesFailIff(s1);
        assert forall i :: 0 < i < |s.notices| ==> s.notices[i] == s1.notices[i - 1];
      } else {
        assert s.notices[0].body == Retransmit([]);
      }
    }
  }

  class PriorityChannel {
    const payload: nat
    var requests: seq<Tagged<nat>>
    var sendingMsgs: map<nat, Outgoing>
    var retransmittingMsgs: map<nat, Outgoing>
    var retransmitReqs: map<nat, Pending>
    var notices: seq<Tagged<Up>>
    var packets: seq<Packet>
    var signals: seq<Tagged<Down>>
    var completions: seq<Tagged<()>>

    ghost function View(): SenderState
      reads this
    {
      SenderState(requests, sendingMsgs, retransmittingMsgs, retransmitReqs,
                  notices, packets, signals, completions)
    }

    constructor (payload: nat)
      ensures View() == SenderState([], map[], map[], map[], [], [], [], [])
      ensures this.payload == payload
    {
      this.payload := payload;
      requests, notices, packets, signals, completions := [], [], [], [], [];
      sendingMsgs, retransmittingMsgs, retransmitReqs := map[], map[], map[];
    }

    // The part of Run that accepts send requests.
    method PollSendRequests() returns (ok: bool)
      modifies this
      ensures ok <==> PopAllRequests(old(View())).Ok?
      ensures ok ==> View() == PopAllRequests(old(View())).value
    {
      while requests != []
        invariant PopAllRequests(View()) == PopAllRequests(old(View()))
        decreases |requests|
      {
        var r := requests[0];
        if r.msgId in sendingMsgs {
          return false;
        }
        requests := requests[1..];
        sendingMsgs := sendingMsgs[r.msgId := Outgoing(r.body, 0)];
      }
      ok := true;
    }

    // RoutePacket: queue the packet, and FlowFinish behind it when asked.
    method RoutePacket(pkt: Packet, isFinished: bool)
      modifies this`packets, this`signals
      ensures packets == old(packets) + [pkt]
      ensures signals == old(signals) + if isFinished then [Tagged(pkt.msgId, Finish)] else []
    {
      packets := packets + [pkt];
      if isFinished {
        signals := signals + [Tagged(pkt.msgId, Finish)];
      }
    }

    method PollSendingMessages()
      requires 0 < payload
      modifies this
      ensures View() == SendOne(old(View()), payload)
    {
      if sendingMsgs == map[] {
        return;
      }
      var m := MinKey(sendingMsgs);
      var msg := sendingMsgs[m];
      var pkt, sent := PartitionOne(m, msg.size, payload, msg.sent);
      RoutePacket(pkt, pkt.isLast);
      msg := msg.(sent := sent);
      if msg.sent >= msg.size {
        sendingMsgs := sendingMsgs - {m};
        if m !in retransmittingMsgs {
          retransmittingMsgs := retransmittingMsgs[m := msg];
        }
      } else {
        sendingMsgs := sendingMsgs[m := msg];
      }
    }

    method PollRetransmitRequest() returns (ok: bool)
      requires 0 < payload
      modifies this
      ensures ok <==> ResendOne(old(View()), payload).Ok?
      ensures ok ==> View() == ResendOne(old(View()), payload).value
    {
      if retransmitReqs == map[] {
        return true;
      }
      var m := MinKey(retransmitReqs);
      var state := retransmitReqs[m];
      if m !in retransmittingMsgs || state.blockNum >= |state.blocks| {
        return false;
      }
      var block := state.blocks[state.blockNum];
      if !(block.first <= state.seqNum < block.last) {
        return false;
      }
      var pkt := PartitionOneBySeq(m, retransmittingMsgs[m].size, payload, state.seqNum);
      RoutePacket(pkt, state.blockNum + 1 == |state.blocks| && state.seqNum + 1 == block.last);
      state := state.(seqNum := state.seqNum + 1);
      if state.seqNum == block.last {
        state := state.(blockNum := state.blockNum + 1);
        if state.blockNum < |state.blocks| {
          state := state.(seqNum := state.blocks[state.blockNum].first);
        }
      }
      if state.blockNum == |state.blocks| {
        retransmitReqs := retransmitReqs - {m};
      } else {
        retransmitReqs := retransmitReqs[m := state];
      }
      ok := true;
    }

    method Stop(m: nat)
      modifies this
      ensures View() == StopFlow(old(View()), m)
    {
      if m !in sendingMsgs {
        retransmitReqs := retransmitReqs - {m};
        retransmittingMsgs := retransmittingMsgs - {m};
      } else {
        sendingMsgs := sendingMsgs - {m};
      }
      signals := signals + [Tagged(m, Confirm)];
      completions := completions + [Tagged(m, ())];
    }

    method PollNotification() returns (ok: bool)
      modifies this
      ensures ok <==> HandleAllNotices(old(View())).Ok?
      ensures ok ==> View() == HandleAllNotices(old(View())).value
    {
      while notices != []
        invariant HandleAllNotices(View()) == HandleAllNotices(old(View()))
        decreases |notices|
      {
        var n := notices[0];
        notices := notices[1..];
        match n.body
        case Stop =>
          Stop(n.msgId);
        case Retransmit(blocks) =>
          if blocks == [] {
            return false;
          }
          retransmitReqs := retransmitReqs[n.msgId := Pending(blocks, 0, blocks[0].first)];
      }
      ok := true;
    }
  }
}
