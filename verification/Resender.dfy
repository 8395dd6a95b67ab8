/**
 * The ack-and-resend filter: messages are kept until acknowledged, resent on
 * timeout, and passed upward only the first time their key arrives.
 */
module Resender {
  import opened Common

  const K30: nat := 0x4000_0000
  const K32: nat := 0x1_0000_0000
  const K40: nat := 0x100_0000_0000
  const K48: nat := 0x1_0000_0000_0000
  const K64: nat := 0x1_0000_0000_0000_0000

  // A non-negative int other than kEmpty.
  type Timestamp = t: int | 0 <= t < 0x7FFF_FFFF

  datatype Message = Message(app: nat, sender: nat, recver: nat, timestamp: Timestamp, request: bool, body: nat)

  // ---- Keys ----

  // The ids are cast to uint16_t and uint8_t.  timestamp << 1 is an int; when its sign
  // bit is set, widening it to 64 bits sets the whole upper half of the key.
  function GetKey(m: Message): nat {
    var low := 2 * m.timestamp + B2N(m.request);
    if m.timestamp < K30 then
      m.app % 0x1_0000 * K48 + m.sender % 0x100 * K40 + m.recver % 0x100 * K32 + low
    else K64 - K32 + low
  }

  // What is left of the ids in a key.
  predicate SameCastIds(m: Message, m': Message) {
    && m.app % 0x1_0000 == m'.app % 0x1_0000
    && m.sender % 0x100 == m'.sender % 0x100
    && m.recver % 0x100 == m'.recver % 0x100
  }

  lemma SplitHigh(a: nat, b: nat, c: nat, d: nat, a': nat, b': nat, c': nat, d': nat)
    requires b < 0x100 && c < 0x100 && d < K32 && b' < 0x100 && c' < 0x100 && d' < K32
    requires a * K48 + b * K40 + c * K32 + d == a' * K48 + b' * K40 + c' * K32 + d'
    ensures a == a' && b == b' && c == c' && d == d'
  {}

  lemma EarlyBelowLate(m: Message, m': Message)
    requires m.timestamp < K30 <= m'.timestamp
    ensures GetKey(m) != GetKey(m')
  {
    var a, b, c := m.app % 0x1_0000, m.sender % 0x100, m.recver % 0x100;
    assert a < 0x1_0000 && b < 0x100 && c < 0x100;
  }

  // Two keys agree exactly when timestamp and direction agree and either the ids agree
  // after their casts or the timestamp is so large that the key has lost them.
  lemma KeysEqualIff(m: Message, m': Message)
    ensures GetKey(m) == GetKey(m') <==>
            && m.timestamp == m'.timestamp && m.request == m'.request
            && (m.timestamp >= K30 || SameCastIds(m, m'))
  {
    var low, low' := 2 * m.timestamp + B2N(m.request), 2 * m'.timestamp + B2N(m'.request);
    if m.timestamp < K30 && m'.timestamp < K30 {
      if GetKey(m) == GetKey(m') {
        SplitHigh(m.app % 0x1_0000, m.sender % 0x100, m.recver % 0x100, low,
                  m'.app % 0x1_0000, m'.sender % 0x100, m'.recver % 0x100, low');
      }
    } else if m.timestamp < K30 {
      EarlyBelowLate(m, m');
    } else if m'.timestamp < K30 {
      EarlyBelowLate(m', m);
    }
  }

  // Below 2^30 every field can be read back from its place in the key.
  lemma FieldsReadBack(m: Message)
    requires m.timestamp < K30
    ensures GetKey(m) / 0x1_0000_0000_0000 == m.app % 0x1_0000
    ensures GetKey(m) / 0x100_0000_0000 % 0x100 == m.sender % 0x100
    ensures GetKey(m) / 0x1_0000_0000 % 0x100 == m.recver % 0x100
    ensures GetKey(m) % 0x1_0000_0000 == 2 * m.timestamp + B2N(m.request)
  {
    var a, b, c := m.app % 0x1_0000, m.sender % 0x100, m.recver % 0x100;
    var d := 2 * m.timestamp + B2N(m.request);
    assert GetKey(m) == a * 0x1_0000_0000_0000 + b * 0x100_0000_0000 + c * 0x1_0000_0000 + d;
    Digits(a, b, c, d);
  }

  lemma Digits(a: nat, b: nat, c: nat, d: nat)
    requires b < 0x100 && c < 0x100 && d < 0x1_0000_0000
    ensures var key := a * 0x1_0000_0000_0000 + b * 0x100_0000_0000 + c * 0x1_0000_0000 + d;
            && key / 0x1_0000_0000_0000 == a && key / 0x100_0000_0000 % 0x100 == b
            && key / 0x1_0000_0000 % 0x100 == c && key % 0x1_0000_0000 == d
  {
    var key := a * 0x1_0000_0000_0000 + b * 0x100_0000_0000 + c * 0x1_0000_0000 + d;
    assert key / 0x1_0000_0000 == a * 0x1_0000 + b * 0x100 + c;
    assert key / 0x100_0000_0000 == a * 0x100 + b;
  }

  // From timestamp 2^30 on, messages of different senders share a key.
  lemma LateKeysCollide()
    ensures GetKey(Message(0, 9, 8, K30, true, 0)) == GetKey(Message(0, 11, 8, K30, true, 0))
  {}

  // Worker ids are 2 * rank + 9, so workers 0 and 128 share their keys from the start.
  lemma FarWorkersCollide()
    ensures GetKey(Message(0, 2 * 0 + 9, 8, 1, true, 0)) == GetKey(Message(0, 2 * 128 + 9, 8, 1, true, 0))
  {
    KeysEqualIff(Message(0, 9, 8, 1, true, 0), Message(0, 265, 8, 1, true, 0));
  }

  // ---- One node ----

  // What the filter of a node holds: messages not yet acknowledged, and keys received.
  datatype Node = Node(sendBuff: map<nat, Message>, acked: set<nat>)

  // What goes over the network.
  datatype Packet = Data(m: Message) | Ack(to: nat, key: nat) | Terminate

  // A message that is buffered already, because it is being resent, stays as it is.
  function Outgoing(n: Node, p: Packet): Node {
    if p.Data? && GetKey(p.m) !in n.sendBuff then n.(sendBuff := n.sendBuff[GetKey(p.m) := p.m]) else n
  }

  function Incoming(n: Node, p: Packet): Node {
    match p
    case Terminate => n
    case Ack(_, key) => n.(sendBuff := n.sendBuff - {key})
    case Data(m) => n.(acked := n.acked + {GetKey(m)})
  }

  // The filter keeps the packet from the rest of the program.
  predicate Drops(n: Node, p: Packet) {
    p.Ack? || (p.Data? && GetKey(p.m) in n.acked)
  }

  // Every message is acknowledged, a duplicate too.
  function Reply(p: Packet): Option<Packet> {
    if p.Data? then Some(Ack(p.m.sender, GetKey(p.m))) else None
  }

  class Filter {
    var sendBuff: map<nat, Message>
    var acked: set<nat>

    ghost function View(): Node
      reads this
    {
      Node(sendBuff, acked)
    }

    constructor ()
      ensures View() == Node(map[], {})
    {
      sendBuff, acked := map[], {};
    }

    method AddOutgoing(p: Packet)
      modifies this
      ensures View() == Outgoing(old(View()), p)
    {
      match p {
        case Data(m) =>
          var key := GetKey(m);
          if key in sendBuff {
            return;
          }
          sendBuff := sendBuff[key := m];
        case _ =>
      }
    }

    method AddIncoming(p: Packet) returns (drop: bool, reply: Option<Packet>)
      modifies this
      ensures View() == Incoming(old(View()), p)
      ensures drop == Drops(old(View()), p) && reply == Reply(p)
    {
      match p {
        case Terminate =>
          return false, None;
        case Ack(_, key) =>
          if key in sendBuff {
            sendBuff := sendBuff - {key};
          }
          return true, None;
        case Data(m) =>
          var key := GetKey(m);
          drop := key in acked;
          if !drop {
            acked := acked + {key};
          }
          reply := Some(Ack(m.sender, key));
      }
    }
  }

  // ---- Many nodes over a bad network ----

  // Whatever has been sent may arrive never, once or many times, in any order.
  // `sending` are messages on the wire that Van::Send has not buffered yet.
  datatype System = System(
    sent: set<Message>,
    net: set<Packet>,
    sending: set<Message>,
    nodes: map<nat, Node>,
    passed: seq<Message>,     // passed upward at their receivers
    ended: set<nat>)          // nodes whose receiving thread has met its TERMINATE

  const EMPTY: System := System({}, {}, {}, map[], [], {})

  function NodeOf(nodes: map<nat, Node>, id: nat): Node {
    if id in nodes then nodes[id] else Node(map[], {})
  }

  datatype Step =
    | Send(m: Message) | Buffer(m: Message)
    | GetData(m: Message) | GetAck(to: nat, key: nat)
    | Resend(m: Message)
    | GetTerminate(at: nat)

  ghost predicate Can(s: System, step: Step) {
    match step
    case Send(_) => true
    case Buffer(m) => m in s.sending
    case GetData(m) => Data(m) in s.net && m.recver !in s.ended
    case GetAck(to, key) => Ack(to, key) in s.net && to !in s.ended
    case Resend(m) => Buffered(s, m)
    case GetTerminate(at) => at !in s.ended
  }

  // The message waits at its sender for an acknowledgement.
  predicate Buffered(s: System, m: Message) {
    var buff := NodeOf(s.nodes, m.sender).sendBuff;
    GetKey(m) in buff && buff[GetKey(m)] == m
  }

  ghost function Go(s: System, step: Step): System
    requires Can(s, step)
  {
    match step
    case Send(m) =>
      s.(sent := s.sent + {m}, net := s.net + {Data(m)}, sending := s.sending + {m})
    case Buffer(m) =>
      s.(sending := s.sending - {m}, nodes := s.nodes[m.sender := Outgoing(NodeOf(s.nodes, m.sender), Data(m))])
    case GetData(m) =>
      var n := NodeOf(s.nodes, m.recver);
      s.(net := s.net + {Reply(Data(m)).value},
         nodes := s.nodes[m.recver := Incoming(n, Data(m))],
         passed := if Drops(n, Data(m)) then s.passed else s.passed + [m])
    case GetAck(to, key) =>
      s.(nodes := s.nodes[to := Incoming(NodeOf(s.nodes, to), Ack(to, key))])
    case Resend(m) => s.(net := s.net + {Data(m)}, sending := s.sending + {m})
    case GetTerminate(at) =>
      var n := NodeOf(s.nodes, at);
      s.(nodes := s.nodes[at := Incoming(n, Terminate)],
         ended := if Drops(n, Terminate) then s.ended else s.ended + {at})
  }

  // Node `at` has recorded a key exactly if it has passed a message with that key upward.
  ghost predicate RecordedRight(s: System, at: nat) {
    forall key :: key in NodeOf(s.nodes, at).acked <==>
      exists m :: m in s.passed && m.recver == at && GetKey(m) == key
  }

  // An entry is a message of its own node under its own key.
  ghost predicate BufferRight(s: System, at: nat) {
    var buff := NodeOf(s.nodes, at).sendBuff;
    forall key :: key in buff ==> buff[key] in s.sent && buff[key].sender == at && GetKey(buff[key]) == key
  }

  // An acknowledgement tells of a message whose key its receiver has recorded.
  ghost predicate AckRight(s: System, to: nat, key: nat) {
    Ack(to, key) in s.net ==>
      exists m :: m in s.sent && m.sender == to && GetKey(m) == key && key in NodeOf(s.nodes, m.recver).acked
  }

  ghost predicate Inv(s: System) {
    && (forall m :: Data(m) in s.net || m in s.sending || m in s.passed ==> m in s.sent)
    && (forall at: nat :: RecordedRight(s, at) && BufferRight(s, at))
    && (forall to, key :: AckRight(s, to, key))
    && NoDup(s.passed)
  }

  lemma SendKeeps(s: System, m: Message)
    requires Inv(s)
    ensures Inv(Go(s, Send(m)))
  {
    var s' := Go(s, Send(m));
    SameNodes(s, s');
  }

  lemma ResendKeeps(s: System, m: Message)
    requires Inv(s) && Can(s, Resend(m))
    ensures Inv(Go(s, Resend(m)))
  {
    assert BufferRight(s, m.sender);
    SameNodes(s, Go(s, Resend(m)));
  }

  // Sending changes no node and adds no acknowledgement.
  lemma SameNodes(s: System, s': System)
    requires Inv(s) && s'.nodes == s.nodes && s'.passed == s.passed && s.sent <= s'.sent
    requires forall to, key :: Ack(to, key) in s'.net ==> Ack(to, key) in s.net
    ensures forall at: nat :: RecordedRight(s', at) && BufferRight(s', at)
    ensures forall to, key :: AckRight(s', to, key)
  {
    forall at: nat
      ensures RecordedRight(s', at) && BufferRight(s', at)
    {
      assert RecordedRight(s, at) && BufferRight(s, at);
    }
    forall to, key
      ensures AckRight(s', to, key)
    {
      assert AckRight(s, to, key);
    }
  }

  // One node changes, no key is forgotten, nothing is passed and nothing acknowledged.
  lemma BufferKeeps(s: System, m: Message)
    requires Inv(s) && Can(s, Buffer(m))
    ensures Inv(Go(s, Buffer(m)))
  {
    OneBuffer(s, Go(s, Buffer(m)), m.sender);
  }

  lemma GetAckKeeps(s: System, to: nat, key: nat)
    requires Inv(s) && Can(s, GetAck(to, key))
    ensures Inv(Go(s, GetAck(to, key)))
  {
    OneBuffer(s, Go(s, GetAck(to, key)), to);
  }

  lemma GetTerminateKeeps(s: System, at: nat)
    requires Inv(s) && at !in s.ended
    ensures Inv(Go(s, GetTerminate(at)))
  {
    OneBuffer(s, Go(s, GetTerminate(at)), at);
  }

  // The filter lets TERMINATE through whatever it holds, and forgets nothing over it.
  lemma TerminateEndsNode(s: System, at: nat, x: nat)
    requires at !in s.ended
    ensures at in Go(s, GetTerminate(at)).ended
    ensures NodeOf(Go(s, GetTerminate(at)).nodes, x) == NodeOf(s.nodes, x)
  {
  }

  lemma OneBuffer(s: System, s': System, at: nat)
    requires Inv(s) && s'.sent == s.sent && s'.net == s.net && s'.sending <= s.sending && s'.passed == s.passed
    requires forall x: nat :: NodeOf(s'.nodes, x).acked == NodeOf(s.nodes, x).acked
    requires forall x: nat :: x != at ==> NodeOf(s'.nodes, x) == NodeOf(s.nodes, x)
    requires BufferRight(s, at) ==> BufferRight(s', at)
    ensures Inv(s')
  {
    forall x: nat
      ensures RecordedRight(s', x) && BufferRight(s', x)
    {
      assert RecordedRight(s, x) && BufferRight(s, x);
    }
    forall t, key
      ensures AckRight(s', t, key)
    {
      assert AckRight(s, t, key);
    }
  }

  lemma GetDataRecords(s: System, m: Message, at: nat)
    requires Inv(s) && Can(s, GetData(m))
    ensures RecordedRight(Go(s, GetData(m)), at)
  {
    var s' := Go(s, GetData(m));
    assert RecordedRight(s, at) && RecordedRight(s, m.recver);
    assert forall x :: x in s'.passed <==> x in s.passed || (x == m && !Drops(NodeOf(s.nodes, m.recver), Data(m)));
  }

  lemma GetDataAcks(s: System, m: Message, to: nat, key: nat)
    requires Inv(s) && Can(s, GetData(m))
    ensures AckRight(Go(s, GetData(m)), to, key)
  {
    var s' := Go(s, GetData(m));
    assert AckRight(s, to, key);
    assert m in s'.sent && GetKey(m) in NodeOf(s'.nodes, m.recver).acked;
    assert forall x: nat :: NodeOf(s.nodes, x).acked <= NodeOf(s'.nodes, x).acked;
  }

  lemma GetDataKeeps(s: System, m: Message)
    requires Inv(s) && Can(s, GetData(m))
    ensures Inv(Go(s, GetData(m)))
  {
    var s' := Go(s, GetData(m));
    forall at: nat
      ensures RecordedRight(s', at) && BufferRight(s', at)
    {
      GetDataRecords(s, m, at);
      assert BufferRight(s, at);
    }
    forall to, key
      ensures AckRight(s', to, key)
    {
      GetDataAcks(s, m, to, key);
    }
    assert RecordedRight(s, m.recver);
  }

  lemma StepKeeps(s: System, step: Step)
    requires Inv(s) && Can(s, step)
    ensures Inv(Go(s, step))
  {
    match step
    case Send(m) => SendKeeps(s, m);
    case Buffer(m) => BufferKeeps(s, m);
    case GetData(m) => GetDataKeeps(s, m);
    case GetAck(to, key) => GetAckKeeps(s, to, key);
    case Resend(m) => ResendKeeps(s, m);
    case GetTerminate(at) => GetTerminateKeeps(s, at);
  }

  ghost predicate Run(steps: seq<Step>, states: seq<System>) {
    && |states| == |steps| + 1 && states[0] == EMPTY
    && forall i :: 0 <= i < |steps| ==> Can(states[i], steps[i]) && states[i + 1] == Go(states[i], steps[i])
  }

  lemma {:induction false} RunInv(steps: seq<Step>, states: seq<System>, i: nat)
    requires Run(steps, states) && i < |states|
    ensures Inv(states[i])
  {
    if i > 0 {
      RunInv(steps, states, i - 1);
      StepKeeps(states[i - 1], steps[i - 1]);
    }
  }

  // No message goes up twice, and only messages that were sent do, whatever keys collide.
  lemma PassedAtMostOnce(steps: seq<Step>, states: seq<System>, i: nat)
    requires Run(steps, states) && i < |states|
    ensures NoDup(states[i].passed) && forall m :: m in states[i].passed ==> m in states[i].sent
  {
    RunInv(steps, states, i);
  }

  // ---- Nothing is forgotten before it is acknowledged ----

  // A message that has been sent waits under its key, or another with that key does.
  lemma BufferHolds(s: System, m: Message)
    requires Can(s, Buffer(m))
    ensures GetKey(m) in NodeOf(Go(s, Buffer(m)).nodes, m.sender).sendBuff
    ensures GetKey(m) !in NodeOf(s.nodes, m.sender).sendBuff ==> Buffered(Go(s, Buffer(m)), m)
  {
  }

  // It stays there, resent or not, until an acknowledgement with its key comes.
  lemma BufferedUntilAcked(s: System, m: Message, step: Step)
    requires Can(s, step) && Buffered(s, m) && step != GetAck(m.sender, GetKey(m))
    ensures Buffered(Go(s, step), m)
  {
  }

  /**
   * A message that waits can always still get through: resent, received and acknowledged,
   * it is recorded at its receiver and waits no longer, even if it had arrived before.
   */
  lemma ResendDelivers(s: System, m: Message) returns (s1: System, s2: System, s3: System)
    requires Inv(s) && Buffered(s, m) && m.sender !in s.ended && m.recver !in s.ended
    ensures Can(s, Resend(m)) && s1 == Go(s, Resend(m))
    ensures Can(s1, GetData(m)) && s2 == Go(s1, GetData(m))
    ensures Can(s2, GetAck(m.sender, GetKey(m))) && s3 == Go(s2, GetAck(m.sender, GetKey(m)))
    ensures GetKey(m) in NodeOf(s3.nodes, m.recver).acked && !Buffered(s3, m)
    ensures m in s3.passed || exists x :: x in s3.passed && x.recver == m.recver && GetKey(x) == GetKey(m)
  {
    s1 := Go(s, Resend(m));
    s2 := Go(s1, GetData(m));
    s3 := Go(s2, GetAck(m.sender, GetKey(m)));
    assert RecordedRight(s, m.recver);
  }

  // An acknowledgement that overtakes a resend does not end it: Van::Send buffers the
  // message once more, and it is resent until it is acknowledged again.
  lemma ResendOutlivesAck(s: System, m: Message) returns (s1: System, s2: System, s3: System)
    requires Inv(s) && Buffered(s, m) && Ack(m.sender, GetKey(m)) in s.net && m.sender !in s.ended
    ensures Can(s, Resend(m)) && s1 == Go(s, Resend(m))
    ensures Can(s1, GetAck(m.sender, GetKey(m))) && s2 == Go(s1, GetAck(m.sender, GetKey(m)))
    ensures !Buffered(s2, m) && Can(s2, Buffer(m)) && s3 == Go(s2, Buffer(m))
    ensures Buffered(s3, m)
  {
    s1 := Go(s, Resend(m));
    s2 := Go(s1, GetAck(m.sender, GetKey(m)));
    s3 := Go(s2, Buffer(m));
  }

  // ---- When an acknowledgement can be trusted ----

  // Two messages with one key that meet at a node.
  predicate Clash(a: Message, b: Message) {
    a != b && GetKey(a) == GetKey(b) && (a.sender == b.sender || a.recver == b.recver)
  }

  ghost predicate NoClash(sent: set<Message>) {
    forall a, b :: a in sent && b in sent ==> !Clash(a, b)
  }

  // While no two messages clash, an acknowledgement that clears a send entry comes
  // after the receiver has recorded and passed on that very message.
  lemma ClearedOnlyWhenRecorded(steps: seq<Step>, states: seq<System>, i: nat, m: Message)
    requires Run(steps, states) && i < |steps| && NoClash(states[i].sent)
    requires steps[i] == GetAck(m.sender, GetKey(m)) && Buffered(states[i], m)
    ensures m in states[i].passed && GetKey(m) in NodeOf(states[i].nodes, m.recver).acked
  {
    RunInv(steps, states, i);
    var s, key := states[i], GetKey(m);
    assert BufferRight(s, m.sender) && AckRight(s, m.sender, key);
    var x :| x in s.sent && x.sender == m.sender && GetKey(x) == key && key in NodeOf(s.nodes, x.recver).acked;
    assert !Clash(x, m);
    assert RecordedRight(s, m.recver);
    var y :| y in s.passed && y.recver == m.recver && GetKey(y) == key;
    assert !Clash(y, m);
  }

  // The messages lost to a clash: cleared at the sender, never passed at the receiver.
  ghost predicate Loses(steps: seq<Step>, states: seq<System>, m: Message) {
    && Run(steps, states) && steps != []
    && var i := |steps| - 1;
       && steps[i] == GetAck(m.sender, GetKey(m)) && Buffered(states[i], m)
       && m !in states[i + 1].passed && !Buffered(states[i + 1], m)
  }

  // At one receiver: the second message counts as a duplicate and is acknowledged as one.
  lemma SameReceiverLoses(a: Message, b: Message) returns (steps: seq<Step>, states: seq<System>)
    requires Clash(a, b) && a.recver == b.recver
    ensures Loses(steps, states, b)
  {
    var s1 := Go(EMPTY, Send(a));
    var s2 := Go(s1, GetData(a));
    var s3 := Go(s2, Send(b));
    var s4 := Go(s3, Buffer(b));
    var s5 := Go(s4, GetData(b));
    assert s5.passed == [a] && Buffered(s5, b);
    var s6 := Go(s5, GetAck(b.sender, GetKey(b)));
    steps := [Send(a), GetData(a), Send(b), Buffer(b), GetData(b), GetAck(b.sender, GetKey(b))];
    states := [EMPTY, s1, s2, s3, s4, s5, s6];
  }

  // At one sender: the acknowledgement of the first message clears the second.
  lemma SameSenderLoses(a: Message, b: Message) returns (steps: seq<Step>, states: seq<System>)
    requires Clash(a, b) && a.sender == b.sender
    ensures Loses(steps, states, b)
  {
    var s1 := Go(EMPTY, Send(a));
    var s2 := Go(s1, GetData(a));
    var s3 := Go(s2, Send(b));
    var s4 := Go(s3, Buffer(b));
    assert s4.passed == [a] && Buffered(s4, b);
    var s5 := Go(s4, GetAck(b.sender, GetKey(b)));
    steps := [Send(a), GetData(a), Send(b), Buffer(b), GetAck(b.sender, GetKey(b))];
    states := [EMPTY, s1, s2, s3, s4, s5];
  }

  /**
   * Any two messages that clash can lose one of them: some run clears the second from
   * its sender's buffer while its receiver has never passed it on.
   */
  lemma ClashLoses(a: Message, b: Message) returns (steps: seq<Step>, states: seq<System>)
    requires Clash(a, b)
    ensures Loses(steps, states, b)
  {
    if a.recver == b.recver {
      steps, states := SameReceiverLoses(a, b);
    } else {
      steps, states := SameSenderLoses(a, b);
    }
  }

  // Workers 0 and 128 write to server 0 with the same timestamp: one request is lost.
  lemma FarWorkersLose() returns (steps: seq<Step>, states: seq<System>)
    ensures Loses(steps, states, Message(0, 265, 8, 1, true, 0))
  {
    FarWorkersCollide();
    steps, states := ClashLoses(Message(0, 9, 8, 1, true, 0), Message(0, 265, 8, 1, true, 0));
  }

  predicate SameTag(x: Message, m: Message) {
    && x.app == m.app && x.sender == m.sender && x.recver == m.recver
    && x.timestamp == m.timestamp && x.request == m.request
  }

  // Ids that survive their casts, and timestamps below 2^30 that are not reused, never clash.
  lemma EarlySmallIdsNeverClash(a: Message, b: Message)
    requires a.timestamp < K30 && (SameTag(a, b) ==> a == b)
    requires a.app < 0x1_0000 && a.sender < 0x100 && a.recver < 0x100
    requires b.app < 0x1_0000 && b.sender < 0x100 && b.recver < 0x100
    ensures !Clash(a, b)
  {
    KeysEqualIff(a, b);
  }
}
