/**
 * What the two ends of a connection exchange about a flow.  Every queue entry
 * is tagged with the message id it is about.
 */
module Wire {
  import opened Common
  import opened Blocks

  // The result of a step that contains CHECKs: the program aborts when one fails.
  datatype Outcome<+T> = Ok(value: T) | CheckFailed

  datatype Tagged<+T> = Tagged(msgId: nat, body: T)

  // Sender to receiver on the reliable channel.
  datatype Down = Start(maxSeq: nat) | Finish | Confirm

  // Receiver to sender on the reliable channel.
  datatype Up = Retransmit(blocks: seq<Block>) | Stop

  // What the receiving endpoint hands to the receiving thread.
  datatype Notice = FinishFlow(maxSeq: nat) | ConfirmStop

  // The entries about message m, in order.
  function About<T>(q: seq<Tagged<T>>, m: nat): seq<T> {
    if q == [] then []
    else (if q[0].msgId == m then [q[0].body] else []) + About(q[1..], m)
  }

  lemma AboutCons<T>(x: Tagged<T>, q: seq<Tagged<T>>, m: nat)
    ensures About([x] + q, m) == (if x.msgId == m then [x.body] else []) + About(q, m)
  {
    assert ([x] + q)[1..] == q;
  }

  lemma {:induction false} AboutAppend<T>(q: seq<Tagged<T>>, x: Tagged<T>, m: nat)
    ensures About(q + [x], m) == About(q, m) + if x.msgId == m then [x.body] else []
  {
    if q == [] {
      assert q + [x] == [x];
    } else {
      HeadFirst(q, [x]);
      AboutAppend(q[1..], x, m);
      AboutCons(q[0], q[1..] + [x], m);
      Regroup(if q[0].msgId == m then [q[0].body] else [], About(q[1..], m), if x.msgId == m then [x.body] else []);
    }
  }

  // The ids a queue is about, in order.
  function Ids<T>(q: seq<Tagged<T>>): (ids: seq<nat>)
    ensures |ids| == |q| && forall i :: 0 <= i < |q| ==> ids[i] == q[i].msgId
  {
    seq(|q|, i requires 0 <= i < |q| => q[i].msgId)
  }

  // No id twice, and none that is in use.
  ghost predicate AllNew<T, U>(q: seq<Tagged<T>>, used: map<nat, U>) {
    NoDup(Ids(q)) && forall i :: 0 <= i < |q| ==> q[i].msgId !in used
  }

  lemma AllNewStep<T, U>(q: seq<Tagged<T>>, used: map<nat, U>, v: U)
    requires q != []
    ensures AllNew(q, used) <==> q[0].msgId !in used && AllNew(q[1..], used[q[0].msgId := v])
  {
    assert Ids(q) == [q[0].msgId] + Ids(q[1..]);
    if q[0].msgId !in used && AllNew(q[1..], used[q[0].msgId := v]) {
      forall i, j | 0 <= i < j < |q|
        ensures Ids(q)[i] != Ids(q)[j]
      {
        assert q[j] == q[1..][j - 1];
        if i > 0 {
          assert Ids(q[1..])[i - 1] != Ids(q[1..])[j - 1];
        }
      }
    }
    if AllNew(q, used) {
      forall i | 0 <= i < |q| - 1
        ensures q[1..][i].msgId !in used[q[0].msgId := v]
      {
        assert Ids(q)[0] != Ids(q)[i + 1];
      }
    }
  }

  // How many entries of a queue satisfy a test.
  function Count<T>(q: seq<T>, f: T -> bool): nat {
    if q == [] then 0 else (if f(q[0]) then 1 else 0) + Count(q[1..], f)
  }

  lemma {:induction false} CountAppend<T>(q: seq<T>, x: T, f: T -> bool)
    ensures Count(q + [x], f) == Count(q, f) + if f(x) then 1 else 0
  {
    if q == [] {
      assert q + [x] == [x];
    } else {
      assert (q + [x])[1..] == q[1..] + [x];
      CountAppend(q[1..], x, f);
    }
  }

  // std::map::begin
  function MinKey<T>(m: map<nat, T>): (k: nat)
    requires m != map[]
    ensures k in m && forall k' :: k' in m ==> k <= k'
  {
    MinExists(m.Keys);
    assert exists k :: k in m && forall k' :: k' in m ==> k <= k' by {
      var k :| IsMin(m.Keys, k);
    }
    var k :| k in m && forall k' :: k' in m ==> k <= k';
    k
  }

  lemma {:induction false} MinExists(s: set<nat>)
    requires s != {}
    ensures exists k :: IsMin(s, k)
  {
    var x :| x in s;
    var rest := s - {x};
    if rest == {} {
      assert s == {x};
      assert IsMin(s, x);
    } else {
      MinExists(rest);
      var y :| IsMin(rest, y);
      MinOfTwo(s, x, y);
    }
  }

  ghost predicate IsMin(s: set<nat>, k: nat) {
    k in s && forall k' :: k' in s ==> k <= k'
  }

  lemma MinOfTwo(s: set<nat>, x: nat, y: nat)
    requires x in s && IsMin(s - {x}, y)
    ensures IsMin(s, if x <= y then x else y)
  {
    forall k' | k' in s
      ensures (if x <= y then x else y) <= k'
    {
      assert k' == x || k' in s - {x};
    }
  }
}
