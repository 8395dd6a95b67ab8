/**
 * Requests to the server group: the response tracker, the callback, and what
 * Wait may rely on.  The user's thread sends, servers answer in any order, and
 * one receiving thread handles the answers.
 */
module Customer {
  import opened Common

  // ---- What a worker keeps of a request ----

  // expected and count are the tracker's pair; replies are the servers whose answers
  // Process has stored; callback says whether one is registered, runs how often it ran.
  datatype Tally = Tally(expected: nat, count: nat, replies: seq<nat>, callback: bool, runs: nat)

  function Started(servers: nat): Tally {
    Tally(servers, 0, [], true, 0)
  }

  // RunCallback: once, then the callback is gone.
  function RunCallback(t: Tally): Tally {
    if t.callback then t.(callback := false, runs := t.runs + 1) else t
  }

  // Send first counts the servers that are skipped, and runs the callback itself when
  // that is all of them.
  function AddSkipped(t: Tally, skipped: nat): Tally {
    var t' := t.(count := t.count + skipped);
    if skipped == t.expected then RunCallback(t') else t'
  }

  // Process stores the answer and runs the callback on the last one.
  function Process(t: Tally, server: nat): Tally {
    var t' := t.(replies := t.replies + [server]);
    if t.count + 1 == t.expected then RunCallback(t') else t'
  }

  function CountOne(t: Tally): Tally {
    t.(count := t.count + 1)
  }

  // WaitRequest returns when the two numbers agree.
  predicate WaitReturns(t: Tally) {
    t.count == t.expected
  }

  class Worker {
    var tracker: seq<(nat, nat)>        // tracker_
    var callbacks: set<nat>             // callbacks_
    var recvKvs: map<nat, seq<nat>>     // recv_kvs_, by the server an answer is from
    var ran: seq<nat>                   // the callbacks that have run, in order

    ghost predicate Valid()
      reads this
    {
      forall ts :: ts in callbacks || ts in recvKvs || ts in ran ==> ts < |tracker|
    }

    ghost function TallyOf(ts: nat): Tally
      requires ts < |tracker|
      reads this
    {
      Tally(tracker[ts].0, tracker[ts].1, if ts in recvKvs then recvKvs[ts] else [],
            ts in callbacks, multiset(ran)[ts])
    }

    ghost function View(): (v: seq<Tally>)
      reads this
      ensures |v| == |tracker| && forall ts :: 0 <= ts < |v| ==> v[ts] == TallyOf(ts)
    {
      seq(|tracker|, ts requires 0 <= ts < |tracker| reads this => TallyOf(ts))
    }

    constructor ()
      ensures Valid() && View() == []
    {
      tracker, callbacks, recvKvs, ran := [], {}, map[], [];
    }

    // NewRequest and AddCallback.
    method NewRequest(servers: nat) returns (timestamp: nat)
      requires Valid()
      modifies this
      ensures Valid() && timestamp == |old(View())| && View() == old(View()) + [Started(servers)]
    {
      tracker := tracker + [(servers, 0)];
      timestamp := |tracker| - 1;
      callbacks := callbacks + {timestamp};
    }

    method RunCallbackOf(timestamp: nat)
      requires Valid() && timestamp < |tracker|
      modifies this
      ensures Valid() && |tracker| == old(|tracker|)
      ensures View() == old(View())[timestamp := RunCallback(old(View())[timestamp])]
    {
      if timestamp in callbacks {
        ran := ran + [timestamp];
        callbacks := callbacks - {timestamp};
      }
    }

    method AddResponse(timestamp: nat, num: nat)
      requires Valid() && timestamp < |tracker|
      modifies this
      ensures Valid() && |tracker| == old(|tracker|)
      ensures View() == old(View())[timestamp := old(View())[timestamp].(count := old(View())[timestamp].count + num)]
    {
      tracker := tracker[timestamp := (tracker[timestamp].0, tracker[timestamp].1 + num)];
    }

    // The part of Send before the slices go out; `sliced` tells which servers get one.
    method Skip(timestamp: nat, sliced: seq<bool>)
      requires Valid() && timestamp < |tracker| && |sliced| == tracker[timestamp].0
      modifies this
      ensures Valid() && |tracker| == old(|tracker|)
      ensures View() == old(View())[timestamp := AddSkipped(old(View())[timestamp], multiset(sliced)[false])]
    {
      var skipped := 0;
      for i := 0 to |sliced|
        invariant skipped == multiset(sliced[..i])[false]
        invariant Valid() && View() == old(View()) && tracker == old(tracker)
      {
        assert sliced[..i + 1] == sliced[..i] + [sliced[i]];
        if !sliced[i] {
          skipped := skipped + 1;
        }
      }
      assert sliced[..|sliced|] == sliced;
      AddResponse(timestamp, skipped);
      if skipped == |sliced| {
        RunCallbackOf(timestamp);
      }
    }

    // An answer to a pull.
    method ProcessAnswer(timestamp: nat, server: nat)
      requires Valid() && timestamp < |tracker|
      modifies this
      ensures Valid() && |tracker| == old(|tracker|)
      ensures View() == old(View())[timestamp := Process(old(View())[timestamp], server)]
    {
      var stored := if timestamp in recvKvs then recvKvs[timestamp] else [];
      recvKvs := recvKvs[timestamp := stored + [server]];
      if tracker[timestamp].1 + 1 == tracker[timestamp].0 {
        RunCallbackOf(timestamp);
      }
    }

    // What the receiving thread does after ProcessAnswer.
    method CountAnswer(timestamp: nat)
      requires Valid() && timestamp < |tracker|
      modifies this
      ensures Valid() && |tracker| == old(|tracker|)
      ensures View() == old(View())[timestamp := CountOne(old(View())[timestamp])]
    {
      tracker := tracker[timestamp := (tracker[timestamp].0, tracker[timestamp].1 + 1)];
    }
  }

  // ---- One request ----

  // Where the message to a contacted server is: not sent yet, at the server,
  // its answer in the receive queue, handled but not counted, or counted.
  datatype Place = ToSend | AtServer | Arrived | Handled | Counted

  // where: the servers its slices go to.  added: the skipped ones have been counted.
  datatype Request = Request(where: map<nat, Place>, added: bool, tally: Tally)

  function Fresh(servers: nat, targets: set<nat>): Request {
    Request(map x | x in targets :: ToSend, false, Started(servers))
  }

  function Move(r: Request, server: nat, to: Place): Request {
    r.(where := r.where[server := to])
  }

  function SkipOthers(r: Request, servers: nat): Request
    requires |r.where| <= servers
  {
    r.(added := true, tally := AddSkipped(r.tally, servers - |r.where|))
  }

  function HandleAnswer(r: Request, server: nat): Request {
    Move(r, server, Handled).(tally := Process(r.tally, server))
  }

  function CountHandled(r: Request, server: nat): Request {
    Move(r, server, Counted).(tally := CountOne(r.tally))
  }

  predicate At(r: Request, server: nat, place: Place) {
    server in r.where && r.where[server] == place
  }

  // ---- All requests of a customer ----

  // handling: the request and server whose answer the receiving thread is at.
  datatype System = System(requests: seq<Request>, handling: Option<(nat, nat)>)

  datatype Step =
    | New(targets: set<nat>)
    | Skip(ts: nat)
    | SendTo(ts: nat, server: nat)
    | Answer(ts: nat, server: nat)
    | Handle(ts: nat, server: nat)
    | Count

  predicate Can(servers: nat, s: System, step: Step) {
    match step
    case New(targets) => |targets| <= servers
    case Skip(ts) => ts < |s.requests| && !s.requests[ts].added && |s.requests[ts].where| <= servers
    case SendTo(ts, x) => ts < |s.requests| && s.requests[ts].added && At(s.requests[ts], x, ToSend)
    case Answer(ts, x) => ts < |s.requests| && At(s.requests[ts], x, AtServer)
    case Handle(ts, x) => ts < |s.requests| && s.handling.None? && At(s.requests[ts], x, Arrived)
    case Count => s.handling.Some? && s.handling.value.0 < |s.requests|
  }

  function Go(servers: nat, s: System, step: Step): System
    requires Can(servers, s, step)
  {
    match step
    case New(targets) => s.(requests := s.requests + [Fresh(servers, targets)])
    case Skip(ts) => s.(requests := s.requests[ts := SkipOthers(s.requests[ts], servers)])
    case SendTo(ts, x) => s.(requests := s.requests[ts := Move(s.requests[ts], x, AtServer)])
    case Answer(ts, x) => s.(requests := s.requests[ts := Move(s.requests[ts], x, Arrived)])
    case Handle(ts, x) => System(s.requests[ts := HandleAnswer(s.requests[ts], x)], Some((ts, x)))
    case Count =>
      var (ts, x) := s.handling.value;
      System(s.requests[ts := CountHandled(s.requests[ts], x)], None)
  }

  // ---- The invariant ----

  ghost function CountedOf(r: Request): set<nat> {
    set x | x in r.where && r.where[x] == Counted
  }

  // Every answer has been handled.
  ghost predicate AllHandled(r: Request) {
    forall x :: x in r.where ==> r.where[x].Handled? || r.where[x].Counted?
  }

  ghost predicate RequestOk(servers: nat, r: Request) {
    && |r.where| <= servers && r.tally.expected == servers
    && (!r.added ==> (forall x :: x in r.where ==> r.where[x] == ToSend))
    && (!r.added ==> r.tally.count == 0 && r.tally.callback && r.tally.runs == 0)
    && (r.added ==> r.tally.count + |r.where| == servers + |CountedOf(r)|)
    && (r.added ==> r.tally.runs == (if AllHandled(r) then 1 else 0) && r.tally.callback == !AllHandled(r))
    && (forall x :: x in r.tally.replies <==> At(r, x, Handled) || At(r, x, Counted))
    && NoDup(r.tally.replies)
  }

  // Only the answer the receiving thread is at is handled but not counted.
  ghost predicate HandlingOk(s: System) {
    && (forall ts: nat, x: nat :: ts < |s.requests| ==>
            (At(s.requests[ts], x, Handled) <==> s.handling == Some((ts, x))))
    && (s.handling.Some? ==> s.handling.value.0 < |s.requests|)
  }

  ghost predicate Inv(servers: nat, s: System) {
    && 0 < servers && HandlingOk(s)
    && (forall ts :: 0 <= ts < |s.requests| ==> RequestOk(servers, s.requests[ts]))
  }

  lemma FreshOk(servers: nat, targets: set<nat>)
    requires |targets| <= servers
    ensures RequestOk(servers, Fresh(servers, targets))
  {
    assert Fresh(servers, targets).where.Keys == targets;
  }

  lemma SkipOk(servers: nat, r: Request)
    requires 0 < servers && RequestOk(servers, r) && !r.added
    ensures RequestOk(servers, SkipOthers(r, servers))
  {
    var r' := SkipOthers(r, servers);
    assert CountedOf(r') == {};
    if |r.where| != 0 {
      var x :| x in r.where;
      assert !AllHandled(r');
    }
  }

  // Moving a message that stays unhandled changes nothing that is counted.
  lemma MoveOk(servers: nat, r: Request, x: nat, to: Place)
    requires RequestOk(servers, r) && r.added && x in r.where
    requires (r.where[x].ToSend? && to.AtServer?) || (r.where[x].AtServer? && to.Arrived?)
    ensures RequestOk(servers, Move(r, x, to))
  {
    var r' := Move(r, x, to);
    assert r'.where.Keys == r.where.Keys;
    assert CountedOf(r') == CountedOf(r);
    assert x in r'.where && !AllHandled(r') && !AllHandled(r);
  }

  // The last open answer is the one that brings the count to all but one.
  lemma LastOneRuns(servers: nat, r: Request, x: nat)
    requires RequestOk(servers, r) && r.added && At(r, x, Arrived)
    requires forall y :: !At(r, y, Handled)
    ensures r.tally.count + 1 == servers <==> forall y :: y in r.where && y != x ==> r.where[y] == Counted
  {
    var counted := CountedOf(r);
    assert counted <= r.where.Keys - {x};
    SubsetSize(counted, r.where.Keys - {x});
    if forall y :: y in r.where && y != x ==> r.where[y] == Counted {
      assert counted == r.where.Keys - {x};
    }
    if r.tally.count + 1 == servers {
      forall y | y in r.where && y != x
        ensures r.where[y] == Counted
      {
        assert y in counted;
      }
    }
  }

  lemma ProcessOk(servers: nat, r: Request, x: nat)
    requires RequestOk(servers, r) && r.added && At(r, x, Arrived)
    requires forall y :: !At(r, y, Handled)
    ensures RequestOk(servers, HandleAnswer(r, x))
  {
    LastOneRuns(servers, r, x);
    var r' := HandleAnswer(r, x);
    assert r'.where.Keys == r.where.Keys;
    assert CountedOf(r') == CountedOf(r);
    HandledAfter(servers, r, x);
    assert x !in r.tally.replies;
  }

  lemma HandledAfter(servers: nat, r: Request, x: nat)
    requires RequestOk(servers, r) && r.added && At(r, x, Arrived)
    requires forall y :: !At(r, y, Handled)
    ensures !AllHandled(r)
    ensures AllHandled(HandleAnswer(r, x)) <==> r.tally.count + 1 == servers
  {
    LastOneRuns(servers, r, x);
    var r' := HandleAnswer(r, x);
    assert forall y :: y in r.where && y != x ==> r'.where[y] == r.where[y] && !At(r, y, Handled);
  }

  lemma CountOk(servers: nat, r: Request, x: nat)
    requires RequestOk(servers, r) && r.added && At(r, x, Handled)
    ensures RequestOk(servers, CountHandled(r, x))
  {
    var r' := CountHandled(r, x);
    assert r'.where.Keys == r.where.Keys;
    assert CountedOf(r') == CountedOf(r) + {x};
    assert AllHandled(r') <==> AllHandled(r);
  }

  // An answer needs a message that was sent after the skipped ones were added.
  lemma OpenMeansAdded(servers: nat, r: Request, x: nat)
    requires RequestOk(servers, r) && x in r.where && !r.where[x].ToSend?
    ensures r.added
  {}

  lemma HandleKeeps(servers: nat, s: System, ts: nat, x: nat)
    requires Inv(servers, s) && Can(servers, s, Handle(ts, x))
    ensures Inv(servers, Go(servers, s, Handle(ts, x)))
  {
    var r := s.requests[ts];
    OpenMeansAdded(servers, r, x);
    ProcessOk(servers, r, x);
    var r' := HandleAnswer(r, x);
    assert forall y :: At(r', y, Handled) <==> y == x;
  }

  lemma CountKeeps(servers: nat, s: System)
    requires Inv(servers, s) && Can(servers, s, Count)
    ensures Inv(servers, Go(servers, s, Count))
  {
    var (ts, x) := s.handling.value;
    var r := s.requests[ts];
    OpenMeansAdded(servers, r, x);
    CountOk(servers, r, x);
    assert forall y :: !At(CountHandled(r, x), y, Handled);
  }

  // Replacing a request by one with no handled answer, as before.
  lemma ReplaceKeeps(servers: nat, s: System, ts: nat, r: Request)
    requires Inv(servers, s) && ts < |s.requests| && RequestOk(servers, r)
    requires forall y :: At(r, y, Handled) <==> At(s.requests[ts], y, Handled)
    ensures Inv(servers, s.(requests := s.requests[ts := r]))
  {}

  lemma StepKeeps(servers: nat, s: System, step: Step)
    requires Inv(servers, s) && Can(servers, s, step)
    ensures Inv(servers, Go(servers, s, step))
  {
    match step
    case New(targets) => NewKeeps(servers, s, targets);
    case Skip(ts) =>
      SkipOk(servers, s.requests[ts]);
      ReplaceKeeps(servers, s, ts, SkipOthers(s.requests[ts], servers));
    case SendTo(ts, x) =>
      MoveOk(servers, s.requests[ts], x, AtServer);
      ReplaceKeeps(servers, s, ts, Move(s.requests[ts], x, AtServer));
    case Answer(ts, x) =>
      OpenMeansAdded(servers, s.requests[ts], x);
      MoveOk(servers, s.requests[ts], x, Arrived);
      ReplaceKeeps(servers, s, ts, Move(s.requests[ts], x, Arrived));
    case Handle(ts, x) => HandleKeeps(servers, s, ts, x);
    case Count => CountKeeps(servers, s);
  }

  lemma NewKeeps(servers: nat, s: System, targets: set<nat>)
    requires Inv(servers, s) && |targets| <= servers
    ensures Inv(servers, s.(requests := s.requests + [Fresh(servers, targets)]))
  {
    FreshOk(servers, targets);
    assert forall y :: !At(Fresh(servers, targets), y, Handled);
  }

  // ---- Every run ----

  ghost predicate Run(servers: nat, steps: seq<Step>, states: seq<System>) {
    && |states| == |steps| + 1 && states[0] == System([], None)
    && forall i :: 0 <= i < |steps| ==>
         Can(servers, states[i], steps[i]) && states[i + 1] == Go(servers, states[i], steps[i])
  }

  lemma {:induction false} RunInv(servers: nat, steps: seq<Step>, states: seq<System>, i: nat)
    requires 0 < servers && Run(servers, steps, states) && i < |states|
    ensures Inv(servers, states[i])
  {
    if i > 0 {
      RunInv(servers, steps, states, i - 1);
      StepKeeps(servers, states[i - 1], steps[i - 1]);
    }
  }

  // The count never exceeds the number of servers; the callback runs at most
  // once; and when Wait may return on a request, however many servers it reached, the
  // callback has run and every contacted server's answer is stored, once.
  lemma CallbackBeforeWait(servers: nat, steps: seq<Step>, states: seq<System>, i: nat, ts: nat)
    requires 0 < servers && Run(servers, steps, states) && i < |states| && ts < |states[i].requests|
    ensures var r := states[i].requests[ts];
            && r.tally.count <= servers && r.tally.runs <= 1
            && (WaitReturns(r.tally) ==>
                  r.tally.runs == 1 && forall x :: x in r.tally.replies <==> x in r.where)
  {
    RunInv(servers, steps, states, i);
    CountedAll(servers, states[i].requests[ts]);
  }

  lemma CountedAll(servers: nat, r: Request)
    requires 0 < servers && RequestOk(servers, r)
    ensures r.tally.count <= servers && r.tally.runs <= 1
    ensures WaitReturns(r.tally) ==>
              r.tally.runs == 1 && forall x :: x in r.tally.replies <==> x in r.where
  {
    assert CountedOf(r) <= r.where.Keys;
    SubsetSize(CountedOf(r), r.where.Keys);
    if WaitReturns(r.tally) {
      forall x | x in r.where
        ensures At(r, x, Counted)
      {
        assert x in CountedOf(r);
      }
    }
  }

  // When the callback runs on an answer, all answers are there to be read.
  lemma CallbackSeesAll(servers: nat, r: Request, x: nat)
    requires RequestOk(servers, r) && r.added && At(r, x, Arrived)
    requires forall y :: !At(r, y, Handled)
    requires HandleAnswer(r, x).tally.runs > r.tally.runs
    ensures forall y :: y in HandleAnswer(r, x).tally.replies <==> y in r.where
  {
    LastOneRuns(servers, r, x);
    ProcessOk(servers, r, x);
  }
}
