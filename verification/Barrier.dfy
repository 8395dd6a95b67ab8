/**
 * The group barrier: nodes send requests to the scheduler, which counts them
 * per group and answers all members when a group is complete.  Replies do not
 * say which group they are for.
 */
module Barrier {
  import opened Common

  // ---- The scheduler's counter ----

  // Counting one request for group g of `size` members: the new counters and
  // whether the group is complete.
  function Count(counts: seq<nat>, g: nat, size: nat): (r: (seq<nat>, bool))
    requires g < |counts|
    ensures |r.0| == |counts|
  {
    var c := counts[g] + 1;
    if c == size then (counts[g := 0], true) else (counts[g := c], false)
  }

  // Who is answered: nodes that share the address of another are left to that one.
  function Recipients(ids: seq<nat>, shared: set<nat>): (r: seq<nat>)
    ensures forall x :: x in r <==> x in ids && x !in shared
  {
    if ids == [] then []
    else
      var last := ids[|ids| - 1];
      Recipients(ids[..|ids| - 1], shared) + if last in shared then [] else [last]
  }

  // Every member without a shared address gets one reply, and nobody else gets any.
  lemma {:induction false} OneReplyEach(ids: seq<nat>, shared: set<nat>, x: nat)
    requires NoDup(ids)
    ensures multiset(Recipients(ids, shared))[x] == B2N(x in ids && x !in shared)
  {
    if ids != [] {
      var front, last := ids[..|ids| - 1], ids[|ids| - 1];
      OneReplyEach(front, shared, x);
      LastIsNew(ids, x);
    }
  }

  lemma LastIsNew(ids: seq<nat>, x: nat)
    requires NoDup(ids) && ids != []
    ensures ids[|ids| - 1] !in ids[..|ids| - 1]
    ensures x in ids <==> x in ids[..|ids| - 1] || x == ids[|ids| - 1]
  {
    assert ids == ids[..|ids| - 1] + [ids[|ids| - 1]];
  }

  // With distinct addresses the replies are the members.
  lemma RepliesAreMembers(ids: seq<nat>)
    requires NoDup(ids)
    ensures multiset(Recipients(ids, {})) == multiset(IdSet(ids))
  {
    forall x: nat
      ensures multiset(Recipients(ids, {}))[x] == multiset(IdSet(ids))[x]
    {
      OneReplyEach(ids, {}, x);
    }
  }

  function IdSet(ids: seq<nat>): set<nat> {
    set x | x in ids
  }

  function Counters(barrierCount: seq<nat>): seq<nat> {
    if barrierCount == [] then seq(8, _ => 0) else barrierCount
  }

  class Scheduler {
    var barrierCount: seq<nat>
    var replies: seq<nat>  // receivers of the replies, in sending order

    constructor ()
      ensures barrierCount == [] && replies == []
    {
      barrierCount, replies := [], [];
    }

    // ProcessBarrierCommand for a request; ids are the node ids of the group, shared
    // the keys of shared_node_mapping_.
    method OnRequest(g: nat, ids: seq<nat>, shared: set<nat>)
      requires g < 8 && (barrierCount == [] || |barrierCount| == 8)
      modifies this
      ensures var (counts, full) := Count(Counters(old(barrierCount)), g, |ids|);
              && barrierCount == counts
              && replies == old(replies) + if full then Recipients(ids, shared) else []
    {
      if barrierCount == [] {
        barrierCount := seq(8, _ => 0);
      }
      barrierCount := barrierCount[g := barrierCount[g] + 1];
      if barrierCount[g] == |ids| {
        barrierCount := barrierCount[g := 0];
        AnswerAll(ids, shared);
      }
    }

    method AnswerAll(ids: seq<nat>, shared: set<nat>)
      modifies this`replies
      ensures replies == old(replies) + Recipients(ids, shared)
    {
      for i := 0 to |ids|
        invariant replies == old(replies) + Recipients(ids[..i], shared)
      {
        assert ids[..i + 1][..i] == ids[..i];
        if ids[i] !in shared {
          replies := replies + [ids[i]];
        }
      }
      assert ids[..|ids|] == ids;
    }
  }

  // ---- All nodes and the scheduler ----

  // Where a node stands: not in a barrier, or waiting on a group with its
  // barrier_done flag clear or set.
  datatype Node = Free | Waiting(group: nat, done: bool)

  // History: how far the node's current request has come.
  datatype Stage = Idle | Requested(g: nat) | Counted(g: nat) | Replied(g: nat) | Released(g: nat)

  // Requests and replies are delivered, in any order.  rounds counts how often a
  // group has been completed; entered and left count each node's barriers.
  datatype System = System(
    nodes: map<nat, Node>,
    requests: multiset<(nat, nat)>,
    counts: seq<nat>,
    replies: multiset<nat>,
    stage: map<nat, Stage>,
    rounds: map<nat, nat>,
    entered: map<(nat, nat), nat>,
    left: map<(nat, nat), nat>)

  // The node ids of each group, as a set and as GetNodeIDs lists them; all nodes have
  // one customer and an address of their own.
  datatype Groups = Groups(members: map<nat, set<nat>>, ids: map<nat, seq<nat>>, all: set<nat>)

  ghost predicate GoodGroups(gs: Groups) {
    forall g :: g in gs.members ==> GoodGroup(gs, g)
  }

  ghost predicate GoodGroup(gs: Groups, g: nat)
    requires g in gs.members
  {
    g < 8 && gs.members[g] <= gs.all && gs.members[g] != {} && Lists(gs.ids, g, gs.members[g])
  }

  ghost predicate Lists(ids: map<nat, seq<nat>>, g: nat, members: set<nat>) {
    g in ids && NoDup(ids[g]) && IdSet(ids[g]) == members && |ids[g]| == |members|
  }

  datatype Step =
    | Enter(n: nat, g: nat)      // Postoffice::Barrier up to the wait
    | Schedule(n: nat, g: nat)   // the scheduler gets the request
    | Notify(n: nat)             // Postoffice::Manage gets a reply
    | Leave(n: nat)              // the wait ends

  ghost predicate Can(gs: Groups, s: System, step: Step) {
    match step
    case Enter(n, g) =>
      && g in gs.members && n in gs.members[g] && |gs.members[g]| > 1
      && n in s.nodes && s.nodes[n].Free?
    case Schedule(n, g) => s.requests[(n, g)] > 0 && g < |s.counts|
    case Notify(n) => s.replies[n] > 0 && n in s.nodes
    case Leave(n) => n in s.nodes && s.nodes[n].Waiting? && s.nodes[n].done
  }

  function Bump(m: map<(nat, nat), nat>, n: nat, g: nat): map<(nat, nat), nat> {
    m[(n, g) := At(m, n, g) + 1]
  }

  function At(m: map<(nat, nat), nat>, n: nat, g: nat): nat {
    if (n, g) in m then m[(n, g)] else 0
  }

  function Rounds(s: System, g: nat): nat {
    if g in s.rounds then s.rounds[g] else 0
  }

  function StageOf(s: System, n: nat): Stage {
    if n in s.stage then s.stage[n] else Idle
  }

  // Everyone counted for g now has a reply on its way.
  ghost function ReplyAll(stage: map<nat, Stage>, ids: set<nat>, g: nat): map<nat, Stage> {
    map n | n in stage.Keys + ids :: if n in ids then Replied(g) else stage[n]
  }

  ghost function Go(gs: Groups, s: System, step: Step): System
    requires Can(gs, s, step)
  {
    match step
    case Enter(n, g) =>
      s.(nodes := s.nodes[n := Waiting(g, false)], requests := s.requests + multiset{(n, g)},
         entered := Bump(s.entered, n, g), stage := s.stage[n := Requested(g)])
    case Schedule(n, g) =>
      var ids := if g in gs.ids then gs.ids[g] else [];
      var (counts, full) := Count(s.counts, g, |ids|);
      var s1 := s.(requests := s.requests - multiset{(n, g)}, counts := counts,
                   stage := s.stage[n := Counted(g)]);
      if full then
        s1.(replies := s.replies + multiset(Recipients(ids, {})), rounds := s.rounds[g := Rounds(s, g) + 1],
            stage := ReplyAll(s1.stage, IdSet(ids), g))
      else s1
    case Notify(n) =>
      s.(replies := s.replies - multiset{n},
         nodes := s.nodes[n := if s.nodes[n].Waiting? then s.nodes[n].(done := true) else Free],
         stage := s.stage[n := match StageOf(s, n)
                               case Replied(g) => Released(g)
                               case other => other])
    case Leave(n) =>
      s.(nodes := s.nodes[n := Free], left := Bump(s.left, n, s.nodes[n].group),
         stage := s.stage[n := Idle])
  }

  // ---- The invariant ----

  predicate Pending(st: Stage, g: nat) {
    st == Requested(g) || st == Counted(g)
  }

  predicate Answered(st: Stage, g: nat) {
    st == Replied(g) || st == Released(g)
  }

  // The stage of n agrees with what n, the channels and the counts show.
  ghost predicate NodeOk(gs: Groups, s: System, n: nat) {
    var st := StageOf(s, n);
    && (st.Idle? <==> n !in s.nodes || s.nodes[n].Free?)
    && (n in s.nodes && s.nodes[n].Waiting? ==>
          st.g == s.nodes[n].group && (s.nodes[n].done <==> st.Released?))
    && (!st.Idle? ==> st.g in gs.members && n in gs.members[st.g] && n in s.nodes)
    && s.replies[n] == B2N(st.Replied?)
  }

  ghost predicate TallyOk(gs: Groups, s: System, n: nat, g: nat) {
    var st := StageOf(s, n);
    && s.requests[(n, g)] == B2N(st == Requested(g))
    && (g in gs.members && n in gs.members[g] ==>
          && At(s.entered, n, g) == Rounds(s, g) + B2N(Pending(st, g))
          && At(s.left, n, g) + B2N(Answered(st, g)) == Rounds(s, g))
  }

  ghost function CountedFor(gs: Groups, s: System, g: nat): set<nat>
    requires g in gs.members
  {
    set n | n in gs.members[g] && StageOf(s, n) == Counted(g)
  }

  ghost predicate CountsOk(gs: Groups, s: System, g: nat)
    requires g in gs.members && g < |s.counts|
  {
    s.counts[g] == |CountedFor(gs, s, g)| < |gs.members[g]|
  }

  ghost predicate Inv(gs: Groups, s: System) {
    && GoodGroups(gs) && |s.counts| == 8
    && (forall n: nat :: NodeOk(gs, s, n))
    && (forall n: nat, g: nat :: TallyOk(gs, s, n, g))
    && (forall g :: g in gs.members ==> CountsOk(gs, s, g))
  }

  // The steps of a node: entering a barrier, being told of its end, and leaving it.
  predicate OwnStep(step: Step, n: nat) {
    (step.Enter? && step.n == n) || step == Notify(n) || step == Leave(n)
  }

  lemma OwnStepNodeOk(gs: Groups, s: System, step: Step, n: nat, m: nat)
    requires Inv(gs, s) && Can(gs, s, step) && OwnStep(step, n)
    ensures NodeOk(gs, Go(gs, s, step), m)
  {
    assert NodeOk(gs, s, n) && NodeOk(gs, s, m);
  }

  lemma EnterTallyOk(gs: Groups, s: System, n: nat, g: nat, m: nat, h: nat)
    requires Inv(gs, s) && Can(gs, s, Enter(n, g))
    ensures TallyOk(gs, Go(gs, s, Enter(n, g)), m, h)
  {
    assert NodeOk(gs, s, n) && TallyOk(gs, s, m, h);
  }

  lemma NotifyTallyOk(gs: Groups, s: System, n: nat, m: nat, h: nat)
    requires Inv(gs, s) && Can(gs, s, Notify(n))
    ensures TallyOk(gs, Go(gs, s, Notify(n)), m, h)
  {
    assert NodeOk(gs, s, n) && TallyOk(gs, s, m, h);
  }

  lemma LeaveTallyOk(gs: Groups, s: System, n: nat, m: nat, h: nat)
    requires Inv(gs, s) && Can(gs, s, Leave(n))
    ensures TallyOk(gs, Go(gs, s, Leave(n)), m, h)
  {
    assert NodeOk(gs, s, n) && TallyOk(gs, s, m, h);
  }

  lemma OwnStepTallyOk(gs: Groups, s: System, step: Step, n: nat, m: nat, h: nat)
    requires Inv(gs, s) && Can(gs, s, step) && OwnStep(step, n)
    ensures TallyOk(gs, Go(gs, s, step), m, h)
  {
    match step
    case Enter(_, g) => EnterTallyOk(gs, s, n, g, m, h);
    case Notify(_) => NotifyTallyOk(gs, s, n, m, h);
    case Leave(_) => LeaveTallyOk(gs, s, n, m, h);
  }

  lemma OwnStepCountsOk(gs: Groups, s: System, step: Step, n: nat, h: nat)
    requires Inv(gs, s) && Can(gs, s, step) && OwnStep(step, n) && h in gs.members
    ensures |Go(gs, s, step).counts| == 8 && CountsOk(gs, Go(gs, s, step), h)
  {
    assert NodeOk(gs, s, n) && CountsOk(gs, s, h);
    assert CountedFor(gs, Go(gs, s, step), h) == CountedFor(gs, s, h);
  }

  lemma OwnStepKeeps(gs: Groups, s: System, step: Step, n: nat)
    requires Inv(gs, s) && Can(gs, s, step) && OwnStep(step, n)
    ensures Inv(gs, Go(gs, s, step))
  {
    var s' := Go(gs, s, step);
    forall m: nat
      ensures NodeOk(gs, s', m)
    {
      OwnStepNodeOk(gs, s, step, n, m);
    }
    forall m: nat, h: nat
      ensures TallyOk(gs, s', m, h)
    {
      OwnStepTallyOk(gs, s, step, n, m, h);
    }
    forall h | h in gs.members
      ensures |s'.counts| == 8 && CountsOk(gs, s', h)
    {
      OwnStepCountsOk(gs, s, step, n, h);
    }
  }

  // The request that is counted comes from a member that waits on this group.
  lemma RequestIsReal(gs: Groups, s: System, n: nat, g: nat)
    requires Inv(gs, s) && s.requests[(n, g)] > 0
    ensures StageOf(s, n) == Requested(g) && g in gs.members && n in gs.members[g]
  {
    assert TallyOk(gs, s, n, g) && NodeOk(gs, s, n);
  }

  lemma CountedGrows(gs: Groups, s: System, s1: System, n: nat, g: nat)
    requires g in gs.members && n in gs.members[g] && StageOf(s, n) == Requested(g)
    requires s1.stage == s.stage[n := Counted(g)]
    ensures CountedFor(gs, s1, g) == CountedFor(gs, s, g) + {n} && n !in CountedFor(gs, s, g)
    ensures |CountedFor(gs, s1, g)| == |CountedFor(gs, s, g)| + 1
    ensures forall h :: h in gs.members && h != g ==> CountedFor(gs, s1, h) == CountedFor(gs, s, h)
  {
    assert CountedFor(gs, s1, g) == CountedFor(gs, s, g) + {n};
  }

  lemma CountedNodeOk(gs: Groups, s: System, n: nat, g: nat, m: nat)
    requires Inv(gs, s) && Can(gs, s, Schedule(n, g)) && g in gs.members
    requires s.counts[g] + 1 != |gs.members[g]|
    ensures NodeOk(gs, Go(gs, s, Schedule(n, g)), m)
  {
    RequestIsReal(gs, s, n, g);
    assert NodeOk(gs, s, m);
  }

  lemma CountedTallyOk(gs: Groups, s: System, n: nat, g: nat, m: nat, h: nat)
    requires Inv(gs, s) && Can(gs, s, Schedule(n, g)) && g in gs.members
    requires s.counts[g] + 1 != |gs.members[g]|
    ensures TallyOk(gs, Go(gs, s, Schedule(n, g)), m, h)
  {
    RequestIsReal(gs, s, n, g);
    assert TallyOk(gs, s, m, h) && NodeOk(gs, s, m);
  }

  // A request that does not complete its group.
  lemma ScheduleMoreKeeps(gs: Groups, s: System, n: nat, g: nat)
    requires Inv(gs, s) && Can(gs, s, Schedule(n, g)) && g in gs.members
    requires s.counts[g] + 1 != |gs.members[g]|
    ensures Inv(gs, Go(gs, s, Schedule(n, g)))
  {
    RequestIsReal(gs, s, n, g);
    var s' := Go(gs, s, Schedule(n, g));
    CountedGrows(gs, s, s', n, g);
    forall m: nat
      ensures NodeOk(gs, s', m)
    {
      CountedNodeOk(gs, s, n, g, m);
    }
    forall m: nat, h: nat
      ensures TallyOk(gs, s', m, h)
    {
      CountedTallyOk(gs, s, n, g, m, h);
    }
    forall h | h in gs.members
      ensures CountsOk(gs, s', h)
    {
      assert CountsOk(gs, s, h) && CountsOk(gs, s, g);
    }
  }

  // When the count is full every member has been counted for this very group.
  lemma FullMeansAll(gs: Groups, s: System, n: nat, g: nat)
    requires Inv(gs, s) && s.requests[(n, g)] > 0 && g in gs.members
    requires s.counts[g] + 1 == |gs.members[g]|
    ensures forall m :: m in gs.members[g] ==> m == n || StageOf(s, m) == Counted(g)
  {
    RequestIsReal(gs, s, n, g);
    assert CountsOk(gs, s, g);
    var counted := CountedFor(gs, s, g) + {n};
    SubsetSize(counted, gs.members[g]);
    forall m | m in gs.members[g]
      ensures m == n || StageOf(s, m) == Counted(g)
    {
      assert m in counted;
    }
  }

  // The request that completes its group releases all members at once.
  ghost predicate Releases(gs: Groups, s: System, n: nat, g: nat, s': System)
    requires g in gs.members
  {
    && s' == s.(requests := s'.requests, counts := s'.counts, replies := s'.replies, rounds := s'.rounds,
                stage := s'.stage)
    && s'.requests == s.requests - multiset{(n, g)}
    && g < |s.counts| && s'.counts == s.counts[g := 0]
    && s'.replies == s.replies + multiset(gs.members[g])
    && s'.rounds == s.rounds[g := Rounds(s, g) + 1]
    && (forall m: nat :: StageOf(s', m) == if m in gs.members[g] then Replied(g) else StageOf(s, m))
  }

  lemma FullReleases(gs: Groups, s: System, n: nat, g: nat)
    requires g in gs.members && n in gs.members[g] && Lists(gs.ids, g, gs.members[g])
    requires s.requests[(n, g)] > 0 && g < |s.counts| && s.counts[g] + 1 == |gs.members[g]|
    ensures Releases(gs, s, n, g, Go(gs, s, Schedule(n, g)))
  {
    RepliesAreMembers(gs.ids[g]);
    ReplyAllStages(s, Go(gs, s, Schedule(n, g)), n, gs.members[g], g);
  }

  lemma ReplyAllStages(s: System, s': System, n: nat, ids: set<nat>, g: nat)
    requires n in ids && s'.stage == ReplyAll(s.stage[n := Counted(g)], ids, g)
    ensures forall m: nat :: StageOf(s', m) == if m in ids then Replied(g) else StageOf(s, m)
  {
  }

  lemma LastReleases(gs: Groups, s: System, n: nat, g: nat)
    requires Inv(gs, s) && s.requests[(n, g)] > 0 && g in gs.members
    requires s.counts[g] + 1 == |gs.members[g]|
    ensures Releases(gs, s, n, g, Go(gs, s, Schedule(n, g)))
  {
    RequestIsReal(gs, s, n, g);
    FullReleases(gs, s, n, g);
  }

  lemma ReleasedNodeOk(gs: Groups, s: System, n: nat, g: nat, s': System, m: nat)
    requires Inv(gs, s) && s.requests[(n, g)] > 0 && g in gs.members && Releases(gs, s, n, g, s')
    requires s.counts[g] + 1 == |gs.members[g]|
    ensures NodeOk(gs, s', m)
  {
    RequestIsReal(gs, s, n, g);
    FullMeansAll(gs, s, n, g);
    assert NodeOk(gs, s, m);
  }

  lemma ReleasedTallyOk(gs: Groups, s: System, n: nat, g: nat, s': System, m: nat, h: nat)
    requires Inv(gs, s) && s.requests[(n, g)] > 0 && g in gs.members && Releases(gs, s, n, g, s')
    requires s.counts[g] + 1 == |gs.members[g]|
    ensures TallyOk(gs, s', m, h)
  {
    RequestIsReal(gs, s, n, g);
    FullMeansAll(gs, s, n, g);
    assert TallyOk(gs, s, m, h) && NodeOk(gs, s, m);
  }

  lemma ReleasedCountsOk(gs: Groups, s: System, n: nat, g: nat, s': System, h: nat)
    requires Inv(gs, s) && s.requests[(n, g)] > 0 && g in gs.members && Releases(gs, s, n, g, s')
    requires s.counts[g] + 1 == |gs.members[g]| && h in gs.members
    ensures |s'.counts| == 8 && CountsOk(gs, s', h)
  {
    RequestIsReal(gs, s, n, g);
    FullMeansAll(gs, s, n, g);
    assert CountsOk(gs, s, h);
    if h == g {
      assert CountedFor(gs, s', g) == {};
    } else {
      assert CountedFor(gs, s', h) == CountedFor(gs, s, h);
    }
  }

  lemma ScheduleLastKeeps(gs: Groups, s: System, n: nat, g: nat)
    requires Inv(gs, s) && Can(gs, s, Schedule(n, g)) && g in gs.members
    requires s.counts[g] + 1 == |gs.members[g]|
    ensures Inv(gs, Go(gs, s, Schedule(n, g)))
  {
    var s' := Go(gs, s, Schedule(n, g));
    LastReleases(gs, s, n, g);
    forall m: nat
      ensures NodeOk(gs, s', m)
    {
      ReleasedNodeOk(gs, s, n, g, s', m);
    }
    forall m: nat, h: nat
      ensures TallyOk(gs, s', m, h)
    {
      ReleasedTallyOk(gs, s, n, g, s', m, h);
    }
    forall h | h in gs.members
      ensures |s'.counts| == 8 && CountsOk(gs, s', h)
    {
      ReleasedCountsOk(gs, s, n, g, s', h);
    }
  }

  lemma StepKeeps(gs: Groups, s: System, step: Step)
    requires Inv(gs, s) && Can(gs, s, step)
    ensures Inv(gs, Go(gs, s, step))
  {
    match step
    case Enter(n, _) => OwnStepKeeps(gs, s, step, n);
    case Notify(n) => OwnStepKeeps(gs, s, step, n);
    case Leave(n) => OwnStepKeeps(gs, s, step, n);
    case Schedule(n, g) =>
      RequestIsReal(gs, s, n, g);
      if s.counts[g] + 1 == |gs.members[g]| {
        ScheduleLastKeeps(gs, s, n, g);
      } else {
        ScheduleMoreKeeps(gs, s, n, g);
      }
  }

  // ---- Every run ----

  function Initial(gs: Groups): System {
    System(map n | n in gs.all :: Free, multiset{}, seq(8, _ => 0), multiset{}, map[], map[], map[], map[])
  }

  lemma InitialInv(gs: Groups)
    requires GoodGroups(gs)
    ensures Inv(gs, Initial(gs))
  {
    var s := Initial(gs);
    forall g | g in gs.members
      ensures CountsOk(gs, s, g)
    {
      assert CountedFor(gs, s, g) == {};
      var m :| m in gs.members[g];
    }
  }

  ghost predicate Run(gs: Groups, steps: seq<Step>, states: seq<System>) {
    && |states| == |steps| + 1 && states[0] == Initial(gs)
    && forall i :: 0 <= i < |steps| ==> Can(gs, states[i], steps[i]) && states[i + 1] == Go(gs, states[i], steps[i])
  }

  lemma {:induction false} RunInv(gs: Groups, steps: seq<Step>, states: seq<System>, i: nat)
    requires GoodGroups(gs) && Run(gs, steps, states) && i < |states|
    ensures Inv(gs, states[i])
  {
    if i == 0 {
      InitialInv(gs);
    } else {
      RunInv(gs, steps, states, i - 1);
      StepKeeps(gs, states[i - 1], steps[i - 1]);
    }
  }

  // A node has left its k-th barrier on a group only if every member has entered
  // its k-th barrier on it.
  lemma BarrierSafety(gs: Groups, steps: seq<Step>, states: seq<System>, i: nat, g: nat, n: nat, m: nat)
    requires GoodGroups(gs) && Run(gs, steps, states) && i < |states|
    requires g in gs.members && n in gs.members[g] && m in gs.members[g]
    ensures At(states[i].left, n, g) <= At(states[i].entered, m, g)
  {
    RunInv(gs, steps, states, i);
    assert TallyOk(gs, states[i], n, g) && TallyOk(gs, states[i], m, g);
  }

  // A reply never reaches a node that is not waiting for exactly this round.
  lemma NoStrayReply(gs: Groups, steps: seq<Step>, states: seq<System>, i: nat, n: nat)
    requires GoodGroups(gs) && Run(gs, steps, states) && i < |states|
    requires states[i].replies[n] > 0
    ensures n in states[i].nodes && states[i].nodes[n].Waiting? && !states[i].nodes[n].done
    ensures states[i].replies[n] == 1 && states[i].requests[(n, states[i].nodes[n].group)] == 0
  {
    RunInv(gs, steps, states, i);
    assert NodeOk(gs, states[i], n);
    assert TallyOk(gs, states[i], n, states[i].nodes[n].group);
  }

  // Nobody waits in vain: while every member of a group waits on it and none has been
  // told, a request or a reply of the group is still on its way.
  lemma NoOneLeftBehind(gs: Groups, steps: seq<Step>, states: seq<System>, i: nat, g: nat)
    requires GoodGroups(gs) && Run(gs, steps, states) && i < |states| && g in gs.members
    requires forall n :: n in gs.members[g] ==> n in states[i].nodes && states[i].nodes[n] == Waiting(g, false)
    ensures exists n :: n in gs.members[g] && (states[i].requests[(n, g)] == 1 || states[i].replies[n] == 1)
  {
    RunInv(gs, steps, states, i);
    SomeoneNotCounted(gs, states[i], g);
    var n :| n in gs.members[g] && StageOf(states[i], n) != Counted(g);
    assert NodeOk(gs, states[i], n) && TallyOk(gs, states[i], n, g);
  }

  lemma SomeoneNotCounted(gs: Groups, s: System, g: nat)
    requires Inv(gs, s) && g in gs.members
    ensures exists n :: n in gs.members[g] && StageOf(s, n) != Counted(g)
  {
    assert CountsOk(gs, s, g);
    assert CountedFor(gs, s, g) != gs.members[g];
  }
}
