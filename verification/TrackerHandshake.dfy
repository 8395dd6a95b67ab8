/**
 * Link set-up by the rabit tracker in a fault-free start: a worker that gets
 * its rank is told to connect to the linked ranks that already wait, and then
 * waits itself for the linked ranks still to come.
 */
module TrackerHandshake {
  import opened Common
  import opened TrackerTopology

  // ---- The links ----

  // assign_rank's nnset: tree neighbours and both ring neighbours, not itself.
  function LinksOf(tree: map<nat, seq<nat>>, ringMap: map<nat, (nat, nat)>, r: nat): set<nat>
    requires r in tree && r in ringMap
  {
    (set x | x in tree[r]) + ({ringMap[r].0, ringMap[r].1} - {r})
  }

  ghost predicate GoodLinks(links: map<nat, set<nat>>, n: nat) {
    && KeysBelow(links, n)
    && (forall a: nat, b: nat {:trigger b in links[a]} :: a < n && b in links[a] ==>
          b < n && b != a && a in links[b])
  }

  lemma TreeLinksSymmetric(rank: map<nat, nat>, rlst: seq<nat>, n: nat, tree: map<nat, seq<nat>>,
                           parent: map<nat, int>, a: nat, b: nat)
    requires IsRenumbering(rank, rlst, n) && CarriedOver(rank, n, tree, parent, n)
    requires a < n && a in tree && b in tree[a]
    ensures b < n && b != a && b in tree && a in tree[b]
  {
    var k := rlst[a];
    assert rank[k] == a;
    assert TreeEntry(rank, n, tree, parent, k);
    NeighborsInRange(k, n);
    var i :| 0 <= i < |tree[a]| && tree[a][i] == b;
    var j := GetNeighbor(k, n)[i];
    assert j in GetNeighbor(k, n) && rank[j] == b;
    NeighborsSymmetric(n, k, j);
    assert TreeEntry(rank, n, tree, parent, j);
    var i' :| 0 <= i' < |GetNeighbor(j, n)| && GetNeighbor(j, n)[i'] == k;
    assert tree[b][i'] == rank[k];
    assert rlst[rank[j]] == j && rlst[rank[k]] == k;
  }

  lemma RingLinksSymmetric(n: nat, a: nat, b: nat)
    requires a < n && b != a && (b == PrevIndex(a, n) || b == NextIndex(a, n))
    ensures b < n && (a == PrevIndex(b, n) || a == NextIndex(b, n))
  {}

  lemma OneLinkSymmetric(rank: map<nat, nat>, rlst: seq<nat>, n: nat, tree: map<nat, seq<nat>>,
                         parent: map<nat, int>, ringMap: map<nat, (nat, nat)>, a: nat, b: nat)
    requires IsRenumbering(rank, rlst, n) && CarriedOver(rank, n, tree, parent, n)
    requires forall i: nat :: i < n ==> i in ringMap && ringMap[i] == (PrevIndex(i, n), NextIndex(i, n))
    requires forall r: nat :: r < n ==> r in tree
    requires a < n && b in LinksOf(tree, ringMap, a)
    ensures b < n && b != a && a in LinksOf(tree, ringMap, b)
  {
    if b in tree[a] {
      TreeLinksSymmetric(rank, rlst, n, tree, parent, a, b);
    } else {
      RingLinksSymmetric(n, a, b);
    }
  }

  // The links of the renumbered topology go both ways.
  lemma LinkMapIsSymmetric(rank: map<nat, nat>, rlst: seq<nat>, n: nat, tree: map<nat, seq<nat>>,
                           parent: map<nat, int>, ringMap: map<nat, (nat, nat)>, links: map<nat, set<nat>>)
    requires IsRenumbering(rank, rlst, n) && CarriedOver(rank, n, tree, parent, n)
    requires forall i: nat :: i < n ==> i in ringMap && ringMap[i] == (PrevIndex(i, n), NextIndex(i, n))
    requires KeysBelow(links, n)
    requires forall r: nat :: r < n ==> r in tree && links[r] == LinksOf(tree, ringMap, r)
    ensures GoodLinks(links, n)
  {
    forall a: nat, b: nat {:trigger b in links[a]} | a < n && b in links[a]
      ensures b < n && b != a && a in links[b]
    {
      OneLinkSymmetric(rank, rlst, n, tree, parent, ringMap, a, b);
    }
  }

  // ---- Assigning one rank ----

  // done: ranks in the order they were assigned.  waiting: for each worker that
  // still waits, its wait_accept.  orders: how often the first rank was told to
  // connect to the second.
  datatype Shake = Shake(done: seq<nat>, waiting: map<nat, nat>, orders: multiset<(nat, nat)>)

  ghost function Told(waiting: map<nat, nat>, nnset: set<nat>): set<nat> {
    set r | r in nnset && r in waiting
  }

  ghost function Served(waiting: map<nat, nat>, told: set<nat>): map<nat, nat>
    requires forall r :: r in told ==> r in waiting && 0 < waiting[r]
  {
    map r | r in waiting && !(r in told && waiting[r] == 1) ::
      if r in told then waiting[r] - 1 else waiting[r]
  }

  ghost function Orders(rank: nat, told: set<nat>): multiset<(nat, nat)> {
    multiset(set r | r in told :: (rank, r))
  }

  ghost function Assign(s: Shake, rank: nat, nnset: set<nat>): Shake
    requires forall r :: r in s.waiting ==> 0 < s.waiting[r]
  {
    var told := Told(s.waiting, nnset);
    var served := Served(s.waiting, told);
    var waitAccept := |nnset| - |told|;
    Shake(s.done + [rank], if waitAccept > 0 then served[rank := waitAccept] else served,
          s.orders + Orders(rank, told))
  }

  // Every slave in conset waits for one connection less, and not at all after its last.
  method Serve(waitConn: map<nat, nat>, conset: set<nat>) returns (left: map<nat, nat>)
    requires forall r :: r in conset ==> r in waitConn && 0 < waitConn[r]
    ensures left == Served(waitConn, conset)
  {
    var rest, rmset, w := conset, {}, waitConn;
    while rest != {}
      invariant rest <= conset && rmset <= conset - rest
      invariant w.Keys == waitConn.Keys
      invariant forall r :: r in waitConn ==>
        w[r] == if r in conset && r !in rest then waitConn[r] - 1 else waitConn[r]
      invariant forall r :: r in rmset <==> r in conset && r !in rest && waitConn[r] == 1
      decreases rest
    {
      var r :| r in rest;
      rest := rest - {r};
      w := w[r := w[r] - 1];
      if w[r] == 0 {
        rmset := rmset + {r};
      }
    }
    left := w - rmset;
  }

  class Tracker {
    var waitConn: map<nat, nat>
    var orders: multiset<(nat, nat)>
    ghost var done: seq<nat>

    ghost function View(): Shake
      reads this
    {
      Shake(done, waitConn, orders)
    }

    constructor ()
      ensures View() == Shake([], map[], multiset{})
    {
      waitConn, orders, done := map[], multiset{}, [];
    }

    // The worker reports no good links and no errors.
    method AssignRank(rank: nat, nnset: set<nat>)
      requires forall r :: r in waitConn ==> 0 < waitConn[r]
      modifies this
      ensures View() == Assign(old(View()), rank, nnset)
    {
      var conset := set r | r in nnset && r in waitConn;
      orders := orders + multiset(set r | r in conset :: (rank, r));
      waitConn := Serve(waitConn, conset);
      var waitAccept := |nnset| - |conset|;
      if waitAccept > 0 {
        waitConn := waitConn[rank := waitAccept];
      }
      done := done + [rank];
    }
  }

  // ---- What the start keeps ----

  // The links of r to ranks not assigned yet.
  ghost function OpenLinks(links: map<nat, set<nat>>, done: seq<nat>, r: nat): set<nat>
    requires r in links
  {
    set x | x in links[r] && x !in done
  }

  ghost predicate Before(done: seq<nat>, b: nat, a: nat) {
    exists i, j :: 0 <= i < j < |done| && done[i] == b && done[j] == a
  }

  ghost predicate Inv(links: map<nat, set<nat>>, n: nat, s: Shake) {
    && GoodLinks(links, n) && NoDup(s.done) && (forall r :: r in s.done ==> r < n)
    && (forall r: nat :: r in s.waiting <==> r < n && r in s.done && OpenLinks(links, s.done, r) != {})
    && (forall r :: r in s.waiting ==> s.waiting[r] == |OpenLinks(links, s.done, r)|)
    && (forall a: nat, b: nat :: s.orders[(a, b)] ==
          if a < n && b in links[a] && Before(s.done, b, a) then 1 else 0)
  }

  lemma WaitingIsPositive(links: map<nat, set<nat>>, n: nat, s: Shake)
    requires Inv(links, n, s)
    ensures forall r :: r in s.waiting ==> 0 < s.waiting[r]
  {}

  ghost function Earlier(links: map<nat, set<nat>>, done: seq<nat>, rank: nat): set<nat>
    requires rank in links
  {
    set r | r in links[rank] && r in done
  }

  // Told are exactly the linked ranks that came before.
  lemma ToldAreEarlier(links: map<nat, set<nat>>, n: nat, s: Shake, rank: nat)
    requires Inv(links, n, s) && rank < n && rank !in s.done
    ensures Told(s.waiting, links[rank]) == Earlier(links, s.done, rank)
  {
    forall r | r in links[rank] && r in s.done
      ensures r in s.waiting
    {
      assert rank in OpenLinks(links, s.done, r);
    }
  }

  lemma OpenLinksShrink(links: map<nat, set<nat>>, n: nat, done: seq<nat>, rank: nat, r: nat)
    requires GoodLinks(links, n) && rank < n && rank !in done && r < n && r != rank
    ensures OpenLinks(links, done + [rank], r) == OpenLinks(links, done, r) - {rank}
    ensures |OpenLinks(links, done + [rank], r)| ==
            |OpenLinks(links, done, r)| - if rank in links[r] then 1 else 0
  {
    var open, open' := OpenLinks(links, done, r), OpenLinks(links, done + [rank], r);
    assert open' == open - {rank};
    if rank in links[r] {
      assert rank in open;
    }
  }

  lemma OwnOpenLinks(links: map<nat, set<nat>>, n: nat, done: seq<nat>, rank: nat)
    requires GoodLinks(links, n) && rank < n && rank !in done
    ensures |OpenLinks(links, done + [rank], rank)| == |links[rank]| - |Earlier(links, done, rank)|
  {
    var told := Earlier(links, done, rank);
    var open := OpenLinks(links, done + [rank], rank);
    assert open + told == links[rank] && open !! told;
  }

  lemma WaitingKept(links: map<nat, set<nat>>, n: nat, s: Shake, rank: nat)
    requires Inv(links, n, s) && rank < n && rank !in s.done
    requires forall r :: r in s.waiting ==> 0 < s.waiting[r]
    ensures var s' := Assign(s, rank, links[rank]);
            && (forall r: nat :: r in s'.waiting <==>
                  r < n && r in s'.done && OpenLinks(links, s'.done, r) != {})
            && (forall r :: r in s'.waiting ==> s'.waiting[r] == |OpenLinks(links, s'.done, r)|)
  {
    var s' := Assign(s, rank, links[rank]);
    ToldAreEarlier(links, n, s, rank);
    OwnOpenLinks(links, n, s.done, rank);
    forall r: nat
      ensures r in s'.waiting <==> r < n && r in s'.done && OpenLinks(links, s'.done, r) != {}
      ensures r in s'.waiting ==> s'.waiting[r] == |OpenLinks(links, s'.done, r)|
    {
      if r < n && r != rank {
        OpenLinksShrink(links, n, s.done, rank, r);
      }
    }
  }

  lemma OrdersKept(links: map<nat, set<nat>>, n: nat, s: Shake, rank: nat, a: nat, b: nat)
    requires Inv(links, n, s) && rank < n && rank !in s.done
    requires forall r :: r in s.waiting ==> 0 < s.waiting[r]
    ensures var s' := Assign(s, rank, links[rank]);
            s'.orders[(a, b)] == if a < n && b in links[a] && Before(s'.done, b, a) then 1 else 0
  {
    ToldAreEarlier(links, n, s, rank);
    BeforeAppend(s.done, rank, b, a);
  }

  // With one more rank at the end: what came before as before, and all before the last.
  lemma BeforeAppend(done: seq<nat>, rank: nat, b: nat, a: nat)
    requires rank !in done
    ensures Before(done + [rank], b, a) <==> Before(done, b, a) || (a == rank && b in done)
  {
    var done' := done + [rank];
    if Before(done, b, a) {
      var i, j :| 0 <= i < j < |done| && done[i] == b && done[j] == a;
      assert done'[i] == b && done'[j] == a;
    }
    if Before(done', b, a) {
      var i, j :| 0 <= i < j < |done'| && done'[i] == b && done'[j] == a;
      assert j < |done| ==> done[i] == b && done[j] == a;
    }
    if a == rank && b in done {
      var i :| 0 <= i < |done| && done[i] == b;
      assert done'[i] == b && done'[|done|] == rank;
    }
  }

  lemma AssignKeeps(links: map<nat, set<nat>>, n: nat, s: Shake, rank: nat)
    requires Inv(links, n, s) && rank < n && rank !in s.done
    ensures (forall r :: r in s.waiting ==> 0 < s.waiting[r])
            && Inv(links, n, Assign(s, rank, links[rank]))
  {
    WaitingIsPositive(links, n, s);
    WaitingKept(links, n, s, rank);
    forall a: nat, b: nat
      ensures Assign(s, rank, links[rank]).orders[(a, b)] ==
              if a < n && b in links[a] && Before(s.done + [rank], b, a) then 1 else 0
    {
      OrdersKept(links, n, s, rank, a, b);
    }
  }

  // ---- The whole start ----

  ghost function Start(links: map<nat, set<nat>>, n: nat, ranks: seq<nat>): (s: Shake)
    requires GoodLinks(links, n) && NoDup(ranks) && forall r :: r in ranks ==> r < n
    ensures Inv(links, n, s) && s.done == ranks
  {
    if ranks == [] then Shake([], map[], multiset{})
    else
      var front, rank := ranks[..|ranks| - 1], ranks[|ranks| - 1];
      LastRank(ranks);
      var s := Start(links, n, front);
      AssignKeeps(links, n, s, rank);
      Assign(s, rank, links[rank])
  }

  lemma LastRank(ranks: seq<nat>)
    requires NoDup(ranks) && ranks != []
    ensures var front, rank := ranks[..|ranks| - 1], ranks[|ranks| - 1];
            && NoDup(front) && rank !in front && rank in ranks && front + [rank] == ranks
            && forall r :: r in front ==> r in ranks
  {}

  // Every link was ordered exactly once, from the later rank to the earlier one,
  // and nothing else was ordered.
  ghost predicate OrderedOnce(links: map<nat, set<nat>>, n: nat, ranks: seq<nat>, orders: multiset<(nat, nat)>)
    requires KeysBelow(links, n)
  {
    forall a: nat, b: nat ::
      if a < n && b in links[a]
      then orders[(a, b)] == B2N(Before(ranks, b, a)) && Before(ranks, b, a) != Before(ranks, a, b)
      else orders[(a, b)] == 0
  }

  lemma LinkInRange(links: map<nat, set<nat>>, n: nat, a: nat, b: nat)
    requires GoodLinks(links, n) && a < n && b in links[a]
    ensures b < n && b != a && a in links[b]
  {}

  lemma FinalState(links: map<nat, set<nat>>, n: nat, s: Shake)
    requires Inv(links, n, s) && forall r: nat :: r in s.done <==> r < n
    ensures s.waiting == map[] && OrderedOnce(links, n, s.done, s.orders)
  {
    forall r: nat
      ensures r !in s.waiting
    {
      if r < n {
        forall x | x in links[r]
          ensures x in s.done
        {
          LinkInRange(links, n, r, x);
        }
        assert OpenLinks(links, s.done, r) == {};
      }
    }
    forall a: nat, b: nat | a < n && b in links[a]
      ensures Before(s.done, b, a) != Before(s.done, a, b)
    {
      LinkInRange(links, n, a, b);
      assert a in s.done && b in s.done;
      OneComesFirst(s.done, a, b);
    }
  }

  // Once every rank is assigned, in whatever order, nobody waits any more.
  lemma AllLinksOrderedOnce(links: map<nat, set<nat>>, n: nat, ranks: seq<nat>)
    requires GoodLinks(links, n) && NoDup(ranks) && forall r: nat :: r in ranks <==> r < n
    ensures Start(links, n, ranks).waiting == map[]
    ensures OrderedOnce(links, n, ranks, Start(links, n, ranks).orders)
  {
    FinalState(links, n, Start(links, n, ranks));
  }

  lemma OneComesFirst(ranks: seq<nat>, a: nat, b: nat)
    requires NoDup(ranks) && a in ranks && b in ranks && a != b
    ensures Before(ranks, b, a) != Before(ranks, a, b)
  {
    var i :| 0 <= i < |ranks| && ranks[i] == a;
    var j :| 0 <= j < |ranks| && ranks[j] == b;
    assert forall k :: 0 <= k < |ranks| && ranks[k] == a ==> k == i;
    assert forall k :: 0 <= k < |ranks| && ranks[k] == b ==> k == j;
  }

  // ---- The whole start ----

  method CollectLinks(n: nat, tree: map<nat, seq<nat>>, ringMap: map<nat, (nat, nat)>)
    returns (links: map<nat, set<nat>>)
    requires forall r: nat :: r < n ==> r in tree && r in ringMap
    ensures KeysBelow(links, n) && forall r: nat :: r < n ==> links[r] == LinksOf(tree, ringMap, r)
  {
    links := map[];
    for r := 0 to n
      invariant KeysBelow(links, r) && forall q: nat :: q < r ==> links[q] == LinksOf(tree, ringMap, q)
    {
      links := links[r := LinksOf(tree, ringMap, r)];
    }
  }

  // Old ranks k and j are linked if they are neighbours in the heap, or if their new
  // ranks follow each other round the ring.
  ghost predicate LinkedInHeapOrRing(rank: map<nat, nat>, n: nat, k: nat, j: nat)
    requires KeysBelow(rank, n) && k < n && j < n
  {
    j != k && (HeapEdge(k, j) || HeapEdge(j, k) || rank[j] == (rank[k] + 1) % n || rank[k] == (rank[j] + 1) % n)
  }

  ghost predicate TreeAndRingLinks(rank: map<nat, nat>, n: nat, links: map<nat, set<nat>>)
    requires KeysBelow(rank, n)
  {
    && (forall k: nat :: k < n ==> rank[k] in links)
    && (forall k: nat, j: nat :: k < n && j < n ==>
          (rank[j] in links[rank[k]] <==> LinkedInHeapOrRing(rank, n, k, j)))
  }

  lemma LinksAreTreeAndRing(rank: map<nat, nat>, rlst: seq<nat>, n: nat, tree: map<nat, seq<nat>>,
                            parent: map<nat, int>, ringMap: map<nat, (nat, nat)>, k: nat, j: nat)
    requires IsRenumbering(rank, rlst, n) && SameTree(rank, n, tree, parent)
    requires forall i: nat :: i < n ==> i in ringMap && ringMap[i] == ((i + n - 1) % n, (i + 1) % n)
    requires k < n && j < n
    ensures rank[j] in LinksOf(tree, ringMap, rank[k]) <==> LinkedInHeapOrRing(rank, n, k, j)
  {
    assert rlst[rank[k]] == k && rlst[rank[j]] == j;
    BeforeIsAfter(rank[j], rank[k], n);
  }

  lemma BeforeIsAfter(a: nat, b: nat, n: nat)
    requires a < n && b < n
    ensures a == (b + n - 1) % n <==> b == (a + 1) % n
  {
    IndicesByModulus(b, n);
    IndicesByModulus(a, n);
  }

  // The links of the renumbered tree and ring.
  method LayOut(n: nat, kids: nat -> seq<nat>) returns (rank: map<nat, nat>, links: map<nat, set<nat>>)
    requires IsOrder(kids, n) && 0 < n
    ensures IsRenumbering(rank, RingOf(n, kids), n)
    ensures GoodLinks(links, n) && TreeAndRingLinks(rank, n, links)
  {
    var tree, parent, ringMap;
    tree, parent, ringMap, rank := GetLinkMap(n, kids);
    ghost var rlst := RingOf(n, kids);
    TreeHasAll(rank, rlst, n, tree, parent);
    links := CollectLinks(n, tree, ringMap);
    LinkMapIsSymmetric(rank, rlst, n, tree, parent, ringMap, links);
    AllLinksAreTreeAndRing(rank, rlst, n, tree, parent, ringMap, links);
  }

  lemma AllLinksAreTreeAndRing(rank: map<nat, nat>, rlst: seq<nat>, n: nat, tree: map<nat, seq<nat>>,
                               parent: map<nat, int>, ringMap: map<nat, (nat, nat)>, links: map<nat, set<nat>>)
    requires IsRenumbering(rank, rlst, n) && SameTree(rank, n, tree, parent)
    requires forall i: nat :: i < n ==> i in ringMap && ringMap[i] == ((i + n - 1) % n, (i + 1) % n)
    requires forall r: nat :: r < n ==> r in links && r in tree && links[r] == LinksOf(tree, ringMap, r)
    ensures TreeAndRingLinks(rank, n, links)
  {
    forall k: nat, j: nat | k < n && j < n
      ensures rank[j] in links[rank[k]] <==> LinkedInHeapOrRing(rank, n, k, j)
    {
      LinksAreTreeAndRing(rank, rlst, n, tree, parent, ringMap, k, j);
    }
  }

  // Ranks are handed out in any order.
  method AssignAll(links: map<nat, set<nat>>, n: nat, order: seq<nat>)
    returns (waiting: map<nat, nat>, orders: multiset<(nat, nat)>)
    requires GoodLinks(links, n) && NoDup(order) && forall r: nat :: r in order <==> r < n
    ensures waiting == map[] && OrderedOnce(links, n, order, orders)
  {
    var tracker := new Tracker();
    NoneStarted(links, n);
    for i := 0 to |order|
      invariant Inv(links, n, tracker.View()) && tracker.done == order[..i]
      invariant fresh(tracker)
    {
      NextRank(order, i);
      AssignKeeps(links, n, tracker.View(), order[i]);
      tracker.AssignRank(order[i], links[order[i]]);
    }
    assert order[..|order|] == order;
    FinalState(links, n, tracker.View());
    waiting, orders := tracker.waitConn, tracker.orders;
  }

  lemma NextRank(order: seq<nat>, i: nat)
    requires NoDup(order) && i < |order|
    ensures order[i] in order && order[i] !in order[..i] && order[..i] + [order[i]] == order[..i + 1]
  {
  }

  // Every link has been ordered once, from one side or the other.
  lemma LinkOrderedOnce(links: map<nat, set<nat>>, n: nat, order: seq<nat>, orders: multiset<(nat, nat)>,
                        a: nat, b: nat)
    requires GoodLinks(links, n) && OrderedOnce(links, n, order, orders) && a < n && b < n
    ensures orders[(a, b)] + orders[(b, a)] == B2N(b in links[a])
  {
    assert b in links[a] <==> a in links[b];
  }

  ghost predicate DialledOnce(orders: multiset<(nat, nat)>, a: nat, b: nat) {
    orders[(a, b)] + orders[(b, a)] == 1
  }

  // So the ring is closed: every rank is connected with the next, and the last with 0.
  lemma RingIsDialled(rank: map<nat, nat>, rlst: seq<nat>, n: nat, links: map<nat, set<nat>>, order: seq<nat>,
                      orders: multiset<(nat, nat)>, r: nat)
    requires 1 < n && IsRenumbering(rank, rlst, n) && GoodLinks(links, n) && TreeAndRingLinks(rank, n, links)
    requires OrderedOnce(links, n, order, orders) && r < n
    ensures DialledOnce(orders, r, (r + 1) % n)
  {
    IndicesByModulus(r, n);
    var q := (r + 1) % n;
    assert rank[rlst[r]] == r && rank[rlst[q]] == q;
    assert LinkedInHeapOrRing(rank, n, rlst[r], rlst[q]);
    LinkOrderedOnce(links, n, order, orders, r, q);
  }

  lemma TreeIsDialled(rank: map<nat, nat>, rlst: seq<nat>, n: nat, links: map<nat, set<nat>>, order: seq<nat>,
                      orders: multiset<(nat, nat)>, k: nat, j: nat)
    requires IsRenumbering(rank, rlst, n) && GoodLinks(links, n) && TreeAndRingLinks(rank, n, links)
    requires OrderedOnce(links, n, order, orders) && k < n && j < n && HeapEdge(k, j)
    ensures DialledOnce(orders, rank[k], rank[j])
  {
    assert LinkedInHeapOrRing(rank, n, k, j);
    LinkOrderedOnce(links, n, order, orders, rank[k], rank[j]);
  }

  /**
   * The tracker lays out the topology for n slaves and hands the ranks out in any order:
   * in the end nobody waits, and every link of the tree and the ring, and no other, has
   * been ordered once, from the slave that came later to the one that came earlier.
   */
  method StartSlaves(n: nat, kids: nat -> seq<nat>, order: seq<nat>)
    returns (rank: map<nat, nat>, links: map<nat, set<nat>>, waiting: map<nat, nat>, orders: multiset<(nat, nat)>)
    requires IsOrder(kids, n) && 0 < n
    requires NoDup(order) && forall r: nat :: r in order <==> r < n
    ensures IsRenumbering(rank, RingOf(n, kids), n)
    ensures GoodLinks(links, n) && TreeAndRingLinks(rank, n, links)
    ensures waiting == map[] && OrderedOnce(links, n, order, orders)
    ensures forall r: nat, q: nat :: 1 < n && r < n && q == (r + 1) % n ==> DialledOnce(orders, r, q)
    ensures forall k: nat, j: nat :: k < n && j < n && HeapEdge(k, j) ==> DialledOnce(orders, rank[k], rank[j])
  {
    rank, links := LayOut(n, kids);
    waiting, orders := AssignAll(links, n, order);
    ghost var rlst := RingOf(n, kids);
    forall r: nat, q: nat | 1 < n && r < n && q == (r + 1) % n
      ensures DialledOnce(orders, r, q)
    {
      RingIsDialled(rank, rlst, n, links, order, orders, r);
    }
    forall k: nat, j: nat | k < n && j < n && HeapEdge(k, j)
      ensures DialledOnce(orders, rank[k], rank[j])
    {
      TreeIsDialled(rank, rlst, n, links, order, orders, k, j);
    }
  }

  lemma NoneStarted(links: map<nat, set<nat>>, n: nat)
    requires GoodLinks(links, n)
    ensures Inv(links, n, Shake([], map[], multiset{}))
  {
  }

  lemma TreeHasAll(rank: map<nat, nat>, rlst: seq<nat>, n: nat, tree: map<nat, seq<nat>>, parent: map<nat, int>)
    requires IsRenumbering(rank, rlst, n) && CarriedOver(rank, n, tree, parent, n)
    ensures forall r: nat :: r < n ==> r in tree
  {
    forall r: nat | r < n
      ensures r in tree
    {
      assert rank[rlst[r]] == r && TreeEntry(rank, n, tree, parent, rlst[r]);
    }
  }
}
