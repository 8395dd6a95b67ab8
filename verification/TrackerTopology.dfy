/**
 * The rabit tracker's topology: a heap-shaped tree, a ring that shares edges
 * with it, and ranks renumbered along the ring.
 */
module TrackerTopology {
  import opened Common

  // ---- The heap-shaped tree ----

  function Parent(r: nat): int {
    (r + 1) / 2 - 1
  }

  function GetNeighbor(r: nat, n: nat): seq<nat> {
    var h := r + 1;
    (if h > 1 then [h / 2 - 1] else [])
    + (if h * 2 - 1 < n then [h * 2 - 1] else [])
    + (if h * 2 < n then [h * 2] else [])
  }

  // The neighbours without the parent.
  predicate IsChild(n: nat, r: nat, c: nat) {
    c in GetNeighbor(r, n) && c != Parent(r)
  }

  lemma ChildIff(n: nat, r: nat, c: nat)
    ensures IsChild(n, r, c) <==> 0 < c < n && Parent(c) == r
  {}

  lemma NeighborsSymmetric(n: nat, a: nat, b: nat)
    requires a < n && b < n
    ensures b in GetNeighbor(a, n) <==> a in GetNeighbor(b, n)
  {}

  // c hangs directly below r in a binary heap.
  predicate HeapEdge(r: nat, c: nat) {
    c == 2 * r + 1 || c == 2 * r + 2
  }

  // The tree is a binary heap: at most two children, at fixed places, and the parent
  // whose child a rank is.
  lemma TreeIsHeap(n: nat, r: nat, c: nat)
    requires r < n && c < n
    ensures c in GetNeighbor(r, n) <==> HeapEdge(r, c) || HeapEdge(c, r)
    ensures IsChild(n, r, c) <==> HeapEdge(r, c)
    ensures if c == 0 then Parent(c) == -1 else 0 <= Parent(c) && HeapEdge(Parent(c), c)
    ensures NoDup(GetNeighbor(r, n))
  {
  }

  // Steps up to the root.
  function Depth(v: nat): nat
    decreases v
  {
    if v == 0 then 0 else 1 + Depth(Parent(v))
  }

  function Exp2(k: nat): nat {
    if k == 0 then 1 else 2 * Exp2(k - 1)
  }

  // So it is as shallow as a binary tree can be: rank v lies at the logarithm of v + 1.
  lemma {:induction false} DepthIsLogarithm(v: nat)
    ensures Exp2(Depth(v)) <= v + 1 < 2 * Exp2(Depth(v))
    decreases v
  {
    if v > 0 {
      DepthIsLogarithm(Parent(v));
    }
  }

  // v is in the subtree under r.
  predicate Under(r: nat, v: nat)
    decreases v
  {
    v == r || (0 < v && Under(r, Parent(v)))
  }

  lemma {:induction false} UnderIsLater(r: nat, v: nat)
    requires Under(r, v)
    ensures r <= v
    decreases v
  {
    if v != r {
      UnderIsLater(r, Parent(v));
    }
  }

  lemma {:induction false} AllUnderRoot(v: nat)
    ensures Under(0, v)
    decreases v
  {
    if v > 0 {
      AllUnderRoot(Parent(v));
    }
  }

  // Below r means under one of its children.
  lemma {:induction false} UnderSomeChild(n: nat, r: nat, v: nat) returns (c: nat)
    requires v < n && v != r && Under(r, v)
    ensures IsChild(n, r, c) && Under(c, v)
    decreases v
  {
    if Parent(v) == r {
      c := v;
      ChildIff(n, r, v);
    } else {
      c := UnderSomeChild(n, r, Parent(v));
    }
  }

  lemma {:induction false} UnderChildIsUnder(n: nat, r: nat, c: nat, v: nat)
    requires IsChild(n, r, c) && Under(c, v)
    ensures Under(r, v) && v != r
    decreases v
  {
    ChildIff(n, r, c);
    UnderIsLater(c, v);
    if v != c {
      UnderChildIsUnder(n, r, c, Parent(v));
    }
  }

  lemma {:induction false} SubtreesDisjoint(n: nat, r: nat, c: nat, c': nat, v: nat)
    requires IsChild(n, r, c) && IsChild(n, r, c') && Under(c, v) && Under(c', v)
    ensures c == c'
    decreases v
  {
    ChildIff(n, r, c);
    ChildIff(n, r, c');
    if c != c' {
      if v == c {
        UnderIsLater(c', Parent(v));
      } else if v == c' {
        UnderIsLater(c, Parent(v));
      } else {
        SubtreesDisjoint(n, r, c, c', Parent(v));
      }
    }
  }

  // ---- Lists ----

  function Reverse(s: seq<nat>): (r: seq<nat>)
    ensures |r| == |s|
    ensures forall i :: 0 <= i < |s| ==> r[i] == s[|s| - 1 - i]
    ensures forall x :: x in r <==> x in s
  {
    var r := seq(|s|, i requires 0 <= i < |s| => s[|s| - 1 - i]);
    assert forall i :: 0 <= i < |s| ==> s[i] == r[|s| - 1 - i];
    r
  }

  lemma NoDupConcat(a: seq<nat>, b: seq<nat>)
    requires NoDup(a) && NoDup(b) && forall x :: x in a ==> x !in b
    ensures NoDup(a + b)
  {
    forall i, j | 0 <= i < j < |a + b|
      ensures (a + b)[i] != (a + b)[j]
    {
      if i < |a| <= j {
        assert a[i] in a && b[j - |a|] in b;
      }
    }
  }

  // x and y stand next to each other.
  ghost predicate Adjacent(s: seq<nat>, x: nat, y: nat) {
    exists i :: 0 <= i < |s| - 1 && ((s[i] == x && s[i + 1] == y) || (s[i] == y && s[i + 1] == x))
  }

  lemma AdjacentLeft(a: seq<nat>, b: seq<nat>, x: nat, y: nat)
    requires Adjacent(a, x, y)
    ensures Adjacent(a + b, x, y)
  {
    var i :| 0 <= i < |a| - 1 && ((a[i] == x && a[i + 1] == y) || (a[i] == y && a[i + 1] == x));
    assert (a + b)[i] == a[i] && (a + b)[i + 1] == a[i + 1];
  }

  lemma AdjacentRight(a: seq<nat>, b: seq<nat>, x: nat, y: nat)
    requires Adjacent(b, x, y)
    ensures Adjacent(a + b, x, y)
  {
    var i :| 0 <= i < |b| - 1 && ((b[i] == x && b[i + 1] == y) || (b[i] == y && b[i + 1] == x));
    assert (a + b)[|a| + i] == b[i] && (a + b)[|a| + i + 1] == b[i + 1];
  }

  lemma AdjacentReverse(s: seq<nat>, x: nat, y: nat)
    requires Adjacent(s, x, y)
    ensures Adjacent(Reverse(s), x, y)
  {
    var i :| 0 <= i < |s| - 1 && ((s[i] == x && s[i + 1] == y) || (s[i] == y && s[i + 1] == x));
    var k := |s| - 2 - i;
    assert Reverse(s)[k] == s[i + 1] && Reverse(s)[k + 1] == s[i];
  }

  // ---- The ring ----

  // The order in which a node's child set happens to be iterated.
  ghost predicate IsOrder(kids: nat -> seq<nat>, n: nat) {
    forall r: nat :: r < n ==>
      NoDup(kids(r)) && forall c: nat :: c in kids(r) <==> IsChild(n, r, c)
  }

  ghost predicate SomeKids(n: nat, r: nat, vs: seq<nat>) {
    forall i :: 0 <= i < |vs| ==> IsChild(n, r, vs[i])
  }

  // find_share_ring: the node, then its children's lists, the last one reversed.
  function ShareRing(n: nat, kids: nat -> seq<nat>, r: nat): seq<nat>
    requires IsOrder(kids, n) && r < n
    decreases n - r, 1, 0
  {
    [r] + JoinRings(n, kids, r, kids(r))
  }

  function JoinRings(n: nat, kids: nat -> seq<nat>, r: nat, vs: seq<nat>): seq<nat>
    requires IsOrder(kids, n) && r < n && SomeKids(n, r, vs)
    decreases n - r, 0, |vs|
  {
    if vs == [] then []
    else
      ChildIff(n, r, vs[0]);
      var vlst := ShareRing(n, kids, vs[0]);
      (if |vs| == 1 then Reverse(vlst) else vlst) + JoinRings(n, kids, r, vs[1..])
  }

  // The list of r visits exactly the subtree under r, once each.
  lemma {:induction false} RingCoversSubtree(n: nat, kids: nat -> seq<nat>, r: nat)
    requires IsOrder(kids, n) && r < n
    ensures NoDup(ShareRing(n, kids, r))
    ensures forall v: nat :: v in ShareRing(n, kids, r) <==> v < n && Under(r, v)
    decreases n - r, 1, 0
  {
    JoinCoversSubtrees(n, kids, r, kids(r));
    var joined := JoinRings(n, kids, r, kids(r));
    forall v: nat
      ensures v in joined <==> v < n && v != r && Under(r, v)
    {
      if v in joined {
        var c: nat :| c in kids(r) && v < n && Under(c, v);
        UnderChildIsUnder(n, r, c, v);
      }
      if v < n && v != r && Under(r, v) {
        var c := UnderSomeChild(n, r, v);
        assert c in kids(r);
      }
    }
    NoDupConcat([r], joined);
  }

  lemma {:induction false} JoinCoversSubtrees(n: nat, kids: nat -> seq<nat>, r: nat, vs: seq<nat>)
    requires IsOrder(kids, n) && r < n && SomeKids(n, r, vs) && NoDup(vs)
    ensures NoDup(JoinRings(n, kids, r, vs))
    ensures forall v: nat :: v in JoinRings(n, kids, r, vs) <==>
              exists c: nat :: c in vs && v < n && Under(c, v)
    decreases n - r, 0, |vs|
  {
    if vs != [] {
      ChildIff(n, r, vs[0]);
      RingCoversSubtree(n, kids, vs[0]);
      JoinCoversSubtrees(n, kids, r, vs[1..]);
      var first := ShareRing(n, kids, vs[0]);
      var rest := JoinRings(n, kids, r, vs[1..]);
      forall v | v in first
        ensures v !in rest
      {
        if v in rest {
          var c: nat :| c in vs[1..] && v < n && Under(c, v);
          SubtreesDisjoint(n, r, vs[0], c, v);
        }
      }
      NoDupConcat(first, rest);
      NoDupConcat(Reverse(first), rest);
      assert vs == [vs[0]] + vs[1..];
      forall v: nat
        ensures v in first || v in rest <==> exists c: nat :: c in vs && v < n && Under(c, v)
      {
        if v in first {
          assert vs[0] in vs && Under(vs[0], v);
        } else if v in rest {
          var c: nat :| c in vs[1..] && v < n && Under(c, v);
          assert c in vs;
        }
      }
    }
  }

  // Every node stands next to the child its iteration visits first.
  lemma {:induction false} RingSharesTreeEdges(n: nat, kids: nat -> seq<nat>, r: nat, x: nat)
    requires IsOrder(kids, n) && r < n && x < n && Under(r, x) && kids(x) != []
    ensures Adjacent(ShareRing(n, kids, r), x, kids(x)[0])
    decreases n - r, 1, 0
  {
    var joined := JoinRings(n, kids, r, kids(r));
    if x == r {
      StartsWithFirstChild(n, kids, r);
      var ring := ShareRing(n, kids, r);
      assert ring[0] == r && ring[1] == joined[0];
    } else {
      var c := UnderSomeChild(n, r, x);
      assert c in kids(r);
      JoinSharesTreeEdges(n, kids, r, kids(r), c, x);
      AdjacentRight([r], joined, x, kids(x)[0]);
    }
  }

  lemma {:induction false} JoinSharesTreeEdges(n: nat, kids: nat -> seq<nat>, r: nat, vs: seq<nat>,
                                               c: nat, x: nat)
    requires IsOrder(kids, n) && r < n && SomeKids(n, r, vs) && c in vs
    requires x < n && Under(c, x) && kids(x) != []
    ensures Adjacent(JoinRings(n, kids, r, vs), x, kids(x)[0])
    decreases n - r, 0, |vs|
  {
    ChildIff(n, r, vs[0]);
    var vlst := ShareRing(n, kids, vs[0]);
    var rest := JoinRings(n, kids, r, vs[1..]);
    if c == vs[0] {
      RingSharesTreeEdges(n, kids, c, x);
      AdjacentReverse(vlst, x, kids(x)[0]);
      AdjacentLeft(vlst, rest, x, kids(x)[0]);
      AdjacentLeft(Reverse(vlst), rest, x, kids(x)[0]);
    } else {
      JoinSharesTreeEdges(n, kids, r, vs[1..], c, x);
      AdjacentRight(vlst, rest, x, kids(x)[0]);
      AdjacentRight(Reverse(vlst), rest, x, kids(x)[0]);
    }
  }

  // An only child of a heap node is a leaf.
  lemma OnlyChildIsLeaf(n: nat, kids: nat -> seq<nat>, r: nat)
    requires IsOrder(kids, n) && r < n && |kids(r)| == 1
    ensures kids(r)[0] < n && kids(kids(r)[0]) == []
  {
    var c := kids(r)[0];
    assert c in kids(r);
    ChildIff(n, r, c);
    var a, b := 2 * r + 1, 2 * r + 2;
    ChildIff(n, r, a);
    ChildIff(n, r, b);
    if kids(c) != [] {
      var d := kids(c)[0];
      assert d in kids(c);
      ChildIff(n, c, d);
    }
  }

  lemma StartsWithFirstChild(n: nat, kids: nat -> seq<nat>, r: nat)
    requires IsOrder(kids, n) && r < n && kids(r) != []
    ensures JoinRings(n, kids, r, kids(r)) != []
    ensures JoinRings(n, kids, r, kids(r))[0] == kids(r)[0]
  {
    var c := kids(r)[0];
    assert c in kids(r);
    ChildIff(n, r, c);
    if |kids(r)| == 1 {
      OnlyChildIsLeaf(n, kids, r);
      assert JoinRings(n, kids, c, kids(c)) == [];
      assert ShareRing(n, kids, c) == [c];
    }
  }

  // The list of a node with children ends at one of them, so the ring closes
  // over a tree edge.
  lemma {:induction false} EndsAtChild(n: nat, kids: nat -> seq<nat>, r: nat, vs: seq<nat>)
    requires IsOrder(kids, n) && r < n && SomeKids(n, r, vs) && vs != []
    ensures var j := JoinRings(n, kids, r, vs); j != [] && j[|j| - 1] == vs[|vs| - 1]
    decreases |vs|
  {
    ChildIff(n, r, vs[0]);
    var vlst, rest := ShareRing(n, kids, vs[0]), JoinRings(n, kids, r, vs[1..]);
    if |vs| == 1 {
      assert rest == [] && vlst[0] == vs[0];
      LastReversed(vlst);
    } else {
      EndsAtChild(n, kids, r, vs[1..]);
      LastOfConcat(vlst, rest);
    }
  }

  lemma LastReversed(s: seq<nat>)
    requires s != []
    ensures Reverse(s) + [] != [] && (Reverse(s) + [])[|s| - 1] == s[0]
  {
  }

  lemma LastOfConcat(a: seq<nat>, b: seq<nat>)
    requires b != []
    ensures (a + b)[|a + b| - 1] == b[|b| - 1]
  {
  }

  // ---- Ranks along the ring ----

  lemma {:induction false} PigeonHole(s: seq<nat>, n: nat)
    requires NoDup(s) && forall v: nat :: v in s <==> v < n
    ensures |s| == n
  {
    assert s == [] || s[0] in s;
    if n > 0 {
      assert n - 1 in s;
      var i :| 0 <= i < |s| && s[i] == n - 1;
      var t := s[..i] + s[i + 1..];
      forall v: nat
        ensures v in t <==> v < n - 1
      {
        if v in t {
          var k :| 0 <= k < |t| && t[k] == v;
          assert t[k] == s[if k < i then k else k + 1];
          assert v in s;
        }
        if v < n - 1 {
          assert v in s;
          var j :| 0 <= j < |s| && s[j] == v;
          assert t[if j < i then j else j - 1] == v;
        }
      }
      PigeonHole(t, n - 1);
    }
  }

  function RingOf(n: nat, kids: nat -> seq<nat>): (ring: seq<nat>)
    requires IsOrder(kids, n) && 0 < n
    ensures |ring| == n && NoDup(ring) && forall v: nat :: v in ring <==> v < n
    ensures ring[0] == 0
  {
    RingCoversSubtree(n, kids, 0);
    var ring := ShareRing(n, kids, 0);
    assert forall v: nat :: v in ring <==> v < n by {
      forall v: nat
        ensures v in ring <==> v < n
      {
        AllUnderRoot(v);
      }
    }
    PigeonHole(ring, n);
    ring
  }

  // ---- The maps ----

  ghost predicate KeysBelow<V>(m: map<nat, V>, n: nat) {
    forall k: nat :: k in m <==> k < n
  }

  lemma ModSmall(x: nat, n: nat)
    requires x < n
    ensures x % n == x
  {}

  lemma ModOnce(x: nat, n: nat)
    requires 0 < n <= x < 2 * n
    ensures x % n == x - n
  {
    var q := x / n;
    assert x == q * n + x % n;
    assert q >= 2 ==> q * n >= 2 * n;
    assert q == 1;
  }

  // Where the two neighbours on a ring of n are.
  function PrevIndex(i: nat, n: nat): nat
    requires i < n
  {
    if i == 0 then n - 1 else i - 1
  }

  function NextIndex(i: nat, n: nat): nat
    requires i < n
  {
    if i + 1 == n then 0 else i + 1
  }

  lemma IndicesByModulus(i: nat, n: nat)
    requires i < n
    ensures (i + n - 1) % n == PrevIndex(i, n)
    ensures (i + 1) % n == NextIndex(i, n)
  {
    if i == 0 {
      ModSmall(n - 1, n);
    } else {
      ModOnce(i + n - 1, n);
    }
    if i + 1 == n {
      ModOnce(i + 1, n);
    } else {
      ModSmall(i + 1, n);
    }
  }

  method GetTree(n: nat) returns (tree: map<nat, seq<nat>>, parent: map<nat, int>)
    ensures KeysBelow(tree, n) && KeysBelow(parent, n)
    ensures forall r: nat :: r < n ==> tree[r] == GetNeighbor(r, n) && parent[r] == Parent(r)
  {
    tree, parent := map[], map[];
    for r := 0 to n
      invariant KeysBelow(tree, r) && KeysBelow(parent, r)
      invariant forall k: nat :: k < r ==> tree[k] == GetNeighbor(k, n) && parent[k] == Parent(k)
    {
      tree := tree[r := GetNeighbor(r, n)];
      parent := parent[r := (r + 1) / 2 - 1];
    }
  }

  // The first upTo nodes of the list with their neighbours on the ring.
  ghost predicate RingMapOf(ringMap: map<nat, (nat, nat)>, rlst: seq<nat>, upTo: nat)
    requires upTo <= |rlst|
  {
    forall i: nat :: i < upTo ==> RingEntry(ringMap, rlst, i)
  }

  ghost predicate RingEntry(ringMap: map<nat, (nat, nat)>, rlst: seq<nat>, i: nat)
    requires i < |rlst|
  {
    rlst[i] in ringMap
    && ringMap[rlst[i]] == (rlst[PrevIndex(i, |rlst|)], rlst[NextIndex(i, |rlst|)])
  }

  method GetRing(rlst: seq<nat>) returns (ringMap: map<nat, (nat, nat)>)
    requires NoDup(rlst)
    ensures RingMapOf(ringMap, rlst, |rlst|)
  {
    ringMap := map[];
    for r := 0 to |rlst|
      invariant RingMapOf(ringMap, rlst, r)
    {
      IndicesByModulus(r, |rlst|);
      var rprev, rnext := (r + |rlst| - 1) % |rlst|, (r + 1) % |rlst|;
      ghost var before := ringMap;
      ringMap := ringMap[rlst[r] := (rlst[rprev], rlst[rnext])];
      forall i: nat | i < r
        ensures RingEntry(ringMap, rlst, i)
      {
        assert RingEntry(before, rlst, i) && rlst[i] != rlst[r];
      }
      assert RingEntry(ringMap, rlst, r);
    }
  }

  // rank numbers the first upTo nodes of the list in order.
  ghost predicate RanksUpTo(rank: map<nat, nat>, rlst: seq<nat>, upTo: nat)
    requires upTo <= |rlst|
  {
    && (forall k :: k in rank ==> k in rlst)
    && (forall i: nat :: i < upTo ==> rlst[i] in rank)
    && (forall i: nat :: i < upTo ==> rank[rlst[i]] == i)
  }

  // Follow the ring from node 0 and number the nodes as they come.
  method NumberAlongRing(ringMap: map<nat, (nat, nat)>, ghost rlst: seq<nat>, n: nat)
    returns (rank: map<nat, nat>)
    requires NoDup(rlst) && |rlst| == n > 0 && rlst[0] == 0 && RingMapOf(ringMap, rlst, n)
    ensures RanksUpTo(rank, rlst, n)
  {
    rank := map[0 := 0];
    var k := 0;
    for i := 0 to n - 1
      invariant k == rlst[i]
      invariant RanksUpTo(rank, rlst, i + 1)
    {
      assert RingEntry(ringMap, rlst, i);
      k := ringMap[k].1;
      assert forall j :: 0 <= j <= i ==> rlst[j] != rlst[i + 1];
      rank := rank[k := i + 1];
    }
  }

  function Renumber(rank: map<nat, nat>, s: seq<nat>): (r: seq<nat>)
    requires forall i :: 0 <= i < |s| ==> s[i] in rank
    ensures |r| == |s| && forall i :: 0 <= i < |s| ==> r[i] == rank[s[i]]
  {
    seq(|s|, i requires 0 <= i < |s| => rank[s[i]])
  }

  lemma NeighborsInRange(r: nat, n: nat)
    requires r < n
    ensures forall i :: 0 <= i < |GetNeighbor(r, n)| ==> GetNeighbor(r, n)[i] < n
  {}

  // rank and rlst are inverse to each other on the numbers below n, and node 0
  // keeps its number.
  ghost predicate IsRenumbering(rank: map<nat, nat>, rlst: seq<nat>, n: nat) {
    && KeysBelow(rank, n) && |rlst| == n
    && (forall k: nat :: k < n ==> rank[k] < n && rlst[rank[k]] == k)
    && (forall i: nat :: i < n ==> rlst[i] < n && rank[rlst[i]] == i)
    && (0 < n ==> rank[0] == 0)
  }

  lemma RanksAreRenumbering(rank: map<nat, nat>, rlst: seq<nat>, n: nat)
    requires |rlst| == n && (forall v: nat :: v in rlst <==> v < n)
    requires RanksUpTo(rank, rlst, n) && (0 < n ==> rlst[0] == 0)
    ensures IsRenumbering(rank, rlst, n)
  {
    forall k: nat | k < n
      ensures k in rank && rank[k] < n && rlst[rank[k]] == k
    {
      assert k in rlst;
      var i :| 0 <= i < n && rlst[i] == k;
      assert rank[rlst[i]] == i;
    }
    forall i: nat | i < n
      ensures rlst[i] < n
    {
      assert rlst[i] in rlst;
    }
  }

  // The tree and its parent map, carried over by the renumbering.
  ghost predicate CarriedOver(rank: map<nat, nat>, n: nat, tree: map<nat, seq<nat>>, parent: map<nat, int>,
                              upTo: nat)
    requires KeysBelow(rank, n) && upTo <= n
  {
    forall k: nat :: k < upTo ==> TreeEntry(rank, n, tree, parent, k)
  }

  ghost predicate TreeEntry(rank: map<nat, nat>, n: nat, tree: map<nat, seq<nat>>, parent: map<nat, int>,
                            k: nat)
    requires KeysBelow(rank, n) && k < n
  {
    && rank[k] in tree && tree[rank[k]] == RenumberedNeighbors(rank, n, k)
    && rank[k] in parent && parent[rank[k]] == RenumberedParent(rank, n, k)
  }

  function RenumberedNeighbors(rank: map<nat, nat>, n: nat, k: nat): seq<nat>
    requires KeysBelow(rank, n) && k < n
  {
    NeighborsInRange(k, n);
    Renumber(rank, GetNeighbor(k, n))
  }

  function RenumberedParent(rank: map<nat, nat>, n: nat, k: nat): int
    requires KeysBelow(rank, n) && k < n
  {
    if k == 0 then -1 else rank[Parent(k)]
  }

  lemma RanksDiffer(rank: map<nat, nat>, rlst: seq<nat>, n: nat, k: nat)
    requires IsRenumbering(rank, rlst, n) && k < n
    ensures forall j: nat :: j < k ==> rank[j] != rank[k]
  {
    forall j: nat | j < k
      ensures rank[j] != rank[k]
    {
      assert rlst[rank[j]] == j && rlst[rank[k]] == k;
    }
  }

  // The renumbered ring: each rank between the one before and the one after.
  method CarryRing(n: nat, rank: map<nat, nat>, ghost rlst: seq<nat>, ringMap: map<nat, (nat, nat)>)
    returns (ringMap': map<nat, (nat, nat)>)
    requires IsRenumbering(rank, rlst, n) && RingMapOf(ringMap, rlst, n)
    ensures forall i: nat :: i < n ==> i in ringMap' && ringMap'[i] == (PrevIndex(i, n), NextIndex(i, n))
  {
    ringMap' := map[];
    for k := 0 to n
      invariant forall j: nat :: j < k ==>
        rank[j] in ringMap' && ringMap'[rank[j]] == (PrevIndex(rank[j], n), NextIndex(rank[j], n))
    {
      RanksDiffer(rank, rlst, n, k);
      assert RingEntry(ringMap, rlst, rank[k]);
      var v := ringMap[k];
      ringMap' := ringMap'[rank[k] := (rank[v.0], rank[v.1])];
    }
    forall i: nat | i < n
      ensures i in ringMap' && ringMap'[i] == (PrevIndex(i, n), NextIndex(i, n))
    {
      assert rank[rlst[i]] == i;
    }
  }

  // The renumbered tree.  Ranks are given out once, so later entries never
  // overwrite earlier ones.
  method CarryTree(n: nat, rank: map<nat, nat>, ghost rlst: seq<nat>,
                   tree: map<nat, seq<nat>>, parent: map<nat, int>)
    returns (tree': map<nat, seq<nat>>, parent': map<nat, int>)
    requires IsRenumbering(rank, rlst, n)
    requires KeysBelow(tree, n) && KeysBelow(parent, n)
    requires forall r: nat :: r < n ==> tree[r] == GetNeighbor(r, n) && parent[r] == Parent(r)
    ensures CarriedOver(rank, n, tree', parent', n)
  {
    tree', parent' := map[], map[];
    for k := 0 to n
      invariant CarriedOver(rank, n, tree', parent', k)
    {
      ghost var t, p := tree', parent';
      NeighborsInRange(k, n);
      tree' := tree'[rank[k] := Renumber(rank, tree[k])];
      if k != 0 {
        var up: nat := parent[k];
        parent' := parent'[rank[k] := rank[up]];
      } else {
        parent' := parent'[rank[k] := -1];
      }
      RanksDiffer(rank, rlst, n, k);
      forall j: nat | j < k
        ensures TreeEntry(rank, n, tree', parent', j)
      {
        assert TreeEntry(rank, n, t, p, j) && rank[j] != rank[k];
      }
      assert TreeEntry(rank, n, tree', parent', k);
    }
  }

  // Said of the old ranks: new ranks are neighbours in the tree exactly when their old
  // ranks are in the heap, and a new rank's parent is the new rank of its heap parent.
  ghost predicate SameTree(rank: map<nat, nat>, n: nat, tree: map<nat, seq<nat>>, parent: map<nat, int>)
    requires KeysBelow(rank, n)
  {
    && (forall k: nat :: k < n ==> rank[k] in tree && rank[k] in parent)
    && (forall k: nat, j: nat :: k < n && j < n ==>
          (rank[j] in tree[rank[k]] <==> HeapEdge(k, j) || HeapEdge(j, k)))
    && (0 < n ==> parent[rank[0]] == -1)
    && (forall k: nat, j: nat :: k < n && j < n && HeapEdge(k, j) ==> parent[rank[j]] == rank[k])
  }

  lemma CarriedIsSame(rank: map<nat, nat>, rlst: seq<nat>, n: nat, tree: map<nat, seq<nat>>, parent: map<nat, int>)
    requires IsRenumbering(rank, rlst, n) && CarriedOver(rank, n, tree, parent, n)
    ensures SameTree(rank, n, tree, parent)
  {
    forall k: nat, j: nat | k < n && j < n
      ensures rank[k] in tree && rank[k] in parent
      ensures rank[j] in tree[rank[k]] <==> HeapEdge(k, j) || HeapEdge(j, k)
      ensures HeapEdge(j, k) ==> parent[rank[k]] == rank[j]
    {
      assert TreeEntry(rank, n, tree, parent, k);
      CarriedNeighbors(rank, rlst, n, k, j);
      TreeIsHeap(n, j, k);
      TreeIsHeap(n, k, j);
    }
    if 0 < n {
      assert TreeEntry(rank, n, tree, parent, 0);
    }
  }

  lemma CarriedNeighbors(rank: map<nat, nat>, rlst: seq<nat>, n: nat, k: nat, j: nat)
    requires IsRenumbering(rank, rlst, n) && k < n && j < n
    ensures rank[j] in RenumberedNeighbors(rank, n, k) <==> j in GetNeighbor(k, n)
  {
    NeighborsInRange(k, n);
    var ns, ns' := GetNeighbor(k, n), RenumberedNeighbors(rank, n, k);
    if j in ns {
      var i :| 0 <= i < |ns| && ns[i] == j;
      assert ns'[i] == rank[j];
    }
    if rank[j] in ns' {
      var i :| 0 <= i < |ns'| && ns'[i] == rank[j];
      assert rlst[rank[ns[i]]] == ns[i] && rlst[rank[j]] == j;
    }
  }

  // The whole construction: along the new numbers the ring is 0, 1, ..., n - 1,
  // and the tree is the heap-shaped one under a bijection of its nodes.
  method GetLinkMap(n: nat, kids: nat -> seq<nat>)
    returns (tree': map<nat, seq<nat>>, parent': map<nat, int>, ringMap': map<nat, (nat, nat)>,
             rank: map<nat, nat>)
    requires IsOrder(kids, n) && 0 < n
    ensures IsRenumbering(rank, RingOf(n, kids), n)
    ensures CarriedOver(rank, n, tree', parent', n) && SameTree(rank, n, tree', parent')
    ensures forall i: nat :: i < n ==> i in ringMap' && ringMap'[i] == (PrevIndex(i, n), NextIndex(i, n))
    ensures forall i: nat :: i < n ==> ringMap'[i] == ((i + n - 1) % n, (i + 1) % n)
  {
    var tree, parent := GetTree(n);
    var rlst := RingOf(n, kids);
    var ringMap := GetRing(rlst);
    rank := NumberAlongRing(ringMap, rlst, n);
    RanksAreRenumbering(rank, rlst, n);
    ringMap' := CarryRing(n, rank, rlst, ringMap);
    tree', parent' := CarryTree(n, rank, rlst, tree, parent);
    CarriedIsSame(rank, rlst, n, tree', parent');
    forall i: nat | i < n
      ensures ringMap'[i] == ((i + n - 1) % n, (i + 1) % n)
    {
      IndicesByModulus(i, n);
    }
  }

  // ---- What the renumbered tree and ring share ----

  // A node and the child its iteration visits first get consecutive ranks.
  lemma FirstChildIsNextRank(n: nat, kids: nat -> seq<nat>, rank: map<nat, nat>, x: nat)
    requires IsOrder(kids, n) && 0 < n && IsRenumbering(rank, RingOf(n, kids), n)
    requires x < n && kids(x) != []
    ensures kids(x)[0] < n
    ensures rank[kids(x)[0]] == rank[x] + 1 || rank[x] == rank[kids(x)[0]] + 1
  {
    var c := kids(x)[0];
    assert c in kids(x);
    ChildIff(n, x, c);
    AllUnderRoot(x);
    RingSharesTreeEdges(n, kids, 0, x);
    var rlst := RingOf(n, kids);
    assert rlst == ShareRing(n, kids, 0);
    var i :| 0 <= i < n - 1 && ((rlst[i] == x && rlst[i + 1] == c) || (rlst[i] == c && rlst[i + 1] == x));
    assert rank[rlst[i]] == i && rank[rlst[i + 1]] == i + 1;
  }

  // The last rank is a child of rank 0: the ring closes over a tree edge.
  lemma RingClosesOverTreeEdge(n: nat, kids: nat -> seq<nat>, rank: map<nat, nat>)
    requires IsOrder(kids, n) && 1 < n && IsRenumbering(rank, RingOf(n, kids), n)
    ensures var last := RingOf(n, kids)[n - 1]; last < n && IsChild(n, 0, last) && rank[last] == n - 1
  {
    ChildIff(n, 0, 1);
    assert 1 in kids(0);
    EndsAtChild(n, kids, 0, kids(0));
    var j := JoinRings(n, kids, 0, kids(0));
    var rlst := RingOf(n, kids);
    assert rlst == [0] + j;
    assert rlst[n - 1] == j[|j| - 1];
    assert j[|j| - 1] in kids(0);
    ChildIff(n, 0, rlst[n - 1]);
    assert rank[rlst[n - 1]] == n - 1;
  }
}
