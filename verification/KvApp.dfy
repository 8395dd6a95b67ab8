/**
 * The key/value layer of a worker: a request is sliced by server key range, and
 * a pull puts the servers' replies, which arrive in any order, back together.
 */
module KvApp {
  import opened Common

  // Keys are uint64_t; kMaxKey is their maximum.
  const MAX_KEY: nat := 0xFFFF_FFFF_FFFF_FFFF

  datatype Range = Range(begin: nat, end: nat)

  datatype KVPairs<V> = KVPairs(keys: seq<nat>, vals: seq<V>, lens: seq<nat>)

  ghost predicate Increasing(keys: seq<nat>) {
    forall i, j :: 0 <= i < j < |keys| ==> keys[i] < keys[j]
  }

  // std::lower_bound on keys[from..].
  function LowerBound(keys: seq<nat>, from: nat, x: nat): (p: nat)
    requires from <= |keys|
    ensures from <= p <= |keys|
    ensures forall i :: from <= i < p ==> keys[i] < x
    ensures p < |keys| ==> x <= keys[p]
    decreases |keys| - from
  {
    if from == |keys| || x <= keys[from] then from else LowerBound(keys, from + 1, x)
  }

  // How many keys are below x.
  function Cut(keys: seq<nat>, x: nat): (p: nat)
    ensures p <= |keys|
  {
    LowerBound(keys, 0, x)
  }

  lemma CutIs(keys: seq<nat>, x: nat, p: nat)
    requires Increasing(keys) && p <= |keys|
    requires forall i :: 0 <= i < p ==> keys[i] < x
    requires p < |keys| ==> x <= keys[p]
    ensures Cut(keys, x) == p
  {
    var c := Cut(keys, x);
    assert c < |keys| ==> x <= keys[c];
    assert forall i :: 0 <= i < c ==> keys[i] < x;
  }

  lemma CutAgain(keys: seq<nat>, x: nat, y: nat)
    requires Increasing(keys) && x <= y
    ensures Cut(keys, x) <= Cut(keys, y) && LowerBound(keys, Cut(keys, x), y) == Cut(keys, y)
  {
    var p := LowerBound(keys, Cut(keys, x), y);
    CutIs(keys, y, p);
  }

  // ---- The ranges of the servers ----

  function ServerRanges(n: nat): (r: seq<Range>)
    requires 0 < n
    ensures |r| == n
  {
    seq(n, i requires 0 <= i => Range(MAX_KEY / n * i, MAX_KEY / n * (i + 1)))
  }

  ghost predicate Forward(ranges: seq<Range>) {
    forall i :: 0 <= i < |ranges| ==> ranges[i].begin <= ranges[i].end
  }

  // Ranges in order, each starting where the one before ends.
  ghost predicate Contiguous(ranges: seq<Range>) {
    && (forall i :: 0 <= i < |ranges| ==> ranges[i].begin <= ranges[i].end)
    && (forall i :: 0 < i < |ranges| ==> ranges[i - 1].end == ranges[i].begin)
  }

  lemma ServerRangesContiguous(n: nat)
    requires 0 < n
    ensures Contiguous(ServerRanges(n)) && ServerRanges(n)[0].begin == 0
    ensures ServerRanges(n)[n - 1].end == MAX_KEY / n * n <= MAX_KEY
  {
    var q := MAX_KEY / n;
    forall i | 0 <= i < n
      ensures q * i <= q * (i + 1)
    {
      assert q * (i + 1) == q * i + q;
    }
    assert MAX_KEY == q * n + MAX_KEY % n;
  }

  // All servers get equally many keys; what is left over belongs to none.
  lemma ServersShareAlike(n: nat, i: nat)
    requires i < n
    ensures ServerRanges(n)[i].end - ServerRanges(n)[i].begin == MAX_KEY / n
    ensures 0 <= MAX_KEY - ServerRanges(n)[n - 1].end < n
  {
    var q := MAX_KEY / n;
    assert q * (i + 1) == q * i + q;
    assert MAX_KEY == q * n + MAX_KEY % n;
  }

  // ---- Slicing ----

  // The cut points of the ranges: pos[0] and then the end of each range.
  function Pos(keys: seq<nat>, ranges: seq<Range>, i: nat): (p: nat)
    requires i <= |ranges|
    ensures p <= |keys|
  {
    if |ranges| == 0 then 0
    else if i == 0 then Cut(keys, ranges[0].begin)
    else Cut(keys, ranges[i - 1].end)
  }

  lemma PosStep(keys: seq<nat>, ranges: seq<Range>, i: nat)
    requires Increasing(keys) && i < |ranges| && ranges[i].begin <= ranges[i].end
    requires i > 0 ==> ranges[i - 1].end == ranges[i].begin
    ensures Pos(keys, ranges, i) <= Pos(keys, ranges, i + 1)
    ensures LowerBound(keys, Pos(keys, ranges, i), ranges[i].end) == Pos(keys, ranges, i + 1)
    ensures Pos(keys, ranges, i) == Cut(keys, ranges[i].begin)
  {
    CutAgain(keys, ranges[i].begin, ranges[i].end);
  }

  function Sum(s: seq<nat>): nat {
    if s == [] then 0 else Sum(s[..|s| - 1]) + s[|s| - 1]
  }

  lemma {:induction false} SumConcat(a: seq<nat>, b: seq<nat>)
    ensures Sum(a + b) == Sum(a) + Sum(b)
  {
    if b == [] {
      assert a + b == a;
    } else {
      assert (a + b)[..|a + b| - 1] == a + b[..|b| - 1];
      SumConcat(a, b[..|b| - 1]);
    }
  }

  lemma SumSplit(s: seq<nat>, a: nat, b: nat, c: nat)
    requires a <= b <= c <= |s|
    ensures Sum(s[a..c]) == Sum(s[a..b]) + Sum(s[b..c])
  {
    assert s[a..c] == s[a..b] + s[b..c];
    SumConcat(s[a..b], s[b..c]);
  }

  // Without lens every key has the same number of values, rounded down.
  function PerKey<V>(send: KVPairs<V>): nat {
    if send.keys == [] then 0 else |send.vals| / |send.keys|
  }

  // Where the values of key position p begin, counted from key position `start`:
  // with lens their running sum, without them so many for each key.
  function ValueAt<V>(send: KVPairs<V>, start: nat, p: nat): nat
    requires start <= p <= |send.keys| && (send.lens == [] || |send.lens| == |send.keys|)
  {
    if send.lens != [] then Sum(send.lens[start..p]) else p * PerKey(send)
  }

  // What the CHECKs demand: every key below the last range's end, and values that
  // match the keys.
  ghost predicate Sliceable<V>(send: KVPairs<V>, ranges: seq<Range>) {
    && Pos(send.keys, ranges, |ranges|) == |send.keys|
    && (send.keys != [] ==>
          if send.lens == [] then |send.keys| * PerKey(send) == |send.vals|
          else
            && |send.lens| == |send.keys|
            && Sum(send.lens[Pos(send.keys, ranges, 0)..|send.keys|]) <= |send.vals|)
  }

  lemma {:induction false} PosMonotone(keys: seq<nat>, ranges: seq<Range>, i: nat, j: nat)
    requires Increasing(keys) && Contiguous(ranges) && i <= j <= |ranges|
    ensures Pos(keys, ranges, i) <= Pos(keys, ranges, j)
    decreases j
  {
    if i < j {
      PosMonotone(keys, ranges, i, j - 1);
      PosStep(keys, ranges, j - 1);
    }
  }

  lemma ValueAtBounds<V>(send: KVPairs<V>, ranges: seq<Range>, p: nat, q: nat)
    requires Sliceable(send, ranges) && send.keys != []
    requires Pos(send.keys, ranges, 0) <= p <= q <= |send.keys|
    ensures ValueAt(send, Pos(send.keys, ranges, 0), p) <= ValueAt(send, Pos(send.keys, ranges, 0), q) <= |send.vals|
  {
    var start := Pos(send.keys, ranges, 0);
    if send.lens == [] {
      MulLe(p, q, PerKey(send));
      MulLe(q, |send.keys|, PerKey(send));
    } else {
      SumSplit(send.lens, start, p, q);
      SumSplit(send.lens, start, q, |send.keys|);
    }
  }

  // What server i is sent, or nothing.
  ghost function SliceAt<V>(send: KVPairs<V>, ranges: seq<Range>, i: nat): Option<KVPairs<V>>
    requires Increasing(send.keys) && Contiguous(ranges) && Sliceable(send, ranges) && i < |ranges|
  {
    var start, p, q := Pos(send.keys, ranges, 0), Pos(send.keys, ranges, i), Pos(send.keys, ranges, i + 1);
    PosMonotone(send.keys, ranges, 0, i);
    PosStep(send.keys, ranges, i);
    if p == q then None
    else
      ValueAtBounds(send, ranges, p, q);
      Some(KVPairs(send.keys[p..q], send.vals[ValueAt(send, start, p)..ValueAt(send, start, q)],
                   if send.lens == [] then [] else send.lens[p..q]))
  }

  // The first loop: the cut points, or nothing when two ranges do not meet.
  method Positions(keys: seq<nat>, ranges: seq<Range>) returns (r: Option<seq<nat>>)
    requires Increasing(keys) && Forward(ranges)
    ensures r.Some? <==> Contiguous(ranges)
    ensures r.Some? ==> |r.value| == |ranges| + 1
    ensures r.Some? ==> forall i :: 0 <= i <= |ranges| ==> r.value[i] == Pos(keys, ranges, i)
  {
    var begin: nat := if |ranges| == 0 then 0 else LowerBound(keys, 0, ranges[0].begin);
    var pos: seq<nat> := [begin];
    for i := 0 to |ranges|
      invariant |pos| == i + 1 && begin == pos[i]
      invariant forall j :: 0 < j < i ==> ranges[j - 1].end == ranges[j].begin
      invariant forall j :: 0 <= j <= i ==> pos[j] == Pos(keys, ranges, j)
    {
      if i > 0 && ranges[i - 1].end != ranges[i].begin {
        return None;
      }
      PosStep(keys, ranges, i);
      var len := LowerBound(keys, begin, ranges[i].end) - begin;
      begin := begin + len;
      pos := pos + [pos[i] + len];
    }
    r := Some(pos);
  }

  method AddLens(from: nat, lens: seq<nat>) returns (end: nat)
    ensures end == from + Sum(lens)
  {
    end := from;
    for i := 0 to |lens|
      invariant end == from + Sum(lens[..i])
    {
      assert lens[..i + 1][..i] == lens[..i];
      end := end + lens[i];
    }
    assert lens[..|lens|] == lens;
  }

  // A stretch of keys with its lens and its values; with lens the values go on from
  // valBegin, without them they start at a multiple of the values for each key.
  ghost predicate IsStretch<V>(send: KVPairs<V>, from: nat, to: nat, valBegin: nat, valEnd: nat, kv: KVPairs<V>)
    requires from < to <= |send.keys| && (send.lens == [] || |send.lens| == |send.keys|)
  {
    && kv.keys == send.keys[from..to]
    && if send.lens == [] then
         && from * PerKey(send) <= to * PerKey(send) <= |send.vals|
         && kv.vals == send.vals[from * PerKey(send)..to * PerKey(send)]
         && kv.lens == []
       else
         && valBegin <= valEnd <= |send.vals|
         && kv.vals == send.vals[valBegin..valEnd]
         && kv.lens == send.lens[from..to]
  }

  // One round of the slicing loop for a non-empty stretch of keys: it fails when the
  // values run past the end.
  method SliceOne<V>(send: KVPairs<V>, from: nat, to: nat, k: nat, valBegin: nat)
    returns (kv: Option<KVPairs<V>>, valEnd: nat)
    requires from < to <= |send.keys| && valBegin <= |send.vals| && k == PerKey(send)
    requires if send.lens == [] then to * k <= |send.vals| else |send.lens| == |send.keys|
    ensures valEnd == if send.lens == [] then valBegin else valBegin + Sum(send.lens[from..to])
    ensures kv.Some? <==> valEnd <= |send.vals|
    ensures kv.Some? ==> IsStretch(send, from, to, valBegin, valEnd, kv.value)
  {
    valEnd := valBegin;
    if send.lens != [] {
      var lens := send.lens[from..to];
      valEnd := AddLens(valEnd, lens);
      if valEnd > |send.vals| {
        return None, valEnd;
      }
      kv := Some(KVPairs(send.keys[from..to], send.vals[valBegin..valEnd], lens));
    } else {
      MulLe(from, to, k);
      kv := Some(KVPairs(send.keys[from..to], send.vals[from * k..to * k], []));
    }
  }

  // The first i slices are right, if the request can be sliced at all.
  ghost predicate SlicedUpTo<V>(send: KVPairs<V>, ranges: seq<Range>, sliced: seq<Option<KVPairs<V>>>)
    requires Increasing(send.keys) && Contiguous(ranges) && |sliced| <= |ranges|
  {
    Sliceable(send, ranges) ==> forall j :: 0 <= j < |sliced| ==> sliced[j] == SliceAt(send, ranges, j)
  }

  lemma SlicedOneMore<V>(send: KVPairs<V>, ranges: seq<Range>, sliced: seq<Option<KVPairs<V>>>, kv: Option<KVPairs<V>>)
    requires Increasing(send.keys) && Contiguous(ranges) && |sliced| < |ranges|
    requires SlicedUpTo(send, ranges, sliced)
    requires Sliceable(send, ranges) ==> kv == SliceAt(send, ranges, |sliced|)
    ensures SlicedUpTo(send, ranges, sliced + [kv])
  {
  }

  lemma StretchIsSlice<V>(send: KVPairs<V>, ranges: seq<Range>, i: nat, valBegin: nat, valEnd: nat, kv: KVPairs<V>)
    requires Increasing(send.keys) && Contiguous(ranges) && i < |ranges| && Sliceable(send, ranges)
    requires send.keys != []
    requires Pos(send.keys, ranges, 0) <= Pos(send.keys, ranges, i) < Pos(send.keys, ranges, i + 1)
    requires IsStretch(send, Pos(send.keys, ranges, i), Pos(send.keys, ranges, i + 1), valBegin, valEnd, kv)
    requires send.lens != [] ==> valBegin == ValueAt(send, Pos(send.keys, ranges, 0), Pos(send.keys, ranges, i))
    requires send.lens != [] ==> valEnd == ValueAt(send, Pos(send.keys, ranges, 0), Pos(send.keys, ranges, i + 1))
    ensures SliceAt(send, ranges, i) == Some(kv)
  {
  }

  lemma SumUpTo<V>(send: KVPairs<V>, a: nat, b: nat, c: nat)
    requires a <= b <= c <= |send.keys| && (send.lens == [] || |send.lens| == |send.keys|)
    ensures send.lens != [] ==> ValueAt(send, a, c) == ValueAt(send, a, b) + Sum(send.lens[b..c])
    ensures send.lens != [] ==> ValueAt(send, a, c) <= ValueAt(send, a, |send.keys|)
  {
    if send.lens != [] {
      SumSplit(send.lens, a, b, c);
      SumSplit(send.lens, a, c, |send.keys|);
    }
  }

  // The values match the keys, as far as the CHECKs before the loop can tell.
  ghost predicate Countable<V>(send: KVPairs<V>, ranges: seq<Range>) {
    && Increasing(send.keys) && Contiguous(ranges) && send.keys != []
    && Pos(send.keys, ranges, |ranges|) == |send.keys|
    && if send.lens == [] then |send.keys| * PerKey(send) == |send.vals| else |send.lens| == |send.keys|
  }

  // The slicing loop before round i: values up to valBegin are handed out.
  ghost predicate AtRound<V>(send: KVPairs<V>, ranges: seq<Range>, i: nat,
                             sliced: seq<Option<KVPairs<V>>>, valBegin: nat)
    requires Countable(send, ranges)
  {
    && i == |sliced| <= |ranges| && valBegin <= |send.vals|
    && Pos(send.keys, ranges, 0) <= Pos(send.keys, ranges, i) <= |send.keys|
    && (send.lens != [] ==> valBegin == ValueAt(send, Pos(send.keys, ranges, 0), Pos(send.keys, ranges, i)))
    && SlicedUpTo(send, ranges, sliced)
  }

  // One round, and the CHECK in segment() that can still fail in it.
  method SliceRound<V>(send: KVPairs<V>, ranges: seq<Range>, i: nat, from: nat, to: nat,
                       sliced: seq<Option<KVPairs<V>>>, valBegin: nat)
    returns (ok: bool, sliced': seq<Option<KVPairs<V>>>, valEnd: nat)
    requires Countable(send, ranges) && AtRound(send, ranges, i, sliced, valBegin) && i < |ranges|
    requires from == Pos(send.keys, ranges, i) && to == Pos(send.keys, ranges, i + 1)
    ensures ok ==> AtRound(send, ranges, i + 1, sliced', valEnd)
    ensures !ok ==> !Sliceable(send, ranges)
  {
    ok, sliced', valEnd := true, sliced + [None], valBegin;
    PosStep(send.keys, ranges, i);
    PosMonotone(send.keys, ranges, i + 1, |ranges|);
    if to == from {
      SlicedOneMore(send, ranges, sliced, None);
      return;
    }
    MulLe(to, |send.keys|, PerKey(send));
    SumUpTo(send, Pos(send.keys, ranges, 0), from, to);
    var kv;
    kv, valEnd := SliceOne(send, from, to, PerKey(send), valBegin);
    if kv.None? {
      ok := false;
      return;
    }
    if Sliceable(send, ranges) {
      StretchIsSlice(send, ranges, i, valBegin, valEnd, kv.value);
    }
    SlicedOneMore(send, ranges, sliced, kv);
    sliced' := sliced + [kv];
  }

  method SliceAll<V>(send: KVPairs<V>, ranges: seq<Range>, pos: seq<nat>) returns (r: Option<seq<Option<KVPairs<V>>>>)
    requires Countable(send, ranges)
    requires |pos| == |ranges| + 1 && forall i :: 0 <= i <= |ranges| ==> pos[i] == Pos(send.keys, ranges, i)
    ensures r.Some? <==> Sliceable(send, ranges)
    ensures r.Some? ==> |r.value| == |ranges| && SlicedUpTo(send, ranges, r.value)
  {
    var sliced: seq<Option<KVPairs<V>>> := [];
    var valBegin: nat := 0;
    assert send.lens != [] ==> send.lens[pos[0]..pos[0]] == [];
    PosMonotone(send.keys, ranges, 0, |ranges|);
    for i := 0 to |ranges|
      invariant AtRound(send, ranges, i, sliced, valBegin)
    {
      var ok;
      ok, sliced, valBegin := SliceRound(send, ranges, i, pos[i], pos[i + 1], sliced, valBegin);
      if !ok {
        return None;
      }
    }
    r := Some(sliced);
  }

  method DefaultSlicer<V>(send: KVPairs<V>, ranges: seq<Range>) returns (r: Option<seq<Option<KVPairs<V>>>>)
    requires Increasing(send.keys) && Forward(ranges)
    ensures r.Some? <==> Contiguous(ranges) && Sliceable(send, ranges)
    ensures r.Some? ==> |r.value| == |ranges|
    ensures r.Some? ==> forall i :: 0 <= i < |ranges| ==> r.value[i] == SliceAt(send, ranges, i)
  {
    var found := Positions(send.keys, ranges);
    if found.None? {
      return None;
    }
    var pos := found.value;
    if pos[|ranges|] != |send.keys| {
      return None;
    }
    if send.keys == [] {
      return Some(seq(|ranges|, i => None));
    }
    if send.lens == [] {
      if |send.keys| * PerKey(send) != |send.vals| {
        return None;
      }
    } else if |send.lens| != |send.keys| {
      return None;
    }
    r := SliceAll(send, ranges, pos);
  }

  // ---- What slicing means ----

  // Server i is sent exactly the keys of its range, and nothing at all when it has none.
  lemma SliceHoldsRange<V>(send: KVPairs<V>, ranges: seq<Range>, i: nat, key: nat)
    requires Increasing(send.keys) && Contiguous(ranges) && Sliceable(send, ranges) && i < |ranges|
    ensures (SliceAt(send, ranges, i).Some? && key in SliceAt(send, ranges, i).value.keys)
            <==> key in send.keys && ranges[i].begin <= key < ranges[i].end
    ensures SliceAt(send, ranges, i).Some? ==> SliceAt(send, ranges, i).value.keys != []
  {
    PosStep(send.keys, ranges, i);
    InStretch(send.keys, ranges[i].begin, ranges[i].end, key);
  }

  lemma InStretch(keys: seq<nat>, x: nat, y: nat, key: nat)
    requires Increasing(keys) && Cut(keys, x) <= Cut(keys, y)
    ensures key in keys[Cut(keys, x)..Cut(keys, y)] <==> key in keys && x <= key < y
  {
    var a, b := Cut(keys, x), Cut(keys, y);
    if key in keys && x <= key < y {
      var j :| 0 <= j < |keys| && keys[j] == key;
      CutSide(keys, x, j);
      CutSide(keys, y, j);
      assert keys[a..b][j - a] == key;
    }
    forall j | a <= j < b
      ensures x <= keys[j] < y
    {
      CutSide(keys, x, j);
      CutSide(keys, y, j);
    }
  }

  lemma CutSide(keys: seq<nat>, x: nat, j: nat)
    requires Increasing(keys) && j < |keys|
    ensures keys[j] < x <==> j < Cut(keys, x)
  {
    var c := Cut(keys, x);
    assert c < j ==> keys[c] < keys[j];
  }

  // The first CHECK passes exactly when some server owns the last key: keys past the
  // last range are refused, keys before the first range are not.
  lemma LastKeyDecides(keys: seq<nat>, ranges: seq<Range>)
    requires Increasing(keys) && keys != []
    ensures Pos(keys, ranges, |ranges|) == |keys|
            <==> |ranges| > 0 && keys[|keys| - 1] < ranges[|ranges| - 1].end
  {
    if |ranges| > 0 {
      CutSide(keys, ranges[|ranges| - 1].end, |keys| - 1);
    }
  }

  function Append<V>(a: KVPairs<V>, b: KVPairs<V>): KVPairs<V> {
    KVPairs(a.keys + b.keys, a.vals + b.vals, a.lens + b.lens)
  }

  // Everything the first i servers are sent, in server order.
  ghost function Joined<V>(send: KVPairs<V>, ranges: seq<Range>, i: nat): KVPairs<V>
    requires Increasing(send.keys) && Contiguous(ranges) && Sliceable(send, ranges) && i <= |ranges|
  {
    if i == 0 then KVPairs([], [], [])
    else
      var before := Joined(send, ranges, i - 1);
      match SliceAt(send, ranges, i - 1)
      case None => before
      case Some(kv) => Append(before, kv)
  }

  lemma Glue<T>(s: seq<T>, a: nat, b: nat, c: nat)
    requires a <= b <= c <= |s|
    ensures s[a..b] + s[b..c] == s[a..c]
  {
  }

  lemma {:induction false} JoinedKeysAre<V>(send: KVPairs<V>, ranges: seq<Range>, i: nat)
    requires Increasing(send.keys) && Contiguous(ranges) && Sliceable(send, ranges) && i <= |ranges|
    requires send.keys != []
    ensures Pos(send.keys, ranges, 0) <= Pos(send.keys, ranges, i)
    ensures Joined(send, ranges, i).keys == send.keys[Pos(send.keys, ranges, 0)..Pos(send.keys, ranges, i)]
    ensures Joined(send, ranges, i).lens
            == if send.lens == [] then [] else send.lens[Pos(send.keys, ranges, 0)..Pos(send.keys, ranges, i)]
  {
    if i > 0 {
      var a, b, c := Pos(send.keys, ranges, 0), Pos(send.keys, ranges, i - 1), Pos(send.keys, ranges, i);
      JoinedKeysAre(send, ranges, i - 1);
      PosStep(send.keys, ranges, i - 1);
      Glue(send.keys, a, b, c);
      if send.lens != [] {
        Glue(send.lens, a, b, c);
      }
    }
  }

  // The values one more server adds.
  lemma JoinedValsStep<V>(send: KVPairs<V>, ranges: seq<Range>, i: nat)
    requires Increasing(send.keys) && Contiguous(ranges) && Sliceable(send, ranges) && i < |ranges|
    requires send.keys != []
    requires Pos(send.keys, ranges, 0) <= Pos(send.keys, ranges, i) <= Pos(send.keys, ranges, i + 1)
    ensures var start := Pos(send.keys, ranges, 0);
            var from := ValueAt(send, start, Pos(send.keys, ranges, i));
            var to := ValueAt(send, start, Pos(send.keys, ranges, i + 1));
            && from <= to <= |send.vals|
            && Joined(send, ranges, i + 1).vals == Joined(send, ranges, i).vals + send.vals[from..to]
  {
    ValueAtBounds(send, ranges, Pos(send.keys, ranges, i), Pos(send.keys, ranges, i + 1));
  }

  lemma {:induction false} JoinedValsAre<V>(send: KVPairs<V>, ranges: seq<Range>, i: nat)
    requires Increasing(send.keys) && Contiguous(ranges) && Sliceable(send, ranges) && i <= |ranges|
    requires send.keys != []
    ensures Pos(send.keys, ranges, 0) <= Pos(send.keys, ranges, i)
    ensures JoinedVals(send, ranges, i)
  {
    var start := Pos(send.keys, ranges, 0);
    PosMonotone(send.keys, ranges, 0, i);
    ValueAtBounds(send, ranges, start, Pos(send.keys, ranges, i));
    if i > 0 {
      JoinedValsAre(send, ranges, i - 1);
      PosStep(send.keys, ranges, i - 1);
      var p, q := Pos(send.keys, ranges, i - 1), Pos(send.keys, ranges, i);
      JoinedValsStep(send, ranges, i - 1);
      Glue(send.vals, ValueAt(send, start, start), ValueAt(send, start, p), ValueAt(send, start, q));
    }
  }

  ghost predicate JoinedVals<V>(send: KVPairs<V>, ranges: seq<Range>, i: nat)
    requires Increasing(send.keys) && Contiguous(ranges) && Sliceable(send, ranges) && i <= |ranges|
    requires send.keys != [] && Pos(send.keys, ranges, 0) <= Pos(send.keys, ranges, i)
  {
    var start := Pos(send.keys, ranges, 0);
    var from, to := ValueAt(send, start, start), ValueAt(send, start, Pos(send.keys, ranges, i));
    from <= to <= |send.vals| && Joined(send, ranges, i).vals == send.vals[from..to]
  }

  // The keys that reach a server are all of them exactly when the first is not below the
  // first range; the ranges of the servers start at 0, so they never drop one.
  lemma KeysKeptIff<V>(send: KVPairs<V>, ranges: seq<Range>)
    requires Increasing(send.keys) && Contiguous(ranges) && Sliceable(send, ranges) && send.keys != []
    ensures |ranges| > 0
    ensures Joined(send, ranges, |ranges|).keys == send.keys <==> ranges[0].begin <= send.keys[0]
  {
    LastKeyDecides(send.keys, ranges);
    JoinedKeysAre(send, ranges, |ranges|);
    CutSide(send.keys, ranges[0].begin, 0);
    assert send.keys[0..] == send.keys;
  }

  // Slicing loses nothing, duplicates nothing and keeps the order, for ranges that
  // start at key 0, exactly when the lens account for all the values; the values
  // past their sum are sent to no server.
  lemma SlicesJoinBack<V>(send: KVPairs<V>, ranges: seq<Range>)
    requires Increasing(send.keys) && Contiguous(ranges) && Sliceable(send, ranges)
    requires |ranges| > 0 && ranges[0].begin == 0 && send.keys != []
    ensures Joined(send, ranges, |ranges|).keys == send.keys
    ensures Joined(send, ranges, |ranges|).lens == send.lens
    ensures Joined(send, ranges, |ranges|) == send <==> send.lens == [] || Sum(send.lens) == |send.vals|
  {
    WholeKeys(send, ranges);
    WholeVals(send, ranges);
    FrontIsWholeIff(send.vals, if send.lens == [] then |send.vals| else Sum(send.lens));
  }

  lemma FrontIsWholeIff<T>(s: seq<T>, n: nat)
    requires n <= |s|
    ensures s[..n] == s <==> n == |s|
  {
  }

  lemma WholeKeys<V>(send: KVPairs<V>, ranges: seq<Range>)
    requires Increasing(send.keys) && Contiguous(ranges) && Sliceable(send, ranges)
    requires |ranges| > 0 && ranges[0].begin == 0 && send.keys != []
    ensures Joined(send, ranges, |ranges|).keys == send.keys
    ensures Joined(send, ranges, |ranges|).lens == send.lens
  {
    CutIs(send.keys, 0, 0);
    JoinedKeysAre(send, ranges, |ranges|);
    assert send.keys[0..|send.keys|] == send.keys;
    assert send.lens != [] ==> send.lens[0..|send.keys|] == send.lens;
  }

  lemma WholeVals<V>(send: KVPairs<V>, ranges: seq<Range>)
    requires Increasing(send.keys) && Contiguous(ranges) && Sliceable(send, ranges)
    requires |ranges| > 0 && ranges[0].begin == 0 && send.keys != []
    ensures var total := if send.lens == [] then |send.vals| else Sum(send.lens);
            total <= |send.vals| && Joined(send, ranges, |ranges|).vals == send.vals[..total]
  {
    CutIs(send.keys, 0, 0);
    JoinedValsAre(send, ranges, |ranges|);
    assert send.lens != [] ==> send.lens[0..|send.keys|] == send.lens && send.lens[0..0] == [];
  }

  // ---- The values of a key ----

  // Where key number i's values begin in a request: without lens every key has an equal
  // share, with lens they stand behind those of the keys before it.
  ghost function ValsFrom<V>(kv: KVPairs<V>, i: nat): nat
    requires i <= |kv.keys| && kv.keys != [] && (kv.lens == [] || |kv.lens| == |kv.keys|)
  {
    if kv.lens == [] then i * (|kv.vals| / |kv.keys|) else Sum(kv.lens[..i])
  }

  ghost predicate HasVals<V>(kv: KVPairs<V>, i: nat) {
    i < |kv.keys| && (kv.lens == [] || |kv.lens| == |kv.keys|) && ValsFrom(kv, i + 1) <= |kv.vals|
  }

  ghost function KeyVals<V>(kv: KVPairs<V>, i: nat): seq<V>
    requires HasVals(kv, i)
  {
    ValsGrow(kv, i);
    kv.vals[ValsFrom(kv, i)..ValsFrom(kv, i + 1)]
  }

  lemma ValsGrow<V>(kv: KVPairs<V>, i: nat)
    requires i < |kv.keys| && (kv.lens == [] || |kv.lens| == |kv.keys|)
    ensures ValsFrom(kv, i) <= ValsFrom(kv, i + 1)
  {
    if kv.lens == [] {
      MulLe(i, i + 1, |kv.vals| / |kv.keys|);
    } else {
      SumGrows(kv.lens, i);
    }
  }

  lemma SumGrows(lens: seq<nat>, p: nat)
    requires p < |lens|
    ensures Sum(lens[..p + 1]) == Sum(lens[..p]) + lens[p]
  {
    assert lens[..p + 1][..p] == lens[..p];
  }

  lemma DividesIff(a: nat, b: nat)
    requires 0 < b
    ensures b * (a / b) == a <==> a % b == 0
  {
    assert a == b * (a / b) + a % b;
  }

  /**
   * For ranges that start at 0 and meet, a request is sliced exactly when the last
   * server's range reaches past its last key and its values can be told apart: in equal
   * shares, or by lens that do not ask for more than there are.
   */
  lemma SliceableIff<V>(send: KVPairs<V>, ranges: seq<Range>)
    requires Increasing(send.keys) && Contiguous(ranges) && |ranges| > 0 && ranges[0].begin == 0
    ensures Sliceable(send, ranges) <==>
            send.keys == []
            || (&& send.keys[|send.keys| - 1] < ranges[|ranges| - 1].end
                && if send.lens == [] then |send.vals| % |send.keys| == 0
                   else |send.lens| == |send.keys| && Sum(send.lens) <= |send.vals|)
  {
    CutIs(send.keys, 0, 0);
    if send.keys != [] {
      LastKeyDecides(send.keys, ranges);
      DividesIff(|send.vals|, |send.keys|);
      assert |send.lens| == |send.keys| ==> send.lens[0..|send.keys|] == send.lens;
    }
  }

  lemma ShareOfSlice(a: nat, b: nat, share: nat)
    requires a < b
    ensures a * share <= b * share && (b * share - a * share) / (b - a) == share
  {
    MulLe(a, b, share);
    assert b * share - a * share == share * (b - a);
    QuotientOfMultiple(share, b - a);
  }

  // A part of a request, whose keys start at a and whose values start at x, has the
  // request's values for its p-th key if they begin and end at the same distance from x.
  lemma PartKeepsVals<V>(send: KVPairs<V>, kv: KVPairs<V>, a: nat, x: nat, y: nat, p: nat)
    requires x <= y <= |send.vals| && kv.vals == send.vals[x..y]
    requires p < |kv.keys| && a + p < |send.keys|
    requires (kv.lens == [] || |kv.lens| == |kv.keys|) && (send.lens == [] || |send.lens| == |send.keys|)
    requires ValsFrom(send, a + p) == x + ValsFrom(kv, p)
    requires ValsFrom(send, a + p + 1) == x + ValsFrom(kv, p + 1) <= y
    ensures HasVals(send, a + p) && HasVals(kv, p) && KeyVals(kv, p) == KeyVals(send, a + p)
  {
    ValsGrow(kv, p);
    SubSlice(send.vals, x, y, ValsFrom(kv, p), ValsFrom(kv, p + 1));
  }

  // An equal share cut out of the middle.
  lemma EvenVals<V>(send: KVPairs<V>, kv: KVPairs<V>, a: nat, b: nat, share: nat, p: nat)
    requires a < b <= |send.keys| && p < b - a && send.lens == [] && share == |send.vals| / |send.keys|
    requires a * share <= b * share <= |send.vals|
    requires kv == KVPairs(send.keys[a..b], send.vals[a * share..b * share], [])
    ensures HasVals(send, a + p) && HasVals(kv, p) && KeyVals(kv, p) == KeyVals(send, a + p)
  {
    ShareOfSlice(a, b, share);
    SharesInside(a, b, share, p);
    PartKeepsVals(send, kv, a, a * share, b * share, p);
  }

  lemma SharesInside(a: nat, b: nat, share: nat, p: nat)
    requires a < b && p < b - a
    ensures (a + p) * share == a * share + p * share
    ensures (a + p + 1) * share == a * share + (p + 1) * share <= b * share
  {
    MulLe(a + p + 1, b, share);
  }

  // Values told apart by lens, cut out of the middle.
  lemma LensVals<V>(send: KVPairs<V>, kv: KVPairs<V>, a: nat, b: nat, p: nat)
    requires a < b <= |send.keys| && p < b - a && send.lens != [] && |send.lens| == |send.keys|
    requires Sum(send.lens[..a]) <= Sum(send.lens[..b]) <= |send.vals|
    requires kv == KVPairs(send.keys[a..b], send.vals[Sum(send.lens[..a])..Sum(send.lens[..b])], send.lens[a..b])
    ensures HasVals(send, a + p) && HasVals(kv, p) && KeyVals(kv, p) == KeyVals(send, a + p)
    ensures kv.lens[p] == send.lens[a + p]
  {
    LensPrefix(send.lens, a, b, p);
    LensPrefix(send.lens, a, b, p + 1);
    PartKeepsVals(send, kv, a, Sum(send.lens[..a]), Sum(send.lens[..b]), p);
  }

  lemma LensPrefix(lens: seq<nat>, a: nat, b: nat, p: nat)
    requires a <= b <= |lens| && p <= b - a
    ensures Sum(lens[..a + p]) == Sum(lens[..a]) + Sum(lens[a..b][..p])
    ensures Sum(lens[..a + p]) <= Sum(lens[..b])
  {
    SumSplit(lens, 0, a, a + p);
    SumSplit(lens, 0, a + p, b);
    assert lens[a..b][..p] == lens[a..a + p];
  }

  /**
   * Every key's values go with it: reading a slice as the request it is, its p-th key
   * has the very values, and the very lens, that the same key has in the whole request.
   */
  lemma SliceKeepsValues<V>(send: KVPairs<V>, ranges: seq<Range>, i: nat, p: nat) returns (at: nat)
    requires Increasing(send.keys) && Contiguous(ranges) && Sliceable(send, ranges)
    requires i < |ranges| && ranges[0].begin == 0
    requires SliceAt(send, ranges, i).Some? && p < |SliceAt(send, ranges, i).value.keys|
    ensures var kv := SliceAt(send, ranges, i).value;
            && at < |send.keys| && kv.keys[p] == send.keys[at]
            && HasVals(send, at) && HasVals(kv, p) && KeyVals(kv, p) == KeyVals(send, at)
            && (if send.lens == [] then kv.lens == [] else |kv.lens| == |kv.keys| && kv.lens[p] == send.lens[at])
  {
    var a, b := SliceIsCut(send, ranges, i);
    at := a + p;
    if send.lens == [] {
      EvenVals(send, SliceAt(send, ranges, i).value, a, b, PerKey(send), p);
    } else {
      LensVals(send, SliceAt(send, ranges, i).value, a, b, p);
    }
  }

  // A slice by the places it is cut at.
  lemma SliceIsCut<V>(send: KVPairs<V>, ranges: seq<Range>, i: nat) returns (a: nat, b: nat)
    requires Increasing(send.keys) && Contiguous(ranges) && Sliceable(send, ranges)
    requires i < |ranges| && ranges[0].begin == 0 && SliceAt(send, ranges, i).Some?
    ensures a < b <= |send.keys|
    ensures send.lens == [] ==>
              && a * PerKey(send) <= b * PerKey(send) <= |send.vals|
              && SliceAt(send, ranges, i).value
                 == KVPairs(send.keys[a..b], send.vals[a * PerKey(send)..b * PerKey(send)], [])
    ensures send.lens != [] ==>
              && |send.lens| == |send.keys| && Sum(send.lens[..a]) <= Sum(send.lens[..b]) <= |send.vals|
              && SliceAt(send, ranges, i).value
                 == KVPairs(send.keys[a..b], send.vals[Sum(send.lens[..a])..Sum(send.lens[..b])], send.lens[a..b])
  {
    CutIs(send.keys, 0, 0);
    a, b := Pos(send.keys, ranges, i), Pos(send.keys, ranges, i + 1);
    PosMonotone(send.keys, ranges, 0, i);
    PosStep(send.keys, ranges, i);
    ValueAtBounds(send, ranges, a, b);
    assert send.lens != [] ==> send.lens[0..a] == send.lens[..a] && send.lens[0..b] == send.lens[..b];
  }

  // Two keys with a value each and no lens go to one server whole.
  lemma PlainPushIsSent()
    ensures var send := KVPairs([1, 2], [10, 20], []);
            && Increasing(send.keys) && Contiguous(ServerRanges(1)) && Sliceable(send, ServerRanges(1))
            && SliceAt(send, ServerRanges(1), 0) == Some(send)
  {
    var send := KVPairs([1, 2], [10, 20], []);
    ServerRangesContiguous(1);
    SliceableIff(send, ServerRanges(1));
    CutIs(send.keys, 0, 0);
    CutIs(send.keys, ServerRanges(1)[0].end, 2);
    assert PerKey(send) == 1;
    assert send.keys[0..2] == send.keys && send.vals[0..2] == send.vals;
  }

  // One key with two values of which its lens names one: the second goes nowhere.
  lemma SpareValueIsDropped()
    ensures var send := KVPairs([1], [10, 20], [1]);
            && Increasing(send.keys) && Contiguous(ServerRanges(1)) && Sliceable(send, ServerRanges(1))
            && Joined(send, ServerRanges(1), 1) != send
  {
    var send := KVPairs([1], [10, 20], [1]);
    ServerRangesContiguous(1);
    SumGrows([1], 0);
    assert [1][..1] == [1];
    SliceableIff(send, ServerRanges(1));
    SlicesJoinBack(send, ServerRanges(1));
  }
}
