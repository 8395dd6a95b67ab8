/**
 * Pulling: the servers answer their slices in any order, and the callback checks
 * the replies, sorts them by first key and copies them out.
 */
module KvPull {
  import opened KvApp

  // ---- The callback ----

  // s.keys.back() + 1 in uint64_t.
  function KeyAfter(key: nat): nat {
    if key == MAX_KEY then 0 else key + 1
  }

  // How many of `keys` lie in [lower, upper).
  function FindRangeSize(keys: seq<nat>, lower: nat, upper: nat): int {
    if upper <= lower then 0 else Cut(keys, upper) - Cut(keys, lower)
  }

  function FirstKey<V>(s: KVPairs<V>): nat
    requires s.keys != []
  {
    s.keys[0]
  }

  predicate AllNonEmpty<V(!new)>(kvs: seq<KVPairs<V>>) {
    forall i :: 0 <= i < |kvs| ==> kvs[i].keys != []
  }

  // The CHECKs on one reply; front() and back() refuse an empty one.
  predicate ReplyFits<V>(keys: seq<nat>, s: KVPairs<V>, wantLens: bool) {
    && s.keys != []
    && FindRangeSize(keys, s.keys[0], KeyAfter(s.keys[|s.keys| - 1])) == |s.keys|
    && (wantLens ==> |s.lens| == |s.keys|)
  }

  ghost function JoinKeys<V>(kvs: seq<KVPairs<V>>): seq<nat> {
    if kvs == [] then [] else JoinKeys(kvs[..|kvs| - 1]) + kvs[|kvs| - 1].keys
  }

  ghost function JoinVals<V>(kvs: seq<KVPairs<V>>): seq<V> {
    if kvs == [] then [] else JoinVals(kvs[..|kvs| - 1]) + kvs[|kvs| - 1].vals
  }

  ghost function JoinLens<V>(kvs: seq<KVPairs<V>>): seq<nat> {
    if kvs == [] then [] else JoinLens(kvs[..|kvs| - 1]) + kvs[|kvs| - 1].lens
  }

  // Replies in the order of their first keys.
  ghost predicate ByFirstKey<V(!new)>(kvs: seq<KVPairs<V>>) {
    && AllNonEmpty(kvs)
    && forall i, j :: 0 <= i < j < |kvs| ==> FirstKey(kvs[i]) <= FirstKey(kvs[j])
  }

  function Insert<V(!new)>(s: KVPairs<V>, kvs: seq<KVPairs<V>>): (r: seq<KVPairs<V>>)
    requires s.keys != [] && ByFirstKey(kvs)
    ensures multiset(r) == multiset(kvs) + multiset{s}
    ensures ByFirstKey(r)
  {
    if kvs == [] then [s]
    else
      var last := kvs[|kvs| - 1];
      assert kvs == kvs[..|kvs| - 1] + [last];
      if FirstKey(last) <= FirstKey(s) then kvs + [s]
      else
        var r := Insert(s, kvs[..|kvs| - 1]);
        InsertOrder(s, kvs[..|kvs| - 1], r, last);
        r + [last]
  }

  lemma InsertOrder<V(!new)>(s: KVPairs<V>, before: seq<KVPairs<V>>, r: seq<KVPairs<V>>, last: KVPairs<V>)
    requires s.keys != [] && last.keys != [] && ByFirstKey(r) && ByFirstKey(before + [last])
    requires multiset(r) == multiset(before) + multiset{s} && FirstKey(s) <= FirstKey(last)
    ensures ByFirstKey(r + [last])
  {
    forall i | 0 <= i < |r|
      ensures FirstKey(r[i]) <= FirstKey(last)
    {
      assert r[i] in multiset(r);
      if r[i] != s {
        assert r[i] in multiset(before);
        var j :| 0 <= j < |before| && before[j] == r[i];
        assert (before + [last])[j] == r[i] && (before + [last])[|before|] == last;
      }
    }
  }

  method SortByFirstKey<V(!new)>(kvs: seq<KVPairs<V>>) returns (r: seq<KVPairs<V>>)
    requires AllNonEmpty(kvs)
    ensures multiset(r) == multiset(kvs) && ByFirstKey(r)
  {
    r := [];
    for i := 0 to |kvs|
      invariant multiset(r) == multiset(kvs[..i]) && ByFirstKey(r)
    {
      assert kvs[..i + 1] == kvs[..i] + [kvs[i]];
      r := Insert(kvs[i], r);
    }
    assert kvs[..|kvs|] == kvs;
  }

  ghost predicate AllFit<V(!new)>(keys: seq<nat>, kvs: seq<KVPairs<V>>, n: nat, wantLens: bool)
    requires n <= |kvs|
  {
    forall i :: 0 <= i < n ==> ReplyFits(keys, kvs[i], wantLens)
  }

  // All the CHECKs of the callback; an output that is not empty must have the right size.
  ghost predicate PullChecks<V(!new)>(keys: seq<nat>, kvs: seq<KVPairs<V>>, wantLens: bool,
                               valsSize: nat, lensSize: nat)
  {
    && AllFit(keys, kvs, |kvs|, wantLens)
    && |JoinKeys(kvs)| == |keys|
    && (valsSize == 0 || valsSize == |JoinVals(kvs)|)
    && (wantLens ==> lensSize == 0 || lensSize == |keys|)
  }

  lemma JoinSizes<V(!new)>(kvs: seq<KVPairs<V>>, i: nat)
    requires i < |kvs|
    ensures |JoinKeys(kvs[..i + 1])| == |JoinKeys(kvs[..i])| + |kvs[i].keys|
    ensures |JoinVals(kvs[..i + 1])| == |JoinVals(kvs[..i])| + |kvs[i].vals|
  {
    assert kvs[..i + 1][..i] == kvs[..i];
  }

  // The checking loop, with the totals it leaves behind.
  method CheckReplies<V(!new)>(keys: seq<nat>, kvs: seq<KVPairs<V>>, wantLens: bool)
    returns (ok: bool, totalKey: nat, totalVal: nat)
    ensures ok <==> AllFit(keys, kvs, |kvs|, wantLens)
    ensures ok ==> totalKey == |JoinKeys(kvs)| && totalVal == |JoinVals(kvs)|
  {
    ok, totalKey, totalVal := true, 0, 0;
    for i := 0 to |kvs|
      invariant AllFit(keys, kvs, i, wantLens)
      invariant totalKey == |JoinKeys(kvs[..i])| && totalVal == |JoinVals(kvs[..i])|
    {
      if !ReplyFits(keys, kvs[i], wantLens) {
        ok := false;
        return;
      }
      JoinSizes(kvs, i);
      totalKey := totalKey + |kvs[i].keys|;
      totalVal := totalVal + |kvs[i].vals|;
    }
    assert kvs[..|kvs|] == kvs;
  }

  // The copying loop.
  method CopyOut<V(!new)>(kvs: seq<KVPairs<V>>, wantLens: bool) returns (vals: seq<V>, lens: seq<nat>)
    ensures vals == JoinVals(kvs) && lens == if wantLens then JoinLens(kvs) else []
  {
    vals, lens := [], [];
    for i := 0 to |kvs|
      invariant vals == JoinVals(kvs[..i]) && lens == if wantLens then JoinLens(kvs[..i]) else []
    {
      assert kvs[..i + 1][..i] == kvs[..i];
      vals := vals + kvs[i].vals;
      if wantLens {
        lens := lens + kvs[i].lens;
      }
    }
    assert kvs[..|kvs|] == kvs;
  }

  // What the copy leaves behind: some arrangement of the replies by first key.
  ghost predicate IsPulled<V(!new)>(kvs: seq<KVPairs<V>>, wantLens: bool, vals: seq<V>, lens: seq<nat>) {
    exists r :: multiset(r) == multiset(kvs) && ByFirstKey(r) && vals == JoinVals(r)
                && lens == if wantLens then JoinLens(r) else []
  }

  method FinishPull<V(!new)>(keys: seq<nat>, kvs: seq<KVPairs<V>>, wantLens: bool, valsSize: nat, lensSize: nat)
    returns (ok: bool, vals: seq<V>, lens: seq<nat>)
    ensures ok <==> PullChecks(keys, kvs, wantLens, valsSize, lensSize)
    ensures ok ==> IsPulled(kvs, wantLens, vals, lens)
  {
    vals, lens := [], [];
    var totalKey, totalVal;
    ok, totalKey, totalVal := CheckReplies(keys, kvs, wantLens);
    if !ok || totalKey != |keys| {
      ok := false;
      return;
    }
    var sorted := SortByFirstKey(kvs);
    if valsSize != 0 && valsSize != totalVal {
      ok := false;
      return;
    }
    if wantLens && lensSize != 0 && lensSize != |keys| {
      ok := false;
      return;
    }
    vals, lens := CopyOut(sorted, wantLens);
  }

  // ---- What a pull returns ----

  // The servers together hold one list of values for each key.
  ghost function Values<V(!new)>(store: nat -> seq<V>, keys: seq<nat>): seq<V> {
    if keys == [] then [] else Values(store, keys[..|keys| - 1]) + store(keys[|keys| - 1])
  }

  ghost function Lengths<V(!new)>(store: nat -> seq<V>, keys: seq<nat>): seq<nat> {
    seq(|keys|, i requires 0 <= i < |keys| => |store(keys[i])|)
  }

  ghost function LensOf<V(!new)>(store: nat -> seq<V>, withLens: bool, keys: seq<nat>): seq<nat> {
    if withLens then Lengths(store, keys) else []
  }

  // A server may or may not send lens along.
  ghost function Reply<V(!new)>(store: nat -> seq<V>, withLens: bool, keys: seq<nat>): KVPairs<V> {
    KVPairs(keys, Values(store, keys), LensOf(store, withLens, keys))
  }

  lemma {:induction false} ValuesConcat<V(!new)>(store: nat -> seq<V>, a: seq<nat>, b: seq<nat>)
    ensures Values(store, a + b) == Values(store, a) + Values(store, b)
  {
    if b == [] {
      assert a + b == a;
    } else {
      assert (a + b)[..|a + b| - 1] == a + b[..|b| - 1];
      ValuesConcat(store, a, b[..|b| - 1]);
    }
  }

  lemma LengthsConcat<V(!new)>(store: nat -> seq<V>, a: seq<nat>, b: seq<nat>)
    ensures Lengths(store, a + b) == Lengths(store, a) + Lengths(store, b)
  {
  }

  // Replies that, put one after another, answer exactly the first p keys.
  ghost predicate Answers<V(!new)>(store: nat -> seq<V>, withLens: bool, keys: seq<nat>, p: nat, kvs: seq<KVPairs<V>>)
    requires p <= |keys|
    decreases |kvs|
  {
    if kvs == [] then p == 0
    else
      var last := kvs[|kvs| - 1];
      var q := p - |last.keys|;
      && 0 <= q < p
      && last == Reply(store, withLens, keys[q..p])
      && Answers(store, withLens, keys, q, kvs[..|kvs| - 1])
  }

  lemma AnswersAppend<V(!new)>(store: nat -> seq<V>, withLens: bool, keys: seq<nat>, q: nat, p: nat,
                        kvs: seq<KVPairs<V>>)
    requires q < p <= |keys| && Answers(store, withLens, keys, q, kvs)
    ensures Answers(store, withLens, keys, p, kvs + [Reply(store, withLens, keys[q..p])])
  {
    var more := kvs + [Reply(store, withLens, keys[q..p])];
    assert more[..|more| - 1] == kvs;
  }

  lemma {:induction false} AnswersJoin<V(!new)>(store: nat -> seq<V>, withLens: bool, keys: seq<nat>, p: nat,
                                                kvs: seq<KVPairs<V>>)
    requires p <= |keys| && Answers(store, withLens, keys, p, kvs)
    ensures JoinKeys(kvs) == keys[..p]
    ensures JoinVals(kvs) == Values(store, keys[..p])
    ensures JoinLens(kvs) == LensOf(store, withLens, keys[..p])
    decreases |kvs|
  {
    if kvs != [] {
      var q := p - |kvs[|kvs| - 1].keys|;
      AnswersJoin(store, withLens, keys, q, kvs[..|kvs| - 1]);
      assert keys[..q] + keys[q..p] == keys[..p];
      ValuesConcat(store, keys[..q], keys[q..p]);
      LengthsConcat(store, keys[..q], keys[q..p]);
    }
  }

  lemma StretchIsRange(keys: seq<nat>, q: nat, p: nat)
    requires Increasing(keys) && q < p <= |keys| && keys[p - 1] < MAX_KEY
    ensures FindRangeSize(keys, keys[q], KeyAfter(keys[p - 1])) == p - q
  {
    CutIs(keys, keys[q], q);
    CutIs(keys, keys[p - 1] + 1, p);
  }

  // Every one of them passes the callback's CHECKs: no other requested key lies
  // between its first and its last, and adding one to its last does not wrap.
  lemma {:induction false} AnswersFit<V(!new)>(store: nat -> seq<V>, withLens: bool, keys: seq<nat>, p: nat,
                                               kvs: seq<KVPairs<V>>, i: nat)
    requires p <= |keys| && Answers(store, withLens, keys, p, kvs) && Increasing(keys) && i < |kvs|
    requires forall j :: 0 <= j < |keys| ==> keys[j] < MAX_KEY
    ensures ReplyFits(keys, kvs[i], withLens)
    decreases |kvs|
  {
    var q := p - |kvs[|kvs| - 1].keys|;
    if i == |kvs| - 1 {
      StretchIsRange(keys, q, p);
    } else {
      AnswersFit(store, withLens, keys, q, kvs[..|kvs| - 1], i);
    }
  }

  ghost predicate StrictlyByFirstKey<V(!new)>(kvs: seq<KVPairs<V>>) {
    && AllNonEmpty(kvs)
    && forall i, j :: 0 <= i < j < |kvs| ==> FirstKey(kvs[i]) < FirstKey(kvs[j])
  }

  lemma {:induction false} AnswersOrdered<V(!new)>(store: nat -> seq<V>, withLens: bool, keys: seq<nat>, p: nat,
                                                   kvs: seq<KVPairs<V>>)
    requires p <= |keys| && Answers(store, withLens, keys, p, kvs) && Increasing(keys)
    ensures StrictlyByFirstKey(kvs)
    ensures forall i :: 0 <= i < |kvs| ==> p < |keys| ==> FirstKey(kvs[i]) < keys[p]
    decreases |kvs|
  {
    if kvs != [] {
      var q := p - |kvs[|kvs| - 1].keys|;
      AnswersOrdered(store, withLens, keys, q, kvs[..|kvs| - 1]);
      assert FirstKey(kvs[|kvs| - 1]) == keys[q];
    }
  }

  lemma WithoutLast<V(!new)>(a: seq<KVPairs<V>>)
    requires a != []
    ensures multiset(a[..|a| - 1]) == multiset(a) - multiset{a[|a| - 1]}
  {
    assert a == a[..|a| - 1] + [a[|a| - 1]];
  }

  lemma SortedOnceFront<V(!new)>(a: seq<KVPairs<V>>, b: seq<KVPairs<V>>)
    requires |a| == |b| > 0
    ensures a[..|a| - 1] == b[..|b| - 1] && a[|a| - 1] == b[|b| - 1] ==> a == b
  {
    assert a == a[..|a| - 1] + [a[|a| - 1]] && b == b[..|b| - 1] + [b[|b| - 1]];
  }

  // Replies with different first keys can be sorted in one way only.
  lemma {:induction false} SortedOnce<V(!new)>(a: seq<KVPairs<V>>, b: seq<KVPairs<V>>)
    requires StrictlyByFirstKey(a) && ByFirstKey(b) && multiset(a) == multiset(b)
    ensures a == b
    decreases |a|
  {
    assert |multiset(a)| == |a| && |multiset(b)| == |b|;
    if a != [] {
      var n := |a| - 1;
      SameLast(a, b);
      WithoutLast(a);
      WithoutLast(b);
      assert StrictlyByFirstKey(a[..n]) && ByFirstKey(b[..n]);
      SortedOnceFront(a, b);
      SortedOnce(a[..n], b[..n]);
    }
  }

  lemma SameLast<V(!new)>(a: seq<KVPairs<V>>, b: seq<KVPairs<V>>)
    requires StrictlyByFirstKey(a) && ByFirstKey(b) && multiset(a) == multiset(b)
    requires |a| == |b| > 0
    ensures a[|a| - 1] == b[|b| - 1]
  {
    var n := |a| - 1;
    assert a[n] in multiset(b) && b[n] in multiset(a);
    var i :| 0 <= i <= n && b[i] == a[n];
    var j :| 0 <= j <= n && a[j] == b[n];
    assert i < n ==> FirstKey(b[i]) <= FirstKey(b[n]);
  }

  // ---- Totals do not depend on the order of arrival ----

  lemma {:induction false} SizesConcat<V(!new)>(a: seq<KVPairs<V>>, b: seq<KVPairs<V>>)
    ensures |JoinKeys(a + b)| == |JoinKeys(a)| + |JoinKeys(b)|
    ensures |JoinVals(a + b)| == |JoinVals(a)| + |JoinVals(b)|
  {
    if b == [] {
      assert a + b == a;
    } else {
      assert (a + b)[..|a + b| - 1] == a + b[..|b| - 1];
      SizesConcat(a, b[..|b| - 1]);
    }
  }

  lemma SizesWithout<V(!new)>(b: seq<KVPairs<V>>, i: nat)
    requires i < |b|
    ensures |JoinKeys(b)| == |JoinKeys(b[..i] + b[i + 1..])| + |b[i].keys|
    ensures |JoinVals(b)| == |JoinVals(b[..i] + b[i + 1..])| + |b[i].vals|
    ensures multiset(b[..i] + b[i + 1..]) == multiset(b) - multiset{b[i]}
  {
    assert b == b[..i + 1] + b[i + 1..];
    assert b[..i + 1] == b[..i] + [b[i]];
    JoinSizes(b, i);
    SizesConcat(b[..i + 1], b[i + 1..]);
    SizesConcat(b[..i], b[i + 1..]);
  }

  lemma {:induction false} SizesPermute<V(!new)>(a: seq<KVPairs<V>>, b: seq<KVPairs<V>>)
    requires multiset(a) == multiset(b)
    ensures |JoinKeys(a)| == |JoinKeys(b)| && |JoinVals(a)| == |JoinVals(b)|
    decreases |a|
  {
    if a == [] {
      assert |multiset(b)| == 0;
    } else {
      var n := |a| - 1;
      assert a == a[..n] + [a[n]];
      assert a[n] in multiset(b);
      var i :| 0 <= i < |b| && b[i] == a[n];
      SizesWithout(b, i);
      SizesPermute(a[..n], b[..i] + b[i + 1..]);
    }
  }

  lemma ArrivedChecks<V(!new)>(store: nat -> seq<V>, withLens: bool, keys: seq<nat>, replies: seq<KVPairs<V>>,
                               arrived: seq<KVPairs<V>>, wantLens: bool, valsSize: nat, lensSize: nat)
    requires wantLens ==> withLens
    requires Increasing(keys) && forall j :: 0 <= j < |keys| ==> keys[j] < MAX_KEY
    requires Answers(store, withLens, keys, |keys|, replies) && multiset(arrived) == multiset(replies)
    ensures PullChecks(keys, arrived, wantLens, valsSize, lensSize)
            <==> (valsSize == 0 || valsSize == |Values(store, keys)|)
                 && (wantLens ==> lensSize == 0 || lensSize == |keys|)
  {
    forall i | 0 <= i < |arrived|
      ensures ReplyFits(keys, arrived[i], wantLens)
    {
      assert arrived[i] in multiset(replies);
      var j :| 0 <= j < |replies| && replies[j] == arrived[i];
      AnswersFit(store, withLens, keys, |keys|, replies, j);
    }
    AnswersJoin(store, withLens, keys, |keys|, replies);
    assert keys[..|keys|] == keys;
    SizesPermute(arrived, replies);
  }

  lemma SortedOnly<V(!new)>(replies: seq<KVPairs<V>>, arrived: seq<KVPairs<V>>, wantLens: bool, vals: seq<V>,
                            lens: seq<nat>)
    requires StrictlyByFirstKey(replies) && multiset(arrived) == multiset(replies)
    ensures IsPulled(arrived, wantLens, vals, lens) <==>
            vals == JoinVals(replies) && lens == if wantLens then JoinLens(replies) else []
  {
    assert ByFirstKey(replies);
    forall r | multiset(r) == multiset(arrived) && ByFirstKey(r)
      ensures r == replies
    {
      SortedOnce(replies, r);
    }
  }

  // ---- A whole pull ----

  // A pull sends keys without values.
  ghost function Request<V(!new)>(keys: seq<nat>): KVPairs<V> {
    KVPairs(keys, [], [])
  }

  // The servers' replies to the slices of a pull, in server order.
  ghost function Replies<V(!new)>(store: nat -> seq<V>, withLens: bool, keys: seq<nat>, ranges: seq<Range>,
                                  i: nat): seq<KVPairs<V>>
    requires Increasing(keys) && Contiguous(ranges) && i <= |ranges|
    requires Sliceable(Request<V>(keys), ranges)
  {
    if i == 0 then []
    else
      var before := Replies(store, withLens, keys, ranges, i - 1);
      match SliceAt(Request<V>(keys), ranges, i - 1)
      case None => before
      case Some(kv) => before + [Reply(store, withLens, kv.keys)]
  }

  lemma RepliesStep<V(!new)>(store: nat -> seq<V>, withLens: bool, keys: seq<nat>, ranges: seq<Range>, i: nat)
    requires Increasing(keys) && Contiguous(ranges) && i < |ranges|
    requires Sliceable(Request<V>(keys), ranges)
    ensures Pos(keys, ranges, i) <= Pos(keys, ranges, i + 1)
    ensures Replies(store, withLens, keys, ranges, i + 1) == Replies(store, withLens, keys, ranges, i)
            + if Pos(keys, ranges, i) == Pos(keys, ranges, i + 1) then []
              else [Reply(store, withLens, keys[Pos(keys, ranges, i)..Pos(keys, ranges, i + 1)])]
  {
    PosStep(keys, ranges, i);
  }

  lemma {:induction false} RepliesAnswer<V(!new)>(store: nat -> seq<V>, withLens: bool, keys: seq<nat>,
                                                  ranges: seq<Range>, i: nat)
    requires Increasing(keys) && Contiguous(ranges) && i <= |ranges|
    requires Sliceable(Request<V>(keys), ranges) && Pos(keys, ranges, 0) == 0
    ensures Answers(store, withLens, keys, Pos(keys, ranges, i), Replies(store, withLens, keys, ranges, i))
  {
    if i > 0 {
      RepliesAnswer(store, withLens, keys, ranges, i - 1);
      RepliesStep(store, withLens, keys, ranges, i - 1);
      var p, q := Pos(keys, ranges, i - 1), Pos(keys, ranges, i);
      if p < q {
        AnswersAppend(store, withLens, keys, p, q, Replies(store, withLens, keys, ranges, i - 1));
      }
    }
  }

  // Keys that the n servers own between them: kMaxKey / n * n and above belong to none.
  ghost predicate Owned(keys: seq<nat>, n: nat)
    requires 0 < n
  {
    forall j :: 0 <= j < |keys| ==> keys[j] < MAX_KEY / n * n
  }

  // The slicer takes a pull exactly when the servers own every key.
  lemma PullSliceableIff<V(!new)>(keys: seq<nat>, n: nat)
    requires Increasing(keys) && 0 < n
    ensures Contiguous(ServerRanges(n)) && Pos(keys, ServerRanges(n), 0) == 0
    ensures Sliceable(Request<V>(keys), ServerRanges(n)) <==> Owned(keys, n)
  {
    ServerRangesContiguous(n);
    CutIs(keys, 0, 0);
    if keys != [] {
      LastKeyDecides(keys, ServerRanges(n));
      assert PerKey(Request<V>(keys)) == 0;
      assert Owned(keys, n) ==> keys[|keys| - 1] < MAX_KEY / n * n;
    }
  }

  ghost function AllReplies<V(!new)>(store: nat -> seq<V>, withLens: bool, keys: seq<nat>, n: nat): seq<KVPairs<V>>
    requires Increasing(keys) && 0 < n && Owned(keys, n)
  {
    PullSliceableIff<V>(keys, n);
    Replies(store, withLens, keys, ServerRanges(n), n)
  }

  /**
   * A pull is an identity: for n servers and any increasing list of keys they own,
   * whatever order the replies arrive in, every CHECK on them passes and the worker is
   * left with the values of its keys in the order it asked for them, and with their
   * lengths if it wants those.
   */
  lemma PullReturnsStore<V(!new)>(store: nat -> seq<V>, withLens: bool, keys: seq<nat>, n: nat,
                                  arrived: seq<KVPairs<V>>, wantLens: bool, vals: seq<V>, lens: seq<nat>,
                                  valsSize: nat, lensSize: nat)
    requires wantLens ==> withLens
    requires Increasing(keys) && 0 < n && Owned(keys, n)
    requires multiset(arrived) == multiset(AllReplies(store, withLens, keys, n))
    ensures PullChecks(keys, arrived, wantLens, valsSize, lensSize)
            <==> (valsSize == 0 || valsSize == |Values(store, keys)|)
                 && (wantLens ==> lensSize == 0 || lensSize == |keys|)
    ensures IsPulled(arrived, wantLens, vals, lens) <==>
            vals == Values(store, keys) && lens == LensOf(store, wantLens, keys)
  {
    var replies := AllReplies(store, withLens, keys, n);
    ServerRangesContiguous(n);
    PullSliceableIff<V>(keys, n);
    RepliesAnswer(store, withLens, keys, ServerRanges(n), n);
    assert keys[..|keys|] == keys;
    AnswersJoin(store, withLens, keys, |keys|, replies);
    AnswersOrdered(store, withLens, keys, |keys|, replies);
    ArrivedChecks(store, withLens, keys, replies, arrived, wantLens, valsSize, lensSize);
    SortedOnly(replies, arrived, wantLens, vals, lens);
  }

  // ---- What the checks tell ----

  // The places of the requested keys from lo to hi.
  ghost function KeysWithin(keys: seq<nat>, lo: nat, hi: nat): set<nat> {
    set i: nat | i < |keys| && lo <= keys[i] <= hi
  }

  ghost function Places(a: nat, b: nat): (r: set<nat>)
    requires a <= b
    ensures |r| == b - a && forall i :: i in r <==> a <= i < b
    decreases b
  {
    if a == b then {} else Places(a, b - 1) + {b - 1}
  }

  // FindRange up to the key after `last` counts the requested keys from lower to last,
  // but for the largest key, after which the next wraps to zero.
  lemma FindRangeCounts(keys: seq<nat>, lower: nat, last: nat)
    requires Increasing(keys)
    ensures FindRangeSize(keys, lower, KeyAfter(last)) == if last == MAX_KEY then 0 else |KeysWithin(keys, lower, last)|
  {
    if last != MAX_KEY {
      if last < lower {
        assert KeysWithin(keys, lower, last) == {};
      } else {
        CutAgain(keys, lower, last + 1);
        WithinIsBetween(keys, lower, last);
      }
    }
  }

  lemma WithinIsBetween(keys: seq<nat>, lower: nat, last: nat)
    requires Increasing(keys) && Cut(keys, lower) <= Cut(keys, last + 1)
    ensures KeysWithin(keys, lower, last) == Places(Cut(keys, lower), Cut(keys, last + 1))
  {
    forall i: nat | i < |keys|
      ensures lower <= keys[i] <= last <==> Cut(keys, lower) <= i < Cut(keys, last + 1)
    {
      CutSide(keys, lower, i);
      CutSide(keys, last + 1, i);
    }
  }

  // A reply holds as many keys as were requested in the span it covers.
  ghost predicate FillsItsSpan<V>(keys: seq<nat>, s: KVPairs<V>) {
    && s.keys != [] && s.keys[|s.keys| - 1] != MAX_KEY
    && |s.keys| == |KeysWithin(keys, s.keys[0], s.keys[|s.keys| - 1])|
  }

  /**
   * The callback accepts exactly those replies that each fill the span they cover, with
   * lens if the pull wants them, and together have as many keys as were asked for.
   */
  lemma ChecksMean<V(!new)>(keys: seq<nat>, kvs: seq<KVPairs<V>>, wantLens: bool, valsSize: nat, lensSize: nat)
    requires Increasing(keys)
    ensures PullChecks(keys, kvs, wantLens, valsSize, lensSize) <==>
            && (forall i :: 0 <= i < |kvs| ==>
                  FillsItsSpan(keys, kvs[i]) && (wantLens ==> |kvs[i].lens| == |kvs[i].keys|))
            && |JoinKeys(kvs)| == |keys|
            && (valsSize == 0 || valsSize == |JoinVals(kvs)|)
            && (wantLens ==> lensSize == 0 || lensSize == |keys|)
  {
    forall i | 0 <= i < |kvs|
      ensures ReplyFits(keys, kvs[i], wantLens) <==>
              FillsItsSpan(keys, kvs[i]) && (wantLens ==> |kvs[i].lens| == |kvs[i].keys|)
    {
      if kvs[i].keys != [] {
        FindRangeCounts(keys, kvs[i].keys[0], kvs[i].keys[|kvs[i].keys| - 1]);
      }
    }
  }

  lemma {:induction false} FewerKeys<V(!new)>(a: seq<KVPairs<V>>, b: seq<KVPairs<V>>)
    requires multiset(a) <= multiset(b) && |a| < |b| && AllNonEmpty(b)
    ensures |JoinKeys(a)| < |JoinKeys(b)|
    decreases |a|
  {
    if a == [] {
      assert b[|b| - 1].keys != [];
    } else {
      var n := |a| - 1;
      WithoutLast(a);
      assert a[n] in multiset(a);
      assert a[n] in multiset(b);
      var i :| 0 <= i < |b| && b[i] == a[n];
      SizesWithout(b, i);
      NonEmptyWithout(b, i);
      FewerKeys(a[..n], b[..i] + b[i + 1..]);
    }
  }

  lemma NonEmptyWithout<V(!new)>(b: seq<KVPairs<V>>, i: nat)
    requires AllNonEmpty(b) && i < |b|
    ensures AllNonEmpty(b[..i] + b[i + 1..])
  {
  }

  lemma MultisetSizes<T>(a: seq<T>, b: seq<T>)
    requires multiset(a) < multiset(b)
    ensures |a| < |b|
  {
    assert |multiset(a)| == |a| && |multiset(b)| == |b|;
    assert multiset(b) == multiset(a) + (multiset(b) - multiset(a));
    assert multiset(b) - multiset(a) != multiset{};
  }

  // A pull that has lost a server's reply is never accepted.
  lemma LostReplyIsNoticed<V(!new)>(store: nat -> seq<V>, withLens: bool, keys: seq<nat>, n: nat,
                                    arrived: seq<KVPairs<V>>, wantLens: bool, valsSize: nat, lensSize: nat)
    requires Increasing(keys) && 0 < n && Owned(keys, n)
    requires multiset(arrived) < multiset(AllReplies(store, withLens, keys, n))
    ensures !PullChecks(keys, arrived, wantLens, valsSize, lensSize)
  {
    var replies := AllReplies(store, withLens, keys, n);
    PullSliceableIff<V>(keys, n);
    RepliesAnswer(store, withLens, keys, ServerRanges(n), n);
    assert keys[..|keys|] == keys;
    AnswersJoin(store, withLens, keys, |keys|, replies);
    AnswersOrdered(store, withLens, keys, |keys|, replies);
    MultisetSizes(arrived, replies);
    FewerKeys(arrived, replies);
  }
}
