/**
 * Lamport's single-producer single-consumer ring.  The two index words wrap
 * around; producer and consumer interleave load by load and store by store,
 * under sequential consistency.
 */
module Spsc {
  import opened Common

  // ---- Capacity ----

  predicate IsPow2(x: int) {
    1 <= x && (x == 1 || (x % 2 == 0 && IsPow2(x / 2)))
  }

  // x & -x: the largest power of two that divides x, and 0 for 0.
  function Lowbit(x: int): (b: int)
    ensures x != 0 ==> 0 < b
    ensures 0 < x ==> b <= x
    ensures x < 0 ==> x + b <= 0
    ensures x == 0 ==> b == 0
    decreases if x < 0 then -x else x
  {
    if x == 0 then 0
    else if x % 2 == 1 then 1
    else 2 * Lowbit(x / 2)
  }

  lemma {:induction false} LowbitOfPow2(x: int)
    requires 0 < x
    ensures x == Lowbit(x) <==> IsPow2(x)
  {
    if x % 2 == 0 {
      LowbitOfPow2(x / 2);
    }
  }

  // Adding the lowest bit never jumps over a power of two.
  lemma {:induction false} LowbitStaysBelow(x: int, p: int)
    requires 0 < x < p && IsPow2(p)
    ensures x + Lowbit(x) <= p
  {
    if x % 2 == 0 {
      LowbitStaysBelow(x / 2, p / 2);
    }
  }

  lemma {:induction false} Pow2Near(n: int) returns (p: int)
    requires 0 < n
    ensures IsPow2(p) && n <= p < 2 * n
  {
    if n == 1 {
      p := 1;
    } else {
      var q := Pow2Near((n + 1) / 2);
      p := 2 * q;
      assert p / 2 == q;
    }
  }

  // The capacity is the least power of two that is not below the count, and 0
  // for a count that is not positive.
  method RoundUpPower2(count: int) returns (x: int)
    ensures count <= 0 ==> x == 0
    ensures 0 < count ==> IsPow2(x) && count <= x < 2 * count
    ensures 0 < count ==> forall p :: IsPow2(p) && count <= p ==> x <= p
  {
    x := count;
    ghost var top := 0;
    if 0 < count {
      top := Pow2Near(count);
    }
    while x != Lowbit(x)
      invariant count <= 0 ==> x <= 0
      invariant 0 < count ==> count <= x <= top
      invariant 0 < count ==> forall p :: IsPow2(p) && count <= p ==> x <= p
      decreases top - x
    {
      if 0 < count {
        LowbitOfPow2(x);
        forall p | IsPow2(p) && count <= p
          ensures x + Lowbit(x) <= p
        {
          LowbitStaysBelow(x, p);
        }
      }
      x := x + Lowbit(x);
    }
    if 0 < count {
      LowbitOfPow2(x);
    }
  }

  // ---- Index arithmetic ----

  // The index words are size_t.
  const WRAP: nat := 0x1_0000_0000_0000_0000

  // Unsigned subtraction in a word of w values.
  function Minus(a: nat, b: nat, w: nat): int {
    if a >= b then a - b else a + w - b
  }

  lemma ModUnique(x: int, d: int, q: int, r: int)
    requires 0 < d && x == q * d + r && 0 <= r < d
    ensures x % d == r
  {
    var q' := x / d;
    assert x == q' * d + x % d;
    assert (q - q') * d == x % d - r;
    Scale(q - q', d);
  }

  lemma Scale(a: int, d: int)
    requires 0 < d
    ensures a >= 1 ==> a * d >= d
    ensures a <= -1 ==> a * d <= -d
  {}

  // The true distance survives the wrap-around.
  lemma MinusOfCounts(t: nat, h: nat, w: nat)
    requires h <= t < h + w
    ensures Minus(t % w, h % w, w) == t - h
  {
    var q, r := h / w, h % w;
    assert h == q * w + r;
    var x := r + (t - h);
    if x < w {
      ModUnique(t, w, q, x);
    } else {
      assert (q + 1) * w == q * w + w;
      ModUnique(t, w, q + 1, x - w);
    }
  }

  // Masking the wrapped index picks the same slot as the true count.
  lemma SlotOfCount(t: nat, cap: nat, k: nat)
    requires 0 < cap && 0 < k
    ensures (t % (k * cap)) % cap == t % cap
  {
    var w := k * cap;
    assert 0 < w;
    var q, r := t / w, t % w;
    assert t == q * w + r;
    var q', r' := r / cap, r % cap;
    assert r == q' * cap + r';
    assert q * (k * cap) == (q * k) * cap;
    assert t == (q * k + q') * cap + r';
    ModUnique(t, cap, q * k + q', r');
  }

  // Counts less than a capacity apart use different slots.
  lemma SlotsDiffer(i: nat, j: nat, cap: nat)
    requires 0 < cap && i < j < i + cap
    ensures i % cap != j % cap
  {
    MinusOfCounts(j, i, cap);
  }

  lemma NextCount(t: nat, w: nat)
    requires 0 < w
    ensures (t % w + 1) % w == (t + 1) % w
  {
    var q, r := t / w, t % w;
    assert t == q * w + r;
    if r + 1 < w {
      ModUnique(t + 1, w, q, r + 1);
    } else {
      assert (q + 1) * w == q * w + w;
      ModUnique(t + 1, w, q + 1, 0);
      ModUnique(w, w, 1, 0);
    }
  }

  // ---- The interleaved ring ----

  // Where the producer is in Push (spin) or TryPush.  `seen` is the number of
  // pops behind the loaded head word.
  datatype Producer<T> =
    | Resting
    | Wants(v: T, spin: bool)
    | LoadedHead(v: T, spin: bool, h: nat, seen: nat)
    | LoadedBoth(v: T, spin: bool, h: nat, seen: nat, t: nat)
    | Wrote(v: T, spin: bool, t: nat)

  // Where the consumer is in TryPop.  `seen` is the number of pushes behind the
  // loaded tail word.
  datatype Consumer<T> =
    | Waiting
    | GotHead(h: nat)
    | GotBoth(h: nat, t: nat, seen: nat)
    | Read(v: T, h: nat)

  // The words wrap at w; pushed and popped are the histories of completed calls.
  datatype Ring<T> = Ring(
    cap: nat, w: nat, head: nat, tail: nat, slots: seq<T>,
    producer: Producer<T>, consumer: Consumer<T>,
    pushed: seq<T>, popped: seq<T>)

  ghost predicate Sized<T>(r: Ring<T>) {
    0 < r.cap && |r.slots| == r.cap && r.cap < r.w && exists k: nat :: 0 < k && r.w == k * r.cap
  }

  datatype Action<T> =
    | CallPush(v: T, spin: bool)
    | LoadHead | LoadTail | TestAndWrite | StoreTail
    | CallPop | PopLoadTail | TestAndRead(junk: T) | StoreHead

  predicate Able<T>(r: Ring<T>, a: Action<T>) {
    match a
    case CallPush(_, _) => r.producer.Resting?
    case LoadHead => r.producer.Wants?
    case LoadTail => r.producer.LoadedHead?
    case TestAndWrite => r.producer.LoadedBoth?
    case StoreTail => r.producer.Wrote?
    case CallPop => r.consumer.Waiting?
    case PopLoadTail => r.consumer.GotHead?
    case TestAndRead(_) => r.consumer.GotBoth?
    case StoreHead => r.consumer.Read?
  }

  predicate HasSlots<T>(r: Ring<T>) {
    0 < r.cap == |r.slots| && 0 < r.w
  }

  // One atomic step.  A full ring sends Push back to its loads and fails
  // TryPush; reading moves the value out and leaves junk in the slot.
  function Act<T>(r: Ring<T>, a: Action<T>): (r': Ring<T>)
    requires Able(r, a) && HasSlots(r)
    ensures HasSlots(r')
  {
    match a
    case CallPush(v, spin) => r.(producer := Wants(v, spin))
    case LoadHead =>
      r.(producer := LoadedHead(r.producer.v, r.producer.spin, r.head, |r.popped|))
    case LoadTail =>
      var p := r.producer;
      r.(producer := LoadedBoth(p.v, p.spin, p.h, p.seen, r.tail))
    case TestAndWrite =>
      var p := r.producer;
      if Minus(p.t, p.h, r.w) >= r.cap then
        r.(producer := if p.spin then Wants(p.v, true) else Resting)
      else r.(slots := r.slots[p.t % r.cap := p.v], producer := Wrote(p.v, p.spin, p.t))
    case StoreTail =>
      r.(tail := (r.producer.t + 1) % r.w, pushed := r.pushed + [r.producer.v], producer := Resting)
    case CallPop => r.(consumer := GotHead(r.head))
    case PopLoadTail => r.(consumer := GotBoth(r.consumer.h, r.tail, |r.pushed|))
    case TestAndRead(junk) =>
      var c := r.consumer;
      if c.t == c.h then r.(consumer := Waiting)
      else r.(consumer := Read(r.slots[c.h % r.cap], c.h), slots := r.slots[c.h % r.cap := junk])
    case StoreHead =>
      r.(head := (r.consumer.h + 1) % r.w, popped := r.popped + [r.consumer.v], consumer := Waiting)
  }

  // ---- The invariant ----

  ghost predicate ProducerOk<T>(r: Ring<T>) {
    var n := |r.pushed|;
    match r.producer
    case Resting => true
    case Wants(_, _) => true
    case LoadedHead(_, _, h, seen) => 0 < r.w && h == seen % r.w && seen <= |r.popped| && n <= seen + r.cap
    case LoadedBoth(_, _, h, seen, t) =>
      0 < r.w && h == seen % r.w && seen <= |r.popped| && n <= seen + r.cap && t == r.tail
    case Wrote(v, _, t) =>
      0 < r.cap == |r.slots| && t == r.tail && n < |r.popped| + r.cap && r.slots[n % r.cap] == v
  }

  ghost predicate ConsumerOk<T>(r: Ring<T>) {
    var n := |r.popped|;
    match r.consumer
    case Waiting => true
    case GotHead(h) => h == r.head
    case GotBoth(h, t, seen) =>
      0 < r.w && h == r.head && t == seen % r.w && n <= seen <= |r.pushed|
    case Read(v, h) => h == r.head && n < |r.pushed| && v == r.pushed[n]
  }

  // Slots between the counts hold what was pushed, in order; the one being read
  // has already been emptied.
  ghost predicate SlotsHold<T>(r: Ring<T>)
    requires 0 < r.cap == |r.slots|
  {
    forall i :: |r.popped| <= i < |r.pushed| && !(r.consumer.Read? && i == |r.popped|) ==>
      r.slots[i % r.cap] == r.pushed[i]
  }

  ghost predicate Inv<T>(r: Ring<T>) {
    && Sized(r)
    && r.popped <= r.pushed && |r.pushed| <= |r.popped| + r.cap
    && r.head == |r.popped| % r.w && r.tail == |r.pushed| % r.w
    && SlotsHold(r) && ProducerOk(r) && ConsumerOk(r)
  }

  lemma SlotIndex<T>(r: Ring<T>, n: nat)
    requires Sized(r)
    ensures (n % r.w) % r.cap == n % r.cap
  {
    var k: nat :| 0 < k && r.w == k * r.cap;
    SlotOfCount(n, r.cap, k);
  }

  lemma ProducerLoadsKeep<T>(r: Ring<T>, a: Action<T>)
    requires Inv(r) && Able(r, a) && (a.CallPush? || a.LoadHead? || a.LoadTail?)
    ensures Inv(Act(r, a))
  {}

  lemma ConsumerLoadsKeep<T>(r: Ring<T>, a: Action<T>)
    requires Inv(r) && Able(r, a) && (a.CallPop? || a.PopLoadTail?)
    ensures Inv(Act(r, a))
  {}

  // The slot written is not one that still waits to be read.
  lemma WriteKeeps<T>(r: Ring<T>)
    requires Inv(r) && Able(r, TestAndWrite)
    ensures Inv(Act(r, TestAndWrite))
  {
    var p := r.producer;
    var n := |r.pushed|;
    MinusOfCounts(n, p.seen, r.w);
    if Minus(p.t, p.h, r.w) < r.cap {
      SlotIndex(r, n);
      forall i | |r.popped| <= i < n
        ensures i % r.cap != n % r.cap
      {
        SlotsDiffer(i, n, r.cap);
      }
    }
  }

  lemma StoreTailKeeps<T>(r: Ring<T>)
    requires Inv(r) && Able(r, StoreTail)
    ensures Inv(Act(r, StoreTail))
  {
    NextCount(|r.pushed|, r.w);
  }

  lemma ReadKeeps<T>(r: Ring<T>, junk: T)
    requires Inv(r) && Able(r, TestAndRead(junk))
    ensures Inv(Act(r, TestAndRead(junk)))
  {
    var c := r.consumer;
    var n := |r.popped|;
    MinusOfCounts(c.seen, n, r.w);
    if c.t != c.h {
      SlotIndex(r, n);
      forall i | n < i <= |r.pushed| && i < n + r.cap
        ensures i % r.cap != n % r.cap
      {
        SlotsDiffer(n, i, r.cap);
      }
    }
  }

  lemma StoreHeadKeeps<T>(r: Ring<T>)
    requires Inv(r) && Able(r, StoreHead)
    ensures Inv(Act(r, StoreHead))
  {
    NextCount(|r.popped|, r.w);
  }

  lemma ActKeeps<T>(r: Ring<T>, a: Action<T>)
    requires Inv(r) && Able(r, a)
    ensures Inv(Act(r, a))
  {
    match a
    case CallPush(_, _) => ProducerLoadsKeep(r, a);
    case LoadHead => ProducerLoadsKeep(r, a);
    case LoadTail => ProducerLoadsKeep(r, a);
    case TestAndWrite => WriteKeeps(r);
    case StoreTail => StoreTailKeeps(r);
    case CallPop => ConsumerLoadsKeep(r, a);
    case PopLoadTail => ConsumerLoadsKeep(r, a);
    case TestAndRead(junk) => ReadKeeps(r, junk);
    case StoreHead => StoreHeadKeeps(r);
  }

  // Every run of one producer and one consumer, however they interleave.
  ghost predicate RingRun<T>(actions: seq<Action<T>>, rings: seq<Ring<T>>) {
    && |rings| == |actions| + 1 && Fresh(rings[0])
    && forall i :: 0 <= i < |actions| ==>
         Able(rings[i], actions[i]) && HasSlots(rings[i]) && rings[i + 1] == Act(rings[i], actions[i])
  }

  // A fresh ring.
  ghost predicate Fresh<T>(r: Ring<T>) {
    && Sized(r) && r.head == r.tail == 0 && r.pushed == [] && r.popped == []
    && r.producer.Resting? && r.consumer.Waiting?
  }

  // What waits in the ring, oldest first, as the slots hold it.
  ghost function Waits<T>(r: Ring<T>): seq<T>
    requires Inv(r)
  {
    seq(|r.pushed| - |r.popped|, i requires 0 <= i < |r.pushed| - |r.popped| =>
      if r.consumer.Read? && i == 0 then r.consumer.v else r.slots[(|r.popped| + i) % r.cap])
  }

  lemma {:induction false} EveryInterleaving<T>(actions: seq<Action<T>>, rings: seq<Ring<T>>, i: nat)
    requires RingRun(actions, rings) && i < |rings|
    ensures Inv(rings[i])
  {
    if i == 0 {
      FreshInv(rings[0]);
    } else {
      EveryInterleaving(actions, rings, i - 1);
      ActKeeps(rings[i - 1], actions[i - 1]);
    }
  }

  lemma FreshInv<T>(r: Ring<T>)
    requires Fresh(r)
    ensures Inv(r)
  {
    ModUnique(0, r.w, 0, 0);
  }

  // Nothing is lost, repeated or reordered, and the ring never overfills.
  lemma FirstInFirstOut<T>(actions: seq<Action<T>>, rings: seq<Ring<T>>, i: nat)
    requires RingRun(actions, rings) && i < |rings|
    ensures Inv(rings[i])
    ensures rings[i].popped + Waits(rings[i]) == rings[i].pushed
    ensures |Waits(rings[i])| <= rings[i].cap
  {
    EveryInterleaving(actions, rings, i);
    var r := rings[i];
    forall k | 0 <= k < |Waits(r)|
      ensures Waits(r)[k] == r.pushed[|r.popped| + k]
    {
    }
  }

  // TryPush fails only if the ring was full when the head was loaded, and
  // TryPop only if it was empty when the tail was loaded.
  lemma FailuresAreReal<T>(r: Ring<T>)
    requires Inv(r)
    ensures r.producer.LoadedBoth? ==>
              (Act(r, TestAndWrite).producer.Wrote? <==> |r.pushed| < r.producer.seen + r.cap)
    ensures r.consumer.GotBoth? ==> forall junk ::
              (Act(r, TestAndRead(junk)).consumer.Waiting? <==> r.consumer.seen == |r.popped|)
  {
    if r.producer.LoadedBoth? {
      MinusOfCounts(|r.pushed|, r.producer.seen, r.w);
    }
    if r.consumer.GotBoth? {
      MinusOfCounts(r.consumer.seen, |r.popped|, r.w);
    }
  }

  // ---- What becomes of each call ----

  // The values handed to Push (spin) or to TryPush by the first i actions, in order.
  ghost function Calls<T>(actions: seq<Action<T>>, i: nat, spin: bool): seq<T>
    requires i <= |actions|
  {
    if i == 0 then []
    else
      var a := actions[i - 1];
      Calls(actions, i - 1, spin) + if a.CallPush? && a.spin == spin then [a.v] else []
  }

  // Action i stores a value that such a call brought.
  ghost predicate Stores<T>(actions: seq<Action<T>>, rings: seq<Ring<T>>, i: nat, spin: bool)
    requires RingRun(actions, rings) && i < |actions|
  {
    actions[i].StoreTail? && rings[i].producer.spin == spin
  }

  ghost function Stored<T>(actions: seq<Action<T>>, rings: seq<Ring<T>>, i: nat, spin: bool): seq<T>
    requires RingRun(actions, rings) && i <= |actions|
  {
    if i == 0 then []
    else Stored(actions, rings, i - 1, spin)
         + if Stores(actions, rings, i - 1, spin) then [rings[i - 1].producer.v] else []
  }

  // Action i ends a call without storing its value.
  ghost predicate GivesUp<T>(actions: seq<Action<T>>, rings: seq<Ring<T>>, i: nat)
    requires RingRun(actions, rings) && i < |actions|
  {
    !rings[i].producer.Resting? && rings[i + 1].producer.Resting? && !actions[i].StoreTail?
  }

  ghost function Refused<T>(actions: seq<Action<T>>, rings: seq<Ring<T>>, i: nat): seq<T>
    requires RingRun(actions, rings) && i <= |actions|
  {
    if i == 0 then []
    else Refused(actions, rings, i - 1)
         + if GivesUp(actions, rings, i - 1) then [rings[i - 1].producer.v] else []
  }

  // The value of the call that is under way.
  function InProgress<T>(p: Producer<T>, spin: bool): seq<T> {
    if p.Resting? || p.spin != spin then [] else [p.v]
  }

  // What one action does to the call under way.
  lemma CallStep<T>(r: Ring<T>, a: Action<T>, spin: bool)
    requires Able(r, a) && HasSlots(r)
    ensures var p, p' := r.producer, Act(r, a).producer;
            && (a.CallPush? ==> p.Resting? && InProgress(p', spin) == if a.spin == spin then [a.v] else [])
            && (a.StoreTail? ==> p'.Resting? && Act(r, a).pushed == r.pushed + [p.v])
            && (!a.StoreTail? ==> Act(r, a).pushed == r.pushed)
            && (!a.CallPush? && !p'.Resting? ==> InProgress(p', spin) == InProgress(p, spin))
            && (!a.StoreTail? && !p.Resting? && p'.Resting? ==> a.TestAndWrite? && !p.spin)
            && (p.Resting? && !a.CallPush? ==> p'.Resting?)
  {
  }

  /**
   * In every run each value handed to Push is stored, in order, but for the one whose
   * call is under way: a Push ends only by storing its value.
   */
  lemma {:induction false} PushAlwaysStores<T>(actions: seq<Action<T>>, rings: seq<Ring<T>>, i: nat)
    requires RingRun(actions, rings) && i <= |actions|
    ensures Stored(actions, rings, i, true) + InProgress(rings[i].producer, true) == Calls(actions, i, true)
  {
    if i > 0 {
      PushAlwaysStores(actions, rings, i - 1);
      CallStep(rings[i - 1], actions[i - 1], true);
    }
  }

  // A call that ends without storing is a TryPush that met a full ring.
  lemma OnlyTryPushGivesUp<T>(actions: seq<Action<T>>, rings: seq<Ring<T>>, i: nat)
    requires RingRun(actions, rings) && i < |actions| && GivesUp(actions, rings, i)
    ensures rings[i].producer.LoadedBoth? && !rings[i].producer.spin
    ensures |rings[i].pushed| == rings[i].producer.seen + rings[i].cap
  {
    CallStep(rings[i], actions[i], true);
    EveryInterleaving(actions, rings, i);
    FailuresAreReal(rings[i]);
  }

  // Values handed to TryPush are stored or refused, each once.
  lemma {:induction false} TryPushStoresOrRefuses<T>(actions: seq<Action<T>>, rings: seq<Ring<T>>, i: nat)
    requires RingRun(actions, rings) && i <= |actions|
    ensures multiset(Stored(actions, rings, i, false)) + multiset(Refused(actions, rings, i))
            + multiset(InProgress(rings[i].producer, false)) == multiset(Calls(actions, i, false))
  {
    if i > 0 {
      TryPushStoresOrRefuses(actions, rings, i - 1);
      CallStep(rings[i - 1], actions[i - 1], false);
    }
  }

  // How often TryPush has compared the indices in the first i actions.
  ghost function Tests<T>(actions: seq<Action<T>>, rings: seq<Ring<T>>, i: nat): nat
    requires RingRun(actions, rings) && i <= |actions|
  {
    if i == 0 then 0
    else
      Tests(actions, rings, i - 1) + B2N(actions[i - 1].TestAndWrite? && !rings[i - 1].producer.spin)
  }

  // A TryPush is under way and has not compared them yet.
  predicate Untested<T>(p: Producer<T>) {
    (p.Wants? || p.LoadedHead? || p.LoadedBoth?) && !p.spin
  }

  // TryPush never waits: each call compares the indices once.
  lemma {:induction false} TryPushTestsOnce<T>(actions: seq<Action<T>>, rings: seq<Ring<T>>, i: nat)
    requires RingRun(actions, rings) && i <= |actions|
    ensures Tests(actions, rings, i) + B2N(Untested(rings[i].producer)) == |Calls(actions, i, false)|
  {
    if i > 0 {
      TryPushTestsOnce(actions, rings, i - 1);
    }
  }

  // The pushed values are those stored by either kind of call, and nothing else.
  lemma {:induction false} PushedIsStored<T>(actions: seq<Action<T>>, rings: seq<Ring<T>>, i: nat)
    requires RingRun(actions, rings) && i <= |actions|
    ensures multiset(rings[i].pushed)
            == multiset(Stored(actions, rings, i, true)) + multiset(Stored(actions, rings, i, false))
  {
    if i > 0 {
      PushedIsStored(actions, rings, i - 1);
      CallStep(rings[i - 1], actions[i - 1], true);
    }
  }

  // ---- The capacity fits the index words ----

  lemma TwiceIsPow2(x: int)
    requires IsPow2(x)
    ensures IsPow2(2 * x)
  {
    assert 2 * x % 2 == 0 && 2 * x / 2 == x;
  }

  lemma TwiceProduct(h: int, b: int)
    ensures (2 * h) * b == 2 * (h * b)
  {
  }

  lemma {:induction false} Pow2Product(a: int, b: int)
    requires IsPow2(a) && IsPow2(b)
    ensures IsPow2(a * b)
  {
    if a == 1 {
      assert a * b == b;
    } else {
      var h := a / 2;
      Pow2Product(h, b);
      TwiceIsPow2(h * b);
      TwiceProduct(h, b);
      assert a == 2 * h;
    }
  }

  lemma WrapIsPow2()
    ensures IsPow2(WRAP)
  {
    assert IsPow2(0x100);
    Pow2Product(0x100, 0x100);
    Pow2Product(0x1_0000, 0x1_0000);
    Pow2Product(0x1_0000_0000, 0x1_0000_0000);
  }

  lemma {:induction false} Pow2Divides(a: int, b: int) returns (k: nat)
    requires IsPow2(a) && IsPow2(b) && a <= b
    ensures 0 < k && b == k * a
  {
    if a == 1 {
      k := b;
    } else {
      k := Pow2Divides(a / 2, b / 2);
      assert b == 2 * (b / 2) && a == 2 * (a / 2);
      assert 2 * (k * (a / 2)) == k * (2 * (a / 2));
    }
  }

  // ---- The queue as one thread sees it ----

  class SpscQueue<T(0)> {
    var capacity: nat
    var head: nat
    var tail: nat
    var slots: array<T>
    ghost var contents: seq<T>
    ghost var pops: nat

    ghost predicate Valid()
      reads this, slots
    {
      && slots.Length == capacity < WRAP && |contents| <= capacity
      && (capacity == 0 || IsPow2(capacity))
      && head == pops % 0x1_0000_0000_0000_0000
      && tail == (pops + |contents|) % 0x1_0000_0000_0000_0000
      && (forall i :: 0 <= i < |contents| ==> slots[(pops + i) % capacity] == contents[i])
    }

    constructor (count: int)
      requires count < 0x8000_0000
      ensures Valid() && contents == [] && fresh(slots)
      ensures count <= 0 ==> capacity == 0
      ensures 0 < count ==> count <= capacity < 2 * count && IsPow2(capacity)
    {
      var c := RoundUpPower2(count);
      capacity := c;
      slots := new T[c];
      head, tail, contents, pops := 0, 0, [], 0;
    }

    method TryPush(v: T) returns (ok: bool)
      requires Valid()
      modifies this, slots
      ensures Valid() && capacity == old(capacity) && slots == old(slots)
      ensures ok <==> |old(contents)| < capacity
      ensures contents == if ok then old(contents) + [v] else old(contents)
    {
      MinusOfCounts(pops + |contents|, pops, WRAP);
      if Minus(tail, head, WRAP) >= capacity {
        return false;
      }
      SlotOf(capacity, pops + |contents|);
      forall j | pops <= j < pops + |contents|
        ensures j % capacity != (pops + |contents|) % capacity
      {
        SlotsDiffer(j, pops + |contents|, capacity);
      }
      NextCount(pops + |contents|, WRAP);
      slots[tail % capacity] := v;
      tail := (tail + 1) % 0x1_0000_0000_0000_0000;
      contents := contents + [v];
      ok := true;
    }

    method TryPop(d: T) returns (ok: bool, v: T)
      requires Valid()
      modifies this
      ensures Valid() && capacity == old(capacity) && slots == old(slots)
      ensures ok <==> old(contents) != []
      ensures ok ==> old(contents) == [v] + contents
      ensures !ok ==> contents == old(contents)
    {
      MinusOfCounts(pops + |contents|, pops, WRAP);
      if tail == head {
        return false, d;
      }
      SlotOf(capacity, pops);
      NextCount(pops, WRAP);
      v := slots[head % capacity];
      head := (head + 1) % 0x1_0000_0000_0000_0000;
      contents := contents[1..];
      pops := pops + 1;
      ok := true;
    }
  }

  lemma SlotOf(capacity: nat, n: nat)
    requires IsPow2(capacity) && capacity < WRAP
    ensures (n % 0x1_0000_0000_0000_0000) % capacity == n % capacity
  {
    WrapIsPow2();
    var k := Pow2Divides(capacity, WRAP);
    SlotOfCount(n, capacity, k);
  }
}
