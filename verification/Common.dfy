/**
 * Small definitions that several components share.
 */
module Common {

  datatype Option<+T> = None | Some(value: T)

  function B2N(b: bool): nat {
    if b then 1 else 0
  }

  function Min(a: nat, b: nat): nat {
    if a <= b then a else b
  }

  ghost predicate NoDup<T>(s: seq<T>) {
    forall i, j :: 0 <= i < j < |s| ==> s[i] != s[j]
  }

  lemma SubsetSize<T>(a: set<T>, b: set<T>)
    requires a <= b
    ensures |a| <= |b|
    ensures |a| == |b| ==> a == b
  {
    assert b == a + (b - a);
  }

  lemma MulLe(a: int, b: int, d: nat)
    requires a <= b
    ensures a * d <= b * d
  {}

  lemma QuotientOfMultiple(k: nat, d: nat)
    requires 0 < d
    ensures (k * d) / d == k
  {
    var q := (k * d) / d;
    assert k * d == q * d + (k * d) % d;
    assert (k - q) * d == (k * d) % d;
    if k - q >= 1 {
      MulLe(1, k - q, d);
    } else if k - q <= -1 {
      MulLe(k - q, -1, d);
    }
  }

  // ---- Sequences ----

  lemma SubSlice<T>(v: seq<T>, lo: nat, hi: nat, x: nat, y: nat)
    requires lo <= hi <= |v| && x <= y <= hi - lo
    ensures v[lo..hi][x..y] == v[lo + x..lo + y]
  {
    var a, b := v[lo..hi][x..y], v[lo + x..lo + y];
    assert |a| == |b|;
    forall k | 0 <= k < |a|
      ensures a[k] == b[k]
    {
      assert a[k] == v[lo..hi][x + k];
      assert b[k] == v[lo + x + k];
    }
  }

  lemma Regroup<T>(a: seq<T>, b: seq<T>, c: seq<T>)
    ensures a + b + c == a + (b + c)
  {
  }

  lemma HeadFirst<T>(a: seq<T>, b: seq<T>)
    requires a != []
    ensures a + b == [a[0]] + (a[1..] + b)
  {
  }
}
