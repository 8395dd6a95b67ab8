/**
 * The common language of both block managers: a block [first, last) of
 * sequence numbers, and what it means for a list of blocks to be the maximal
 * free runs of a slot table.  A slot table is a sequence of flags, true where
 * the sequence number has been taken.
 */
module Blocks {

  datatype Block = Block(first: nat, last: nat)

  // Sequence numbers and sizes are uint32_t in the program.
  const U32: nat := 0x1_0000_0000

  // sizeof(Block): two uint32_t.
  const BLOCK_BYTES: nat := 8

  function Back<T>(s: seq<T>): T
    requires s != []
  {
    s[|s| - 1]
  }

  function Front<T>(s: seq<T>): seq<T>
    requires s != []
  {
    s[..|s| - 1]
  }

  ghost predicate Covered(blocks: seq<Block>, p: int) {
    blocks != [] && (Back(blocks).first <= p < Back(blocks).last || Covered(Front(blocks), p))
  }

  lemma {:induction false} CoveredByIndex(blocks: seq<Block>, p: int)
    ensures Covered(blocks, p) <==>
            exists i :: 0 <= i < |blocks| && blocks[i].first <= p < blocks[i].last
  {
    if blocks != [] {
      CoveredByIndex(Front(blocks), p);
      assert forall i :: 0 <= i < |blocks| - 1 ==> Front(blocks)[i] == blocks[i];
    }
  }

  // Non-empty blocks in increasing order with at least one slot between
  // neighbours, all ending at or before hi.
  ghost predicate Separated(blocks: seq<Block>, hi: int) {
    blocks == []
    || (Back(blocks).first < Back(blocks).last <= hi
        && Separated(Front(blocks), Back(blocks).first - 1))
  }

  lemma {:induction false} SeparatedBounds(blocks: seq<Block>, hi: int, p: int)
    requires Separated(blocks, hi) && Covered(blocks, p)
    ensures 0 <= p < hi
  {
    if !(Back(blocks).first <= p < Back(blocks).last) {
      SeparatedBounds(Front(blocks), Back(blocks).first - 1, p);
    }
  }

  lemma NotCoveredBeyond(blocks: seq<Block>, hi: int, p: int)
    requires Separated(blocks, hi) && hi <= p
    ensures !Covered(blocks, p)
  {
    if Covered(blocks, p) {
      SeparatedBounds(blocks, hi, p);
    }
  }

  lemma CoveredAppend(front: seq<Block>, b: Block, p: int)
    ensures Covered(front + [b], p) <==> Covered(front, p) || b.first <= p < b.last
  {
    assert Front(front + [b]) == front;
  }

  lemma SeparatedAppend(front: seq<Block>, b: Block, hi: int)
    requires Separated(front, b.first - 1) && b.first < b.last <= hi
    ensures Separated(front + [b], hi)
  {
    assert Front(front + [b]) == front;
  }

  lemma SeparatedWiden(blocks: seq<Block>, hi: int, hi': int)
    requires Separated(blocks, hi) && hi <= hi'
    ensures Separated(blocks, hi')
  {}

  // The blocks are exactly the maximal free runs of slots[..hi], in order.
  ghost predicate RunsUpTo(blocks: seq<Block>, slots: seq<bool>, hi: int)
    requires 0 <= hi <= |slots|
  {
    && Separated(blocks, hi)
    && (forall p :: 0 <= p < hi ==> (slots[p] <==> !Covered(blocks, p)))
  }

  ghost predicate IsFreeRuns(blocks: seq<Block>, slots: seq<bool>) {
    RunsUpTo(blocks, slots, |slots|)
  }

  lemma RunsPrefix(a: seq<Block>, slots: seq<bool>, hi: nat)
    requires hi <= |slots| && a != []
    requires RunsUpTo(a, slots, hi)
    ensures RunsUpTo(Front(a), slots, Back(a).first)
  {
    SeparatedWiden(Front(a), Back(a).first - 1, Back(a).first);
  }

  // Nothing free at or after the end of the last run, and the slot before its
  // start is taken.
  lemma LastRun(a: seq<Block>, slots: seq<bool>, hi: nat)
    requires hi <= |slots| && a != []
    requires RunsUpTo(a, slots, hi)
    ensures forall p :: Back(a).last <= p < hi ==> slots[p]
    ensures forall p :: Back(a).first <= p < Back(a).last ==> !slots[p]
    ensures 0 < Back(a).first ==> slots[Back(a).first - 1]
  {
    var f := Back(a).first;
    forall p | f - 1 <= p < hi
      ensures Covered(a, p) <==> f <= p < Back(a).last
    {
      NotCoveredBeyond(Front(a), f - 1, p);
    }
  }

  // A slot table has only one list of maximal free runs.
  lemma {:induction false} RunsUnique(a: seq<Block>, b: seq<Block>, slots: seq<bool>, hi: nat)
    requires hi <= |slots|
    requires RunsUpTo(a, slots, hi) && RunsUpTo(b, slots, hi)
    ensures a == b
    decreases |a| + |b|
  {
    if a != [] {
      LastRun(a, slots, hi);
      assert !slots[Back(a).last - 1];
    }
    if b != [] {
      LastRun(b, slots, hi);
      assert !slots[Back(b).last - 1];
    }
    if a != [] && b != [] {
      assert Back(a).last == Back(b).last;
      assert Back(a).first == Back(b).first;
      RunsPrefix(a, slots, hi);
      RunsPrefix(b, slots, hi);
      RunsUnique(Front(a), Front(b), slots, Back(a).first);
      assert a == Front(a) + [Back(a)] && b == Front(b) + [Back(b)];
    }
  }

  lemma RunsDetermined(a: seq<Block>, b: seq<Block>, slots: seq<bool>)
    requires IsFreeRuns(a, slots) && IsFreeRuns(b, slots)
    ensures a == b
  {
    RunsUnique(a, b, slots, |slots|);
  }

  // Append the free slot p to a list of runs that ends at or before p.
  function Grow(blocks: seq<Block>, p: nat): seq<Block> {
    if blocks != [] && Back(blocks).last == p
    then Front(blocks) + [Block(Back(blocks).first, p + 1)]
    else blocks + [Block(p, p + 1)]
  }

  lemma GrowFront(blocks: seq<Block>, p: nat)
    ensures Back(Grow(blocks, p)).last == p + 1
    ensures Front(Grow(blocks, p)) ==
            if blocks != [] && Back(blocks).last == p then Front(blocks) else blocks
  {}

  lemma RunsGrow(blocks: seq<Block>, slots: seq<bool>, p: nat)
    requires p < |slots| && !slots[p]
    requires RunsUpTo(blocks, slots, p)
    ensures RunsUpTo(Grow(blocks, p), slots, p + 1)
  {
    GrowFront(blocks, p);
    if blocks != [] && Back(blocks).last != p {
      assert Separated(blocks, p - 1);
    }
  }

  lemma RunsSkip(blocks: seq<Block>, slots: seq<bool>, p: nat)
    requires p < |slots| && slots[p]
    requires RunsUpTo(blocks, slots, p)
    ensures RunsUpTo(blocks, slots, p + 1)
  {
    SeparatedWiden(blocks, p, p + 1);
    NotCoveredBeyond(blocks, p, p);
  }

  // Every slot table has its list of runs: read the table left to right.
  function RunsOf(slots: seq<bool>, hi: nat): (blocks: seq<Block>)
    requires hi <= |slots|
    ensures RunsUpTo(blocks, slots, hi) && |blocks| <= hi
  {
    if hi == 0 then []
    else
      var before := RunsOf(slots, hi - 1);
      if slots[hi - 1] then
        RunsSkip(before, slots, hi - 1);
        before
      else
        RunsGrow(before, slots, hi - 1);
        Grow(before, hi - 1)
  }

  // Reading further never shortens the list.
  lemma {:induction false} RunsOfMonotone(slots: seq<bool>, hi: nat, hi': nat)
    requires hi <= hi' <= |slots|
    ensures |RunsOf(slots, hi)| <= |RunsOf(slots, hi')|
    decreases hi'
  {
    if hi < hi' {
      RunsOfMonotone(slots, hi, hi' - 1);
    }
  }

  // ---- Counting ----

  function TakenCount(slots: seq<bool>): (n: nat)
    ensures n <= |slots|
  {
    if slots == [] then 0
    else TakenCount(Front(slots)) + (if Back(slots) then 1 else 0)
  }

  lemma {:induction false} TakenCountUpdate(slots: seq<bool>, p: nat)
    requires p < |slots| && !slots[p]
    ensures TakenCount(slots[p := true]) == TakenCount(slots) + 1
  {
    if p == |slots| - 1 {
      assert Front(slots[p := true]) == Front(slots);
    } else {
      assert Front(slots[p := true]) == Front(slots)[p := true];
      TakenCountUpdate(Front(slots), p);
    }
  }

  lemma {:induction false} TakenCountAppend(slots: seq<bool>, extra: nat)
    ensures TakenCount(slots + seq(extra, _ => false)) == TakenCount(slots)
  {
    var all := slots + seq(extra, _ => false);
    if extra == 0 {
      assert all == slots;
    } else {
      assert Front(all) == slots + seq(extra - 1, _ => false);
      TakenCountAppend(slots, extra - 1);
    }
  }

  // The count reaches the length exactly when no free slot is left.
  lemma {:induction false} TakenCountFull(slots: seq<bool>)
    ensures TakenCount(slots) == |slots| <==> forall p :: 0 <= p < |slots| ==> slots[p]
  {
    if slots != [] {
      TakenCountFull(Front(slots));
      assert forall p :: 0 <= p < |slots| - 1 ==> Front(slots)[p] == slots[p];
    }
  }

  // Growing the table: the new slots are free.
  function GrowTo(slots: seq<bool>, size: nat): (r: seq<bool>)
    requires |slots| <= size
    ensures |r| == size
    ensures forall p :: 0 <= p < size ==> r[p] == (p < |slots| && slots[p])
  {
    slots + seq(size - |slots|, _ => false)
  }
}
