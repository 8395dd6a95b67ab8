/**
 * Serving one retransmit request: the cursor visits exactly the sequence
 * numbers that were missing when the request was made, each once and in
 * increasing order, and only the last of them is followed by FlowFinish.
 */
module RetransmitService {
  import opened Common
  import opened Blocks
  import opened Sender
  import Packets

  function Range(lo: nat, hi: nat): seq<nat>
    requires lo <= hi
  {
    seq(hi - lo, i requires 0 <= i => lo + i)
  }

  // The numbers in the blocks, block by block.
  ghost function Flatten(blocks: seq<Block>, hi: int): seq<nat>
    requires Separated(blocks, hi)
  {
    if blocks == [] then []
    else Flatten(Front(blocks), Back(blocks).first - 1) + Range(Back(blocks).first, Back(blocks).last)
  }

  // The free sequence numbers of a table, in increasing order.
  ghost function Missing(slots: seq<bool>, hi: nat): (r: seq<nat>)
    requires hi <= |slots|
    ensures forall p :: p in r <==> 0 <= p < hi && !slots[p]
  {
    if hi == 0 then []
    else if slots[hi - 1] then Missing(slots, hi - 1)
    else Missing(slots, hi - 1) + [hi - 1]
  }

  ghost predicate IncreasingBelow(r: seq<nat>, hi: nat) {
    && (forall i, j :: 0 <= i < j < |r| ==> r[i] < r[j])
    && (forall i :: 0 <= i < |r| ==> r[i] < hi)
  }

  lemma IncreasingAppend(r: seq<nat>, x: nat)
    requires IncreasingBelow(r, x)
    ensures IncreasingBelow(r + [x], x + 1)
  {
  }

  lemma {:induction false} MissingIncreasing(slots: seq<bool>, hi: nat)
    requires hi <= |slots|
    ensures IncreasingBelow(Missing(slots, hi), hi)
  {
    if hi > 0 {
      MissingIncreasing(slots, hi - 1);
      IncreasingAppend(Missing(slots, hi - 1), hi - 1);
    }
  }

  lemma {:induction false} MissingSkipsTaken(slots: seq<bool>, lo: nat, hi: nat)
    requires lo <= hi <= |slots|
    requires forall p :: lo <= p < hi ==> slots[p]
    ensures Missing(slots, hi) == Missing(slots, lo)
    decreases hi
  {
    if lo < hi {
      MissingSkipsTaken(slots, lo, hi - 1);
    }
  }

  lemma RangeAppend(lo: nat, hi: nat)
    requires lo <= hi
    ensures Range(lo, hi + 1) == Range(lo, hi) + [hi]
  {
  }

  lemma {:induction false} MissingTakesRun(slots: seq<bool>, lo: nat, hi: nat)
    requires lo <= hi <= |slots|
    requires forall p :: lo <= p < hi ==> !slots[p]
    ensures Missing(slots, hi) == Missing(slots, lo) + Range(lo, hi)
    decreases hi
  {
    if lo < hi {
      MissingTakesRun(slots, lo, hi - 1);
      RangeAppend(lo, hi - 1);
      Regroup(Missing(slots, lo), Range(lo, hi - 1), [hi - 1]);
    }
  }

  // The maximal free runs list exactly the missing numbers.
  lemma {:induction false} RunsListMissing(blocks: seq<Block>, slots: seq<bool>, hi: nat)
    requires hi <= |slots| && RunsUpTo(blocks, slots, hi)
    ensures Flatten(blocks, hi) == Missing(slots, hi)
    decreases |blocks|
  {
    if blocks == [] {
      MissingSkipsTaken(slots, 0, hi);
    } else {
      var b := Back(blocks);
      LastRun(blocks, slots, hi);
      MissingSkipsTaken(slots, b.last, hi);
      MissingTakesRun(slots, b.first, b.last);
      RunsPrefix(blocks, slots, hi);
      RunsListMissing(Front(blocks), slots, b.first);
      FlattenBound(Front(blocks), b.first - 1, b.first);
    }
  }

  lemma FlattenBound(blocks: seq<Block>, hi: int, hi': int)
    requires Separated(blocks, hi) && Separated(blocks, hi')
    ensures Flatten(blocks, hi) == Flatten(blocks, hi')
  {}

  // ---- The cursor ----

  // What is still to be sent for a request.
  ghost function ToServe(p: Pending, hi: int): seq<nat>
    requires Separated(p.blocks, hi) && CursorInside(p)
    decreases |p.blocks| - p.blockNum, p.blocks[p.blockNum].last - p.seqNum
  {
    if AtEnd(p) then [p.seqNum]
    else AdvanceInside(p, hi); [p.seqNum] + ToServe(Advance(p), hi)
  }

  lemma {:induction false} NonEmptyBlocks(blocks: seq<Block>, hi: int, i: nat)
    requires Separated(blocks, hi) && i < |blocks|
    ensures blocks[i].first < blocks[i].last <= hi
    decreases |blocks|
  {
    if i < |blocks| - 1 {
      NonEmptyBlocks(Front(blocks), Back(blocks).first - 1, i);
    }
  }

  lemma AdvanceInside(p: Pending, hi: int)
    requires Separated(p.blocks, hi) && CursorInside(p)
    ensures Advance(p).blocks == p.blocks
    ensures AtEnd(p) <==> Advance(p).blockNum == |p.blocks|
    ensures !AtEnd(p) ==> CursorInside(Advance(p))
  {
    if p.blockNum + 1 < |p.blocks| {
      NonEmptyBlocks(p.blocks, hi, p.blockNum + 1);
    }
  }

  ghost function FlattenFrom(blocks: seq<Block>, i: nat): seq<nat>
    requires forall k :: 0 <= k < |blocks| ==> blocks[k].first <= blocks[k].last
    decreases |blocks| - i
  {
    if i >= |blocks| then [] else Range(blocks[i].first, blocks[i].last) + FlattenFrom(blocks, i + 1)
  }

  lemma {:induction false} ServeFromCursor(p: Pending, hi: int)
    requires Separated(p.blocks, hi) && CursorInside(p)
    requires forall k :: 0 <= k < |p.blocks| ==> p.blocks[k].first <= p.blocks[k].last
    ensures ToServe(p, hi) ==
            Range(p.seqNum, p.blocks[p.blockNum].last) + FlattenFrom(p.blocks, p.blockNum + 1)
    decreases |p.blocks| - p.blockNum, p.blocks[p.blockNum].last - p.seqNum
  {
    var last := p.blocks[p.blockNum].last;
    assert Range(p.seqNum, last) == [p.seqNum] + Range(p.seqNum + 1, last);
    if !AtEnd(p) {
      AdvanceInside(p, hi);
      ServeFromCursor(Advance(p), hi);
    }
  }

  lemma {:induction false} FlattenFromAppend(front: seq<Block>, b: Block, i: nat)
    requires i <= |front| && b.first <= b.last
    requires forall k :: 0 <= k < |front| ==> front[k].first <= front[k].last
    ensures FlattenFrom(front + [b], i) == FlattenFrom(front, i) + Range(b.first, b.last)
    decreases |front| - i
  {
    if i < |front| {
      FlattenFromAppend(front, b, i + 1);
    } else {
      assert FlattenFrom(front + [b], i + 1) == [];
    }
  }

  lemma {:induction false} FlattenBothWays(blocks: seq<Block>, hi: int)
    requires Separated(blocks, hi)
    ensures forall k :: 0 <= k < |blocks| ==> blocks[k].first <= blocks[k].last
    ensures FlattenFrom(blocks, 0) == Flatten(blocks, hi)
    decreases |blocks|
  {
    forall k: nat | k < |blocks|
      ensures blocks[k].first <= blocks[k].last
    {
      NonEmptyBlocks(blocks, hi, k);
    }
    if blocks != [] {
      FlattenBothWays(Front(blocks), Back(blocks).first - 1);
      FlattenFromAppend(Front(blocks), Back(blocks), 0);
      assert blocks == Front(blocks) + [Back(blocks)];
    }
  }

  // A fresh request is served by sending exactly what was missing.
  lemma ServesWhatIsMissing(slots: seq<bool>)
    requires RunsOf(slots, |slots|) != []
    ensures var blocks := RunsOf(slots, |slots|);
            var p := Pending(blocks, 0, blocks[0].first);
            CursorInside(p) && ToServe(p, |slots|) == Missing(slots, |slots|)
  {
    var blocks := RunsOf(slots, |slots|);
    var p := Pending(blocks, 0, blocks[0].first);
    NonEmptyBlocks(blocks, |slots|, 0);
    FlattenBothWays(blocks, |slots|);
    ServeFromCursor(p, |slots|);
    RunsListMissing(blocks, slots, |slots|);
  }

  // FlowFinish goes out with the packet that leaves nothing to serve.
  lemma FinishOnlyAtEnd(p: Pending, hi: int)
    requires Separated(p.blocks, hi) && CursorInside(p)
    ensures AtEnd(p) <==> |ToServe(p, hi)| == 1
  {
    if !AtEnd(p) {
      AdvanceInside(p, hi);
      assert ToServe(Advance(p), hi) != [];
    }
  }

  // The packets of one message with these sequence numbers.
  ghost function PacketsAt(m: nat, size: nat, payload: nat, seqs: seq<nat>): seq<Packets.Packet>
    requires 0 < payload
  {
    seq(|seqs|, i requires 0 <= i < |seqs| => Packets.PacketAt(m, size, payload, seqs[i]))
  }

  lemma PacketsAtCons(m: nat, size: nat, payload: nat, x: nat, seqs: seq<nat>)
    requires 0 < payload
    ensures PacketsAt(m, size, payload, [x] + seqs)
            == [Packets.PacketAt(m, size, payload, x)] + PacketsAt(m, size, payload, seqs)
  {
  }

  // What is still to be sent is the packet under the cursor and what the next cursor has.
  lemma ToServeStep(p: Pending, hi: int, m: nat, size: nat, payload: nat)
    requires 0 < payload && Separated(p.blocks, hi) && CursorInside(p)
    ensures AtEnd(p) ==>
              PacketsAt(m, size, payload, ToServe(p, hi)) == [Packets.PacketAt(m, size, payload, p.seqNum)]
    ensures !AtEnd(p) ==> CursorInside(Advance(p)) && Advance(p).blocks == p.blocks
    ensures !AtEnd(p) ==>
              PacketsAt(m, size, payload, ToServe(p, hi))
              == [Packets.PacketAt(m, size, payload, p.seqNum)]
                 + PacketsAt(m, size, payload, ToServe(Advance(p), hi))
  {
    if AtEnd(p) {
      PacketsAtCons(m, size, payload, p.seqNum, []);
      assert [p.seqNum] + [] == [p.seqNum];
      assert PacketsAt(m, size, payload, []) == [];
    } else {
      AdvanceInside(p, hi);
      PacketsAtCons(m, size, payload, p.seqNum, ToServe(Advance(p), hi));
    }
  }
}
