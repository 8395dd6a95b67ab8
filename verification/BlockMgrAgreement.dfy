/**
 * The two managers driven through the same history: both end with the free
 * runs of one slot table, and the bitmap's own length check passes exactly
 * when no Resize happened while the last slot was taken.
 */
module BlockMgrAgreement {
  import opened Common
  import opened Bits
  import opened Blocks
  import opened TreeBlocks
  import opened BitmapBlocks

  datatype Op = Take(seqNum: nat) | Resize(newSize: nat)

  // The calls the managers' own CHECKs allow.
  ghost predicate Legal(slots: seq<bool>, op: Op) {
    match op
    case Take(p) => p < |slots| && !slots[p]
    case Resize(n) => |slots| < n && n + WORD <= U32
  }

  ghost function Apply(slots: seq<bool>, op: Op): seq<bool>
    requires Legal(slots, op)
  {
    match op
    case Take(p) => slots[p := true]
    case Resize(n) => GrowTo(slots, n)
  }

  ghost predicate LegalRun(slots: seq<bool>, ops: seq<Op>)
    decreases |ops|
  {
    ops == [] || (Legal(slots, ops[0]) && LegalRun(Apply(slots, ops[0]), ops[1..]))
  }

  ghost function Replay(slots: seq<bool>, ops: seq<Op>): seq<bool>
    requires LegalRun(slots, ops)
    decreases |ops|
  {
    if ops == [] then slots else Replay(Apply(slots, ops[0]), ops[1..])
  }

  // A Resize of a non-empty table whose last slot is taken.
  ghost predicate LosesSegment(slots: seq<bool>, op: Op) {
    op.Resize? && slots != [] && Back(slots)
  }

  ghost function LostSegments(slots: seq<bool>, ops: seq<Op>): nat
    requires LegalRun(slots, ops)
    decreases |ops|
  {
    if ops == [] then 0
    else B2N(LosesSegment(slots, ops[0])) + LostSegments(Apply(slots, ops[0]), ops[1..])
  }

  method ApplyBoth(tree: TreeBlockMgr, bitmap: BitmapBlockMgr, op: Op)
    requires tree.Valid() && bitmap.Valid() && tree.Slots() == bitmap.Slots()
    requires Legal(tree.Slots(), op)
    modifies tree, bitmap
    ensures tree.Valid() && bitmap.Valid()
    ensures tree.Slots() == bitmap.Slots() == Apply(old(tree.Slots()), op)
    ensures bitmap.deficit == old(bitmap.deficit) + B2N(LosesSegment(old(tree.Slots()), op))
  {
    if op.Take? {
      tree.Take(op.seqNum);
      bitmap.Take(op.seqNum);
    } else {
      tree.Resize(op.newSize);
      bitmap.Resize(op.newSize);
    }
  }

  method OutputBoth(tree: TreeBlockMgr, bitmap: BitmapBlockMgr)
    returns (treeOk: bool, fromTree: seq<Block>, bitmapOk: bool, fromBitmap: seq<Block>)
    requires tree.Valid() && bitmap.Valid() && tree.Slots() == bitmap.Slots() != []
    ensures treeOk && IsFreeRuns(fromTree, tree.Slots())
    ensures bitmapOk <==> bitmap.deficit == 0
    ensures bitmapOk ==> fromBitmap == fromTree
  {
    treeOk, fromTree := tree.SerializeToBuffer(tree.ByteSize());
    bitmapOk, fromBitmap := bitmap.SerializeToBuffer(bitmap.ByteSize());
    if bitmapOk {
      RunsDetermined(fromTree, fromBitmap, tree.Slots());
    }
  }

  method DriveBoth(tree: TreeBlockMgr, bitmap: BitmapBlockMgr, ops: seq<Op>)
    requires tree.Valid() && bitmap.Valid() && tree.Slots() == bitmap.Slots()
    requires LegalRun(tree.Slots(), ops)
    modifies tree, bitmap
    ensures tree.Valid() && bitmap.Valid()
    ensures tree.Slots() == bitmap.Slots() == Replay(old(tree.Slots()), ops)
    ensures bitmap.deficit == old(bitmap.deficit) + LostSegments(old(tree.Slots()), ops)
    decreases |ops|
  {
    if ops != [] {
      ApplyBoth(tree, bitmap, ops[0]);
      DriveBoth(tree, bitmap, ops[1..]);
    }
  }

  // Build both managers, give both the same calls, serialise both.
  method SerializeBoth(size: nat, ops: seq<Op>)
    returns (treeOk: bool, fromTree: seq<Block>, bitmapOk: bool, fromBitmap: seq<Block>)
    requires size + WORD <= U32
    requires LegalRun(seq(size, _ => false), ops)
    requires Replay(seq(size, _ => false), ops) != []
    ensures treeOk && IsFreeRuns(fromTree, Replay(seq(size, _ => false), ops))
    ensures bitmapOk <==> LostSegments(seq(size, _ => false), ops) == 0
    ensures bitmapOk ==> fromBitmap == fromTree
  {
    var tree := new TreeBlockMgr(size);
    var bitmap := new BitmapBlockMgr(size);
    DriveBoth(tree, bitmap, ops);
    treeOk, fromTree, bitmapOk, fromBitmap := OutputBoth(tree, bitmap);
  }

  // One slot, taken, then room for a second: the bitmap is one segment short.
  lemma GrowAfterTakeLosesSegment()
    ensures LegalRun([false], [Take(0), Resize(2)])
    ensures LostSegments([false], [Take(0), Resize(2)]) == 1
  {
    var ops := [Take(0), Resize(2)];
    assert ops[1..] == [Resize(2)] && ops[1..][1..] == [];
    var taken := Apply([false], Take(0));
    assert taken == [true];
    assert LegalRun(Apply(taken, Resize(2)), []);
    assert LegalRun(taken, ops[1..]);
    assert LostSegments(taken, ops[1..]) == 1;
  }
}
