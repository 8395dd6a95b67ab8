/**
 * The interval manager behind every posted receive: an ordered set of free
 * blocks whose ends are edited in place.
 */
module TreeBlocks {
  import opened Blocks

  // std::set::upper_bound in a set ordered by `first`: how many blocks do not
  // start after the key.
  function UpperBound(tree: seq<Block>, key: nat): (k: nat)
    ensures k <= |tree|
    ensures 0 < k ==> tree[k - 1].first <= key
  {
    if tree == [] then 0
    else if Back(tree).first <= key then |tree|
    else UpperBound(Front(tree), key)
  }

  // std::set::emplace: an equivalent key already present wins.
  function Emplace(tree: seq<Block>, b: Block): seq<Block> {
    var k := UpperBound(tree, b.first);
    if 0 < k && tree[k - 1].first == b.first then tree
    else tree[..k] + [b] + tree[k..]
  }

  // The shape every tree has; size 0 starts with one empty block.
  ghost predicate Ordered(tree: seq<Block>, size: nat) {
    if size == 0 then tree == [Block(0, 0)] else Separated(tree, size)
  }

  // The slot table a tree of free blocks stands for.
  ghost function SlotsOf(tree: seq<Block>, size: nat): (slots: seq<bool>)
    ensures |slots| == size
    ensures forall p :: 0 <= p < size ==> slots[p] == !Covered(tree, p)
  {
    seq(size, p => !Covered(tree, p))
  }

  // upper_bound is where the block that could hold the key ends, and the set
  // order that in-place edits must keep makes it exact.
  lemma {:induction false} UpperBoundExact(tree: seq<Block>, hi: int, key: nat)
    requires Separated(tree, hi)
    ensures forall i :: 0 <= i < UpperBound(tree, key) ==> tree[i].first <= key
    ensures forall i :: UpperBound(tree, key) <= i < |tree| ==> key < tree[i].first
  {
    if tree != [] {
      UpperBoundExact(Front(tree), Back(tree).first - 1, key);
      assert forall i :: 0 <= i < |tree| - 1 ==> Front(tree)[i] == tree[i];
      if Back(tree).first <= key {
        UpperBoundExact(Front(tree), Back(tree).first - 1, Back(tree).first);
        FrontStartsEarlier(tree, hi);
      }
    }
  }

  lemma {:induction false} FrontStartsEarlier(tree: seq<Block>, hi: int)
    requires Separated(tree, hi)
    ensures forall i, j :: 0 <= i < j < |tree| ==> tree[i].first < tree[j].first
  {
    if tree != [] {
      var front := Front(tree);
      FrontStartsEarlier(front, Back(tree).first - 1);
      assert forall i :: 0 <= i < |front| ==> front[i] == tree[i];
      if front != [] {
        assert Back(front).first < Back(tree).first;
      }
    }
  }

  // One step back from upper_bound is the only block that can hold the key.
  lemma {:induction false} OnlyCandidate(tree: seq<Block>, hi: int, key: nat)
    requires Separated(tree, hi)
    ensures var k := UpperBound(tree, key);
            Covered(tree, key) <==> 0 < k && key < tree[k - 1].last
  {
    if tree != [] {
      if Back(tree).first <= key {
        if Covered(Front(tree), key) {
          SeparatedBounds(Front(tree), Back(tree).first - 1, key);
        }
      } else {
        OnlyCandidate(Front(tree), Back(tree).first - 1, key);
      }
    }
  }

  // ---- Take ----

  // What is left of a block when the slot p inside it is taken.
  function Remains(b: Block, p: nat): seq<Block> {
    (if b.first < p then [Block(b.first, p)] else [])
    + (if p + 1 < b.last then [Block(p + 1, b.last)] else [])
  }

  function Cut(tree: seq<Block>, k: nat, p: nat): seq<Block>
    requires k < |tree|
  {
    tree[..k] + Remains(tree[k], p) + tree[k + 1..]
  }

  lemma CutBack(tree: seq<Block>, hi: int, p: nat)
    requires Separated(tree, hi) && tree != [] && Back(tree).first <= p < Back(tree).last
    ensures Separated(Cut(tree, |tree| - 1, p), hi)
    ensures forall q :: Covered(Cut(tree, |tree| - 1, p), q) <==> Covered(tree, q) && q != p
  {
    var front, b := Front(tree), Back(tree);
    var cut := Cut(tree, |tree| - 1, p);
    var b1, b2 := Block(b.first, p), Block(p + 1, b.last);
    var left := if b.first < p then front + [b1] else front;
    assert cut == if p + 1 < b.last then left + [b2] else left;
    NotCoveredBeyond(front, b.first - 1, p);
    if b.first < p {
      SeparatedAppend(front, b1, p);
    } else {
      SeparatedWiden(front, b.first - 1, p);
    }
    if p + 1 < b.last {
      SeparatedAppend(left, b2, hi);
    } else {
      SeparatedWiden(left, p, hi);
    }
    forall q
      ensures Covered(cut, q) <==> Covered(tree, q) && q != p
    {
      CoveredAppend(front, b1, q);
      CoveredAppend(left, b2, q);
    }
  }

  lemma {:induction false} CutKeepsOrder(tree: seq<Block>, hi: int, k: nat, p: nat)
    requires Separated(tree, hi) && k < |tree| && tree[k].first <= p < tree[k].last
    ensures Separated(Cut(tree, k, p), hi)
    ensures forall q :: Covered(Cut(tree, k, p), q) <==> Covered(tree, q) && q != p
    decreases |tree|
  {
    if k == |tree| - 1 {
      CutBack(tree, hi, p);
    } else {
      var front, b := Front(tree), Back(tree);
      assert front[k] == tree[k];
      CutKeepsOrder(front, b.first - 1, k, p);
      var cut := Cut(tree, k, p);
      assert cut == Cut(front, k, p) + [b];
      assert Front(cut) == Cut(front, k, p);
      CoveredAt(front, k, p);
      SeparatedBounds(front, b.first - 1, p);
    }
  }

  lemma CoveredAt(tree: seq<Block>, k: nat, p: nat)
    requires k < |tree| && tree[k].first <= p < tree[k].last
    ensures Covered(tree, p)
  {
    CoveredByIndex(tree, p);
  }

  lemma CutSlots(tree: seq<Block>, size: nat, k: nat, p: nat)
    requires Separated(tree, size) && k < |tree| && tree[k].first <= p < tree[k].last
    ensures p < size
    ensures Separated(Cut(tree, k, p), size)
    ensures SlotsOf(Cut(tree, k, p), size) == SlotsOf(tree, size)[p := true]
    ensures TakenCount(SlotsOf(Cut(tree, k, p), size)) == TakenCount(SlotsOf(tree, size)) + 1
  {
    CutKeepsOrder(tree, size, k, p);
    CoveredAt(tree, k, p);
    SeparatedBounds(tree, size, p);
    var slots := SlotsOf(tree, size);
    assert SlotsOf(Cut(tree, k, p), size) == slots[p := true];
    TakenCountUpdate(slots, p);
  }

  // The right half of a block that is split goes directly behind it.
  lemma EmplaceAfter(tree: seq<Block>, size: nat, k: nat, b: Block)
    requires Separated(tree, size) && k < |tree|
    requires tree[k].first < b.first < tree[k].last
    ensures Emplace(tree, b) == tree[..k + 1] + [b] + tree[k + 1..]
  {
    var u := UpperBound(tree, b.first);
    UpperBoundExact(tree, size, b.first);
    CoveredAt(tree, k, b.first);
    OnlyCandidate(tree, size, b.first);
    UniqueHolder(tree, size, u - 1, k, b.first);
  }

  lemma {:induction false} UniqueHolder(tree: seq<Block>, hi: int, i: nat, k: nat, p: nat)
    requires Separated(tree, hi) && i < |tree| && k < |tree|
    requires tree[i].first <= p < tree[i].last && tree[k].first <= p < tree[k].last
    ensures i == k
    decreases |tree|
  {
    var front, b := Front(tree), Back(tree);
    if i < |front| {
      CoveredAt(front, i, p);
      SeparatedBounds(front, b.first - 1, p);
    }
    if k < |front| {
      CoveredAt(front, k, p);
      SeparatedBounds(front, b.first - 1, p);
    }
    if i < |front| && k < |front| {
      UniqueHolder(front, b.first - 1, i, k, p);
    }
  }

  // The set surgery of Take on the block at index k.
  method TakeFromBlock(tree: seq<Block>, size: nat, k: nat, seqNum: nat) returns (t: seq<Block>)
    requires Separated(tree, size) && k < |tree|
    requires tree[k].first <= seqNum < tree[k].last
    ensures t == Cut(tree, k, seqNum)
  {
    var it := tree[k];
    if it.first == seqNum {
      t := tree[k := Block(it.first + 1, it.last)];
    } else if it.last == seqNum + 1 {
      t := tree[k := Block(it.first, it.last - 1)];
    } else {
      EmplaceAfter(tree, size, k, Block(seqNum + 1, it.last));
      t := Emplace(tree, Block(seqNum + 1, it.last));
      t := t[k := Block(it.first, seqNum)];
    }
    if t[k].first == t[k].last {
      t := t[..k] + t[k + 1..];
    }
  }

  // ---- Resize ----

  // The last block grows if it touches the old end, otherwise a new one is added.
  function Extend(tree: seq<Block>, size: nat, size': nat): seq<Block> {
    if tree != [] && Back(tree).last >= size
    then Front(tree) + [Block(Back(tree).first, size')]
    else tree + [Block(size, size')]
  }

  lemma ExtendSlots(tree: seq<Block>, size: nat, size': nat)
    requires size < size' && Ordered(tree, size)
    ensures Separated(Extend(tree, size, size'), size')
    ensures SlotsOf(Extend(tree, size, size'), size') == GrowTo(SlotsOf(tree, size), size')
    ensures TakenCount(SlotsOf(Extend(tree, size, size'), size')) == TakenCount(SlotsOf(tree, size))
  {
    var slots, tree' := SlotsOf(tree, size), Extend(tree, size, size');
    var touches := tree != [] && Back(tree).last >= size;
    assert Front(tree') == if touches then Front(tree) else tree;
    if touches {
      assert Covered(tree', size);
    } else if tree != [] {
      assert Separated(tree, size - 1);
    }
    assert SlotsOf(tree', size') == GrowTo(slots, size');
    TakenCountAppend(slots, size' - size);
  }

  // The set surgery of Resize.
  method ExtendTree(tree: seq<Block>, size: nat, newSize: nat) returns (t: seq<Block>)
    requires Ordered(tree, size)
    ensures t == Extend(tree, size, newSize)
  {
    if tree == [] {
      return Emplace(tree, Block(size, newSize));
    }
    var it := Back(tree);
    if it.last < size {
      t := Emplace(tree, Block(size, newSize));
    } else {
      t := tree[|tree| - 1 := Block(it.first, newSize)];
    }
  }

  class TreeBlockMgr {
    var size: nat
    var used: nat
    var tree: seq<Block>

    ghost predicate Valid()
      reads this
    {
      size < U32 && Ordered(tree, size) && used == TakenCount(Slots())
    }

    ghost function Slots(): (slots: seq<bool>)
      reads this
      ensures |slots| == size
    {
      SlotsOf(tree, size)
    }

    constructor (size: nat)
      requires size < U32
      ensures Valid() && this.size == size
      ensures Slots() == seq(size, _ => false)
    {
      this.size, used, tree := size, 0, [Block(0, size)];
      new;
      assert Slots() == [] + seq(size, _ => false);
      TakenCountAppend([], size);
    }

    // CHECK(size > size_) is the caller's duty.
    method Resize(newSize: nat)
      requires Valid() && size < newSize < U32
      modifies this
      ensures Valid() && size == newSize && used == old(used)
      ensures Slots() == GrowTo(old(Slots()), newSize)
    {
      ExtendSlots(tree, size, newSize);
      tree := ExtendTree(tree, size, newSize);
      size := newSize;
    }

    // True when the sequence number is not free.
    method Check(seqNum: nat) returns (taken: bool)
      requires Valid()
      ensures taken == (seqNum >= size || Slots()[seqNum])
    {
      if tree == [] {
        return true;
      }
      var k := UpperBound(tree, seqNum);
      if size > 0 {
        OnlyCandidate(tree, size, seqNum);
        if Covered(tree, seqNum) {
          SeparatedBounds(tree, size, seqNum);
        }
      }
      if k == 0 {
        return true;
      }
      taken := !(tree[k - 1].first <= seqNum < tree[k - 1].last);
    }

    // The three CHECKs together demand a free sequence number.
    method Take(seqNum: nat)
      requires Valid() && seqNum < size && !Slots()[seqNum]
      modifies this
      ensures Valid() && size == old(size) && used == old(used) + 1
      ensures Slots() == old(Slots())[seqNum := true]
    {
      OnlyCandidate(tree, size, seqNum);
      var k := UpperBound(tree, seqNum) - 1;
      CutSlots(tree, size, k, seqNum);
      used := used + 1;
      tree := TakeFromBlock(tree, size, k, seqNum);
    }

    method FreeLength() returns (n: nat)
      requires Valid()
      ensures n == size - TakenCount(Slots())
    {
      n := size - used;
    }

    function ByteSize(): nat
      reads this
    {
      |tree| * BLOCK_BYTES
    }

    // Writing past bufSize, or ending anywhere but at ByteSize(), aborts.
    method SerializeToBuffer(bufSize: nat) returns (ok: bool, out: seq<Block>)
      requires Valid()
      ensures ok <==> ByteSize() <= bufSize
      ensures ok && size > 0 ==> IsFreeRuns(out, Slots()) && |out| * BLOCK_BYTES == ByteSize()
    {
      out := [];
      for i := 0 to |tree|
        invariant out == tree[..i] && i * BLOCK_BYTES <= bufSize
      {
        if (|out| + 1) * BLOCK_BYTES > bufSize {
          return false, out;
        }
        out := out + [tree[i]];
      }
      assert out == tree;
      ok := |out| * BLOCK_BYTES == ByteSize();
    }
  }
}
