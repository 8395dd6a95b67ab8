/**
 * The bitmap manager: 64-bit words with a bit set for every taken sequence
 * number, and a running count of the free segments.
 */
module BitmapBlocks {
  import opened Common
  import opened Bits
  import opened Blocks

  // Bitmap<long>: RoundUp(size, type_size) words.
  function WordsFor(size: nat): nat {
    (size + WORD - 1) / 64
  }

  function Test(words: seq<Word>, pos: nat): bool
    requires pos < 64 * |words|
  {
    words[pos / 64][pos % 64]
  }

  function SetBit(words: seq<Word>, pos: nat): (r: seq<Word>)
    requires pos < 64 * |words|
    ensures |r| == |words|
    ensures forall p :: 0 <= p < 64 * |words| ==> Test(r, p) == (p == pos || Test(words, p))
  {
    var w := words[pos / 64];
    var r := words[pos / 64 := Or(w, Shl([true] + seq(WORD - 1, _ => false), pos % 64))];
    assert forall p: nat :: p / 64 == pos / 64 && p % 64 == pos % 64 ==> p == pos;
    r
  }

  ghost function SlotsOfWords(words: seq<Word>, size: nat): (slots: seq<bool>)
    requires |words| == WordsFor(size)
    ensures |slots| == size
    ensures forall p :: 0 <= p < size ==> slots[p] == Test(words, p)
  {
    seq(size, p requires 0 <= p < size => Test(words, p))
  }

  // Bits at or past the size are clear.
  ghost predicate TailClear(words: seq<Word>, size: nat)
    requires |words| == WordsFor(size)
  {
    forall p :: size <= p < 64 * |words| ==> !Test(words, p)
  }

  lemma GrowWords(words: seq<Word>, words': seq<Word>, size: nat, size': nat)
    requires size <= size' && |words| == WordsFor(size) && TailClear(words, size)
    requires |words'| == WordsFor(size') && words <= words'
    requires forall i :: |words| <= i < |words'| ==> words'[i] == ZERO
    ensures TailClear(words', size')
    ensures SlotsOfWords(words', size') == GrowTo(SlotsOfWords(words, size), size')
  {
    forall p: nat | p < 64 * |words'|
      ensures Test(words', p) == (p < size && Test(words, p))
    {
      if p / 64 < |words| {
        assert words'[p / 64] == words[p / 64];
        assert size <= p ==> !Test(words, p);
      } else {
        assert words'[p / 64] == ZERO && !ZERO[p % 64];
      }
    }
  }

  // ---- Counting segments ----

  // The number of free runs: slots where a run starts.
  function RunCount(slots: seq<bool>): (n: nat)
    ensures n <= |slots|
  {
    if slots == [] then 0
    else RunCount(Front(slots)) + B2N(!Back(slots) && StartsAt(slots, |slots| - 1))
  }

  function StartsAt(slots: seq<bool>, p: nat): bool
    requires p < |slots|
  {
    p == 0 || slots[p - 1]
  }

  lemma {:induction false} RunCountIs(blocks: seq<Block>, slots: seq<bool>)
    requires IsFreeRuns(blocks, slots)
    ensures |blocks| == RunCount(slots)
  {
    RunsUnique(blocks, RunsOf(slots, |slots|), slots, |slots|);
    RunsOfCount(slots, |slots|);
    assert slots[..|slots|] == slots;
  }

  lemma {:induction false} RunsOfCount(slots: seq<bool>, hi: nat)
    requires hi <= |slots|
    ensures |RunsOf(slots, hi)| == RunCount(slots[..hi])
  {
    if hi > 0 {
      RunsOfCount(slots, hi - 1);
      RunsOfStep(slots, hi - 1);
      assert Front(slots[..hi]) == slots[..hi - 1];
    }
  }

  // Reading one slot more adds a run exactly when one starts there.
  lemma RunsOfStep(slots: seq<bool>, p: nat)
    requires p < |slots|
    ensures |RunsOf(slots, p + 1)| == |RunsOf(slots, p)| + B2N(!slots[p] && StartsAt(slots, p))
  {
    var before := RunsOf(slots, p);
    if before != [] {
      LastRun(before, slots, p);
    }
    if p > 0 && !slots[p - 1] {
      assert Covered(before, p - 1);
    }
  }

  // Taking slot p changes the number of runs by one, less one for each side
  // on which p has no free neighbour.
  lemma {:induction false} RunCountTake(slots: seq<bool>, p: nat)
    requires p < |slots| && !slots[p]
    ensures RunCount(slots[p := true]) ==
            RunCount(slots) + 1
            - B2N(StartsAt(slots, p)) - B2N(p + 1 == |slots| || slots[p + 1])
  {
    var slots', n := slots[p := true], |slots| - 1;
    if p == n {
      assert Front(slots') == Front(slots);
    } else {
      assert Front(slots') == Front(slots)[p := true];
      RunCountTake(Front(slots), p);
    }
  }

  // Growing the table adds a run unless the new slots join a free last slot.
  lemma {:induction false} RunCountGrow(slots: seq<bool>, size': nat)
    requires |slots| < size'
    ensures RunCount(GrowTo(slots, size')) == RunCount(slots) + B2N(slots == [] || Back(slots))
    decreases size'
  {
    var slots' := GrowTo(slots, size');
    if size' == |slots| + 1 {
      assert Front(slots') == slots;
    } else {
      assert Front(slots') == GrowTo(slots, size' - 1);
      RunCountGrow(slots, size' - 1);
    }
  }

  // ---- The scan ----

  // The scan has written every run before `first`; slot first - 1 is taken and
  // the slots from `first` up to `done` are free.
  ghost predicate Scanned(out: seq<Block>, slots: seq<bool>, first: nat, done: nat) {
    && first <= |slots|
    && RunsUpTo(out, slots, first)
    && (0 < first ==> slots[first - 1])
    && (forall p :: first <= p < done && p < |slots| ==> !slots[p])
  }

  lemma TightRuns(out: seq<Block>, slots: seq<bool>, first: nat)
    requires first <= |slots| && RunsUpTo(out, slots, first)
    requires 0 < first ==> slots[first - 1]
    ensures Separated(out, first - 1)
  {
    if out != [] {
      LastRun(out, slots, first);
    }
  }

  // Writing [first, last) completes the runs up to last.
  lemma WriteRun(out: seq<Block>, slots: seq<bool>, first: nat, last: nat)
    requires Scanned(out, slots, first, last) && first < last <= |slots|
    ensures RunsUpTo(out + [Block(first, last)], slots, last)
  {
    TightRuns(out, slots, first);
    SeparatedAppend(out, Block(first, last), last);
    forall p | 0 <= p < last
      ensures slots[p] <==> !Covered(out + [Block(first, last)], p)
    {
      CoveredAppend(out, Block(first, last), p);
    }
  }

  // Passing taken slots writes nothing.
  lemma {:induction false} SkipTaken(out: seq<Block>, slots: seq<bool>, from: nat, to: nat)
    requires from <= to <= |slots| && RunsUpTo(out, slots, from)
    requires forall p :: from <= p < to ==> slots[p]
    ensures RunsUpTo(out, slots, to)
  {
    SeparatedWiden(out, from, to);
    forall p | from <= p < to
      ensures !Covered(out, p)
    {
      NotCoveredBeyond(out, from, p);
    }
  }

  lemma PrefixNotLonger(out: seq<Block>, slots: seq<bool>, hi: nat)
    requires hi <= |slots| && RunsUpTo(out, slots, hi)
    ensures |out| <= RunCount(slots)
  {
    RunsUnique(out, RunsOf(slots, hi), slots, hi);
    RunsOfMonotone(slots, hi, |slots|);
    RunCountIs(RunsOf(slots, |slots|), slots);
  }

  // ---- The bits of one word, seen from the scan ----

  // The word that holds slots i .. i + 63.
  ghost predicate HoldsSlots(word: Word, slots: seq<bool>, i: nat) {
    forall k :: 0 <= k < WORD ==> word[k] == (i + k < |slots| && slots[i + k])
  }

  // The part of the word at i that lies at or after `first`.
  ghost predicate Rest(rest: Word, word: Word, i: nat, first: nat) {
    forall k :: 0 <= k < WORD ==> rest[k] == (word[k] && first <= i + k)
  }

  // ~(seg | ~mask) with mask = ~0 << t: the free bits from t on.
  function FreeFrom(rest: Word, t: nat): (w: Word)
    requires t < WORD
    ensures forall k :: 0 <= k < WORD ==> w[k] == (t <= k && !rest[k])
  {
    Not(Or(rest, Not(Shl(ONES, t))))
  }

  // The next taken stretch of a non-zero rest.
  lemma NextStretch(rest: Word)
    requires rest != ZERO
    ensures var t := TrailingZeros(rest);
            var e := TrailingZeros(FreeFrom(rest, t));
            && t < e <= WORD
            && (forall k :: 0 <= k < t ==> !rest[k])
            && (forall k :: t <= k < e ==> rest[k])
  {
    var t := TrailingZeros(rest);
    var free := FreeFrom(rest, t);
    var e := TrailingZeros(free);
    assert !free[t];
    forall k | t <= k < e
      ensures rest[k]
    {
      assert !free[k];
    }
  }

  lemma StretchInTable(rest: Word, word: Word, slots: seq<bool>, i: nat, first: nat, out: seq<Block>)
    requires Scanned(out, slots, first, i) && HoldsSlots(word, slots, i)
    requires Rest(rest, word, i, first) && rest != ZERO
    ensures var t := TrailingZeros(rest);
            var e := TrailingZeros(FreeFrom(rest, t));
            && first <= i + t < i + e <= |slots|
            && Scanned(out, slots, first, i + t)
            && (forall p :: i + t <= p < i + e ==> slots[p])
  {
    NextStretch(rest);
    var t := TrailingZeros(rest);
    var e := TrailingZeros(FreeFrom(rest, t));
    assert rest[t] && rest[e - 1];
    assert word[e - 1] && i + (e - 1) < |slots|;
    forall p | i <= p < i + t && first <= p
      ensures !slots[p]
    {
      assert !rest[p - i];
    }
    forall p | i + t <= p < i + e
      ensures slots[p]
    {
      assert rest[p - i];
    }
  }

  // One round of the inner loop: write [first, last) unless it is empty, then
  // go past the taken stretch.
  function Written(out: seq<Block>, first: nat, last: nat): seq<Block> {
    if first < last then out + [Block(first, last)] else out
  }

  lemma RoundKeepsScan(out: seq<Block>, slots: seq<bool>, first: nat, last: nat, next: nat, done: nat)
    requires first <= last < next <= |slots| && done <= next
    requires Scanned(out, slots, first, last)
    requires forall p :: last <= p < next ==> slots[p]
    ensures RunsUpTo(Written(out, first, last), slots, last)
    ensures Scanned(Written(out, first, last), slots, next, done)
  {
    if first < last {
      WriteRun(out, slots, first, last);
    }
    SkipTaken(Written(out, first, last), slots, last, next);
  }

  lemma RestAfter(rest: Word, word: Word, i: nat, first: nat, e: nat)
    requires Rest(rest, word, i, first) && first <= i + e && e < WORD
    ensures Rest(And(rest, Shl(ONES, e)), word, i, i + e)
  {}

  lemma NothingLeft(word: Word, slots: seq<bool>, i: nat, first: nat, out: seq<Block>)
    requires Scanned(out, slots, first, i) && HoldsSlots(word, slots, i)
    requires Rest(ZERO, word, i, first)
    ensures Scanned(out, slots, first, i + WORD)
  {
    forall p | first <= p < i + WORD && p < |slots| && i <= p
      ensures !slots[p]
    {
      assert !ZERO[p - i];
    }
  }

  // The next taken stretch [last, next) of the rest of a word, and what is left of it.
  method FindStretch(seg: Word, ghost word: Word, i: nat, first: nat, ghost slots: seq<bool>, ghost out: seq<Block>)
    returns (last: nat, next: nat, rest: Word)
    requires Scanned(out, slots, first, i) && HoldsSlots(word, slots, i)
    requires Rest(seg, word, i, first) && seg != ZERO
    ensures first <= last < next <= i + WORD && next <= |slots|
    ensures RunsUpTo(Written(out, first, last), slots, last)
    ensures Scanned(Written(out, first, last), slots, next, i)
    ensures next < i + WORD ==> Rest(rest, word, i, next)
  {
    var trailing := TrailingZeros(seg);
    var end := TrailingZeros(FreeFrom(seg, trailing));
    StretchInTable(seg, word, slots, i, first, out);
    last, next := i + trailing, i + end;
    RoundKeepsScan(out, slots, first, last, next, i);
    rest := And(seg, Shl(ONES, end));
    if end < WORD {
      RestAfter(seg, word, i, first, end);
    }
  }

  // The inner loop of the scan over the word at i.  `ok` is false when a block
  // would not fit the buffer.
  method ScanWord(word: Word, i: nat, first0: nat, out0: seq<Block>, bufSize: nat,
                  ghost slots: seq<bool>)
    returns (ok: bool, first: nat, out: seq<Block>)
    requires HoldsSlots(word, slots, i) && first0 <= i
    requires Scanned(out0, slots, first0, i) && |out0| * BLOCK_BYTES <= bufSize
    ensures ok ==> Scanned(out, slots, first, i + WORD) && first <= i + WORD
    ensures ok ==> |out| * BLOCK_BYTES <= bufSize
    ensures !ok ==> bufSize < RunCount(slots) * BLOCK_BYTES
  {
    first, out := first0, out0;
    var seg := word;
    while seg != ZERO && first < i + WORD
      invariant first <= i + WORD && Scanned(out, slots, first, i)
      invariant first < i + WORD ==> Rest(seg, word, i, first)
      invariant |out| * BLOCK_BYTES <= bufSize
      decreases i + WORD - first
    {
      var last, next, rest := FindStretch(seg, word, i, first, slots, out);
      if first < last {
        if (|out| + 1) * BLOCK_BYTES > bufSize {
          PrefixNotLonger(Written(out, first, last), slots, last);
          return false, first, out;
        }
        out := out + [Block(first, last)];
      }
      first := next;
      seg := rest;
    }
    if first < i + WORD {
      NothingLeft(word, slots, i, first, out);
    }
    ok := true;
  }

  // uint32_t arithmetic on the segment counter.
  function Inc32(x: nat): nat {
    if x == U32 - 1 then 0 else x + 1
  }

  function Dec32(x: nat): nat {
    if x == 0 then U32 - 1 else x - 1
  }

  // Where the program leaves `segments_` after a Take of a free slot.
  function SegmentsAfterTake(slots: seq<bool>, segments: nat, p: nat): nat
    requires p < |slots|
  {
    var s := Inc32(segments);
    var s := if StartsAt(slots, p) then Dec32(s) else s;
    if p + 1 == |slots| || slots[p + 1] then Dec32(s) else s
  }

  // ... and after a Resize, which looks at the last slot of the new size.
  function SegmentsAfterResize(words: seq<Word>, size: nat, segments: nat): nat
    requires 0 < size && |words| == WordsFor(size)
  {
    if Test(words, size - 1) then Inc32(segments) else segments
  }

  // The counter is the number of runs, less the deficit, as a uint32_t.
  predicate Counts(slots: seq<bool>, segments: nat, deficit: nat) {
    var n := RunCount(slots) - deficit;
    segments == if n < 0 then n + U32 else n
  }

  lemma SegmentsKeepDeficit(slots: seq<bool>, segments: nat, deficit: nat, p: nat)
    requires p < |slots| < U32 && deficit <= |slots| && !slots[p]
    requires Counts(slots, segments, deficit)
    ensures Counts(slots[p := true], SegmentsAfterTake(slots, segments, p), deficit)
  {
    RunCountTake(slots, p);
  }

  // An unchanged counter falls behind by one when the old last slot was taken.
  lemma ResizeAddsDeficit(slots: seq<bool>, segments: nat, deficit: nat, size': nat)
    requires |slots| < size' && deficit <= |slots|
    requires if slots == [] then segments == 1 else Counts(slots, segments, deficit)
    ensures Counts(GrowTo(slots, size'), segments, deficit + B2N(slots != [] && Back(slots)))
  {
    RunCountGrow(slots, size');
  }

  lemma WordAt(words: seq<Word>, size: nat, i: nat)
    requires |words| == WordsFor(size) && TailClear(words, size)
    requires i % 64 == 0 && i < size
    ensures i / 64 < |words|
    ensures HoldsSlots(words[i / 64], SlotsOfWords(words, size), i)
  {
    forall k | 0 <= k < WORD
      ensures words[i / 64][k] == (i + k < size && SlotsOfWords(words, size)[i + k])
    {
      assert (i + k) / 64 == i / 64 && (i + k) % 64 == k;
      assert words[i / 64][k] == Test(words, i + k);
    }
  }

  // The word-by-word scan over the whole bitmap.
  method ScanAll(words: seq<Word>, size: nat, bufSize: nat) returns (ok: bool, out: seq<Block>)
    requires |words| == WordsFor(size) && TailClear(words, size)
    ensures ok <==> RunCount(SlotsOfWords(words, size)) * BLOCK_BYTES <= bufSize
    ensures ok ==> IsFreeRuns(out, SlotsOfWords(words, size))
    ensures ok ==> |out| == RunCount(SlotsOfWords(words, size))
  {
    ghost var slots := SlotsOfWords(words, size);
    var first: nat, i: nat := 0, 0;
    out := [];
    while i < size
      invariant i % 64 == 0 && first <= i
      invariant Scanned(out, slots, first, i)
      invariant |out| * BLOCK_BYTES <= bufSize
      decreases size - i
    {
      WordAt(words, size, i);
      ok, first, out := ScanWord(words[i / 64], i, first, out, bufSize, slots);
      if !ok {
        return;
      }
      i := i + 64;
    }
    if first < size {
      WriteRun(out, slots, first, size);
      if (|out| + 1) * BLOCK_BYTES > bufSize {
        PrefixNotLonger(out + [Block(first, size)], slots, size);
        return false, out;
      }
      out := out + [Block(first, size)];
    }
    RunCountIs(out, slots);
    ok := true;
  }

  // What every reachable state keeps.  The deficit is how often Resize has left
  // the count one too low; size + 64 stays in range for the scan's uint32_t
  // loop counter.
  ghost predicate Good(words: seq<Word>, size: nat, used: nat, segments: nat, deficit: nat) {
    && size + WORD <= U32
    && |words| == WordsFor(size) && TailClear(words, size)
    && used == TakenCount(SlotsOfWords(words, size))
    && deficit <= size
    && (if size == 0 then segments == 1
        else Counts(SlotsOfWords(words, size), segments, deficit))
  }

  lemma TakeKeepsGood(words: seq<Word>, size: nat, used: nat, segments: nat, deficit: nat, p: nat)
    requires Good(words, size, used, segments, deficit) && p < size && !Test(words, p)
    ensures var slots := SlotsOfWords(words, size);
            && SlotsOfWords(SetBit(words, p), size) == slots[p := true]
            && Good(SetBit(words, p), size, used + 1, SegmentsAfterTake(slots, segments, p), deficit)
  {
    var slots := SlotsOfWords(words, size);
    assert SlotsOfWords(SetBit(words, p), size) == slots[p := true];
    SegmentsKeepDeficit(slots, segments, deficit, p);
    TakenCountUpdate(slots, p);
  }

  lemma ResizeKeepsGood(words: seq<Word>, words': seq<Word>, size: nat, used: nat,
                        segments: nat, deficit: nat, size': nat)
    requires Good(words, size, used, segments, deficit) && size < size' && size' + WORD <= U32
    requires |words'| == WordsFor(size') && words <= words'
    requires forall i :: |words| <= i < |words'| ==> words'[i] == ZERO
    ensures var slots := SlotsOfWords(words, size);
            && SlotsOfWords(words', size') == GrowTo(slots, size')
            && Good(words', size', used, segments, deficit + B2N(size > 0 && Back(slots)))
    ensures SegmentsAfterResize(words', size', segments) == segments
  {
    var slots := SlotsOfWords(words, size);
    GrowWords(words, words', size, size');
    TakenCountAppend(slots, size' - size);
    ResizeAddsDeficit(slots, segments, deficit, size');
    LastBitClear(words', slots, size');
  }

  lemma LastBitClear(words: seq<Word>, slots: seq<bool>, size: nat)
    requires |slots| < size && |words| == WordsFor(size) && SlotsOfWords(words, size) == GrowTo(slots, size)
    ensures !Test(words, size - 1)
  {
    assert !GrowTo(slots, size)[size - 1];
  }

  function Lengthened(words: seq<Word>, n: nat): (r: seq<Word>)
    requires |words| <= n
    ensures |r| == n && words <= r
    ensures forall i :: |words| <= i < n ==> r[i] == ZERO
  {
    words + seq(n - |words|, _ => ZERO)
  }

  // The words and the segment counter after a Take of a free slot.
  method Mark(words: seq<Word>, size: nat, segments: nat, p: nat, ghost used: nat, ghost deficit: nat)
    returns (words': seq<Word>, s: nat)
    requires Good(words, size, used, segments, deficit) && p < size && !Test(words, p)
    ensures |words'| == |words| && SlotsOfWords(words', size) == SlotsOfWords(words, size)[p := true]
    ensures s == SegmentsAfterTake(SlotsOfWords(words, size), segments, p)
    ensures Good(words', size, used + 1, s, deficit)
  {
    TakeKeepsGood(words, size, used, segments, deficit, p);
    s := Inc32(segments);
    if p == 0 || Test(words, p - 1) {
      s := Dec32(s);
    }
    if p + 1 == size || Test(words, p + 1) {
      s := Dec32(s);
    }
    words' := SetBit(words, p);
  }

  // Longer words and the counter after Resize's test of the last bit.
  method Enlarge(words: seq<Word>, size: nat, newSize: nat, segments: nat, ghost used: nat, ghost deficit: nat)
    returns (grown: seq<Word>, counted: nat)
    requires Good(words, size, used, segments, deficit) && size < newSize && newSize + WORD <= U32
    ensures |grown| == WordsFor(newSize) && counted == segments
    ensures SlotsOfWords(grown, newSize) == GrowTo(SlotsOfWords(words, size), newSize)
    ensures Good(grown, newSize, used, counted, deficit + B2N(size > 0 && Back(SlotsOfWords(words, size))))
  {
    grown := Lengthened(words, WordsFor(newSize));
    ResizeKeepsGood(words, grown, size, used, segments, deficit, newSize);
    counted := segments;
    if Test(grown, newSize - 1) {
      counted := Inc32(counted);
    }
  }

  class BitmapBlockMgr {
    var size: nat
    var used: nat
    var segments: nat
    var words: seq<Word>
    ghost var deficit: nat

    ghost predicate Valid()
      reads this
    {
      Good(words, size, used, segments, deficit)
    }

    ghost function Slots(): (slots: seq<bool>)
      requires |words| == WordsFor(size)
      reads this
      ensures |slots| == size
    {
      SlotsOfWords(words, size)
    }

    constructor (size: nat)
      requires size + WORD <= U32
      ensures Valid() && this.size == size && deficit == 0
      ensures Slots() == seq(size, _ => false)
    {
      this.size, used, segments, deficit := size, 0, 1, 0;
      words := seq(WordsFor(size), _ => ZERO);
      new;
      assert Slots() == [] + seq(size, _ => false);
      TakenCountAppend([], size);
      if size > 0 {
        RunCountGrow([], size);
        assert GrowTo([], size) == Slots();
      }
    }

    // The last bit is tested after size_ has moved, so it is never set.
    method Resize(newSize: nat)
      requires Valid() && size < newSize && newSize + WORD <= U32
      modifies this
      ensures Valid() && size == newSize && used == old(used)
      ensures Slots() == GrowTo(old(Slots()), newSize)
      ensures segments == old(segments)
      ensures deficit == old(deficit) + B2N(old(size) > 0 && Back(old(Slots())))
    {
      var grown, counted := Enlarge(words, size, newSize, segments, used, deficit);
      deficit := deficit + B2N(size > 0 && Back(Slots()));
      words, size, segments := grown, newSize, counted;
    }

    method Check(seqNum: nat) returns (taken: bool)
      requires Valid() && seqNum < size
      ensures taken == Slots()[seqNum]
    {
      taken := Test(words, seqNum);
    }

    method Take(seqNum: nat)
      requires Valid() && seqNum < size
      modifies this
      ensures Valid() && size == old(size) && deficit == old(deficit)
      ensures Slots() == old(Slots())[seqNum := true]
      ensures old(Slots())[seqNum] ==> used == old(used) && segments == old(segments)
      ensures !old(Slots())[seqNum] ==>
                && used == old(used) + 1
                && segments == SegmentsAfterTake(old(Slots()), old(segments), seqNum)
    {
      if Test(words, seqNum) {
        assert Slots() == Slots()[seqNum := true];
        return;
      }
      var marked, counted := Mark(words, size, segments, seqNum, used, deficit);
      words, segments, used := marked, counted, used + 1;
    }

    method FreeLength() returns (n: nat)
      requires Valid()
      ensures n == size - TakenCount(Slots())
    {
      n := size - used;
    }

    function ByteSize(): nat
      reads this
    {
      segments * BLOCK_BYTES
    }

    // Aborts when a block does not fit or the final position is not ByteSize().
    method SerializeToBuffer(bufSize: nat) returns (ok: bool, out: seq<Block>)
      requires Valid()
      ensures size == 0 ==> !ok
      ensures size > 0 ==>
                (ok <==> deficit == 0 && RunCount(Slots()) * BLOCK_BYTES <= bufSize)
      ensures ok ==> IsFreeRuns(out, Slots()) && |out| * BLOCK_BYTES == ByteSize()
    {
      ok, out := ScanAll(words, size, bufSize);
      ok := ok && |out| * BLOCK_BYTES == ByteSize();
    }
  }
}
