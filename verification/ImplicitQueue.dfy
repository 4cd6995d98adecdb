/** The implicit producer's sub-queue: blocks found through an index of reusable entries, taken from and
    given back to the common pool. Calls are taken one at a time; the interleavings of consumers are
    the subject of DequeueCounters. */
module ImplicitQueue {
  import opened Alignment
  import opened BlockIndex
  import opened Blocks
  import opened Common
  import DequeueCounters
  import opened Stretches

  /** The stretches of the blocks in use hold the head and reach to the tail. */
  ghost predicate Spans(bases: seq<nat>, bs: nat, head: nat, tail: nat)
    requires bs > 0
  {
    && Consecutive(bases, bs) && head <= tail
    && (bases == [] ==> head == tail && Multiple(tail, bs))
    && (bases != [] ==> bases[0] <= head < bases[0] + bs && bases[|bases| - 1] < tail <= bases[|bases| - 1] + bs)
  }

  /** From the head to the end of the last block there are no more places than the size limit allows. */
  predicate Limited(bases: seq<nat>, bs: nat, head: nat, limit: Option<nat>) {
    limit.Some? && bases != [] ==> bases[|bases| - 1] + bs - head <= limit.value
  }

  /** The tail is at a block boundary exactly when there is no block in use or the last one is full. */
  lemma AtBoundary(bases: seq<nat>, bs: nat, head: nat, tail: nat)
    requires bs > 0 && Spans(bases, bs, head, tail)
    ensures Multiple(tail, bs) <==> bases == [] || tail == bases[|bases| - 1] + bs
    ensures !Multiple(tail, bs) ==> tail % bs == tail - bases[|bases| - 1]
  {
    if bases != [] {
      Boundary(bases, bs, tail);
    }
  }

  /** Another block at a boundary. */
  lemma AnotherBase(bases: seq<nat>, bs: nat, base: nat)
    requires bs > 0 && Consecutive(bases, bs) && Multiple(base, bs) && (bases != [] ==> base == bases[|bases| - 1] + bs)
    ensures Consecutive(bases + [base], bs)
  {
  }

  /** The head moves on, and perhaps leaves the first stretch. */
  lemma HeadLeaves(bases: seq<nat>, bs: nat, head: nat, tail: nat)
    requires bs > 0 && Spans(bases, bs, head, tail) && head < tail
    ensures bases != [] && bases[0] <= head < bases[0] + bs
    ensures Multiple(head + 1, bs) <==> head + 1 == bases[0] + bs
    ensures Spans(if head + 1 == bases[0] + bs then bases[1..] else bases, bs, head + 1, tail)
  {
    hide Multiple;
    Boundary(bases[..1], bs, head + 1);
    if |bases| > 1 {
      Increasing(bases, bs, 0, |bases| - 1);
    }
    Rest(bases, bs);
  }

  lemma Rest(bases: seq<nat>, bs: nat)
    requires bs > 0 && Consecutive(bases, bs) && bases != []
    ensures Consecutive(bases[1..], bs)
  {
  }

  lemma FirstToLast(bases: seq<nat>, bs: nat, x: nat)
    requires bs > 0 && Consecutive(bases, bs) && bases != [] && x < bases[0] + bs
    ensures x < bases[|bases| - 1] + bs
  {
    if |bases| > 1 {
      Increasing(bases, bs, 0, |bases| - 1);
    }
  }

  lemma First(bases: seq<nat>, bs: nat, i: nat, x: nat)
    requires bs > 0 && Consecutive(bases, bs) && i < |bases| && bases[i] <= x < bases[0] + bs
    ensures i == 0
  {
    if i > 0 {
      Increasing(bases, bs, 0, i);
    }
  }

  lemma AllGone<T>(b: Block<T>, bs: nat, flags: bool, base: nat, head: nat, contents: seq<T>)
    requires BlockOk(b, bs, flags, base, head, contents) && base + bs <= head
    ensures b.Formed() && b.Vacant()
  {
    forall o | 0 <= o < |b.elements| ensures b.elements[o].None? {
      assert b.elements[o] == Cell(base + o, head, contents);
    }
  }

  lemma LiveFacts<T>(index: seq<IndexEntry<T>>, tail: nat, ring: seq<Block<T>>, bases: seq<nat>)
    requires Live(index, tail, ring, bases)
    ensures tail < |index| && |ring| == |bases| <= |index|
  {
  }

  lemma PendingTail<T>(index: seq<IndexEntry<T>>, tail: nat, ring: seq<Block<T>>, bases: seq<nat>, base: nat)
    requires Pending(index, tail, ring, bases, base)
    ensures tail < |index| && |ring| == |bases| < |index|
  {
  }

  /** No multiple of a block size is the invalid base. */
  lemma NotInvalid(base: nat, bs: nat)
    requires bs > 1 && Multiple(base, bs)
    ensures base != INVALID_BLOCK_BASE
  {
    if base == 1 {
      Small(1, bs);
    }
  }

  lemma SpansFacts(bases: seq<nat>, bs: nat, head: nat, tail: nat)
    requires bs > 0 && Spans(bases, bs, head, tail)
    ensures Consecutive(bases, bs) && head <= tail
    ensures bases != [] ==> bases[0] <= head < bases[0] + bs && bases[|bases| - 1] < tail <= bases[|bases| - 1] + bs
  {
  }

  lemma SpansGrow(bases: seq<nat>, bases': seq<nat>, bs: nat, head: nat, tail: nat)
    requires bs > 0 && Spans(bases, bs, head, tail) && Consecutive(bases', bs)
    requires if Multiple(tail, bs) then bases' == bases + [tail] else bases' == bases
    ensures Spans(bases', bs, head, tail + 1)
    ensures bases' != [] && tail - bases'[|bases'| - 1] == tail % bs
  {
    hide Multiple;
    AtBoundary(bases, bs, head, tail);
    if Multiple(tail, bs) {
      OffsetWithin(tail, tail, bs);
    }
  }

  // ---- bulk ----

  /** x & ~(bs - 1), for a power of two. */
  function Down(x: int, bs: nat): int
    requires bs > 0
  {
    x - x % bs
  }

  lemma DownFacts(x: int, bs: nat)
    requires bs > 0
    ensures Multiple(Down(x, bs), bs) && Down(x, bs) <= x < Down(x, bs) + bs
  {
    hide Multiple;
    var q := x / bs;
    assert Down(x, bs) == q * bs;
    Exact(q, bs);
    MultipleOf(q, bs);
  }

  lemma MultipleOf(q: int, bs: nat)
    requires bs > 0
    ensures Multiple(q * bs, bs)
  {
    Exact(q, bs);
    assert q * bs == q * bs / bs * bs + q * bs % bs;
  }

  /** The first multiple at or above `start`, and the last one below `start + count`. */
  lemma BlockRange(start: nat, count: nat, bs: nat) returns (first: nat, past: nat)
    requires bs > 0 && count > 0
    ensures first == Down(start - 1, bs) + bs && past == Down(start + count - 1, bs) + bs
    ensures Multiple(first, bs) && start <= first < start + bs && (Multiple(start, bs) ==> first == start)
    ensures Multiple(past, bs) && past - bs < start + count <= past && first <= past
  {
    hide Multiple, Down;
    DownFacts(start - 1, bs);
    DownFacts(start + count - 1, bs);
    Itself(bs);
    SumInt(Down(start - 1, bs), bs);
    SumInt(Down(start + count - 1, bs), bs);
    first, past := Down(start - 1, bs) + bs, Down(start + count - 1, bs) + bs;
    if Multiple(start, bs) && start < first {
      Steps(start, first, bs);
    }
    if past < first {
      Steps(past, first, bs);
    }
  }

  lemma SumInt(x: int, bs: nat)
    requires bs > 0 && Multiple(x, bs)
    ensures Multiple(x + bs, bs)
  {
    hide Multiple;
    QuotientInt(x, bs);
    assert x + bs == (x / bs + 1) * bs;
    MultipleOf(x / bs + 1, bs);
  }

  lemma QuotientInt(x: int, bs: nat)
    requires bs > 0 && Multiple(x, bs)
    ensures x == x / bs * bs
  {
  }

  lemma UndoNext(bases: seq<nat>, bs: nat, i: nat)
    requires bs > 0 && Consecutive(bases, bs) && i < |bases|
    ensures i + 1 < |bases| ==> bases[i] + bs == bases[i + 1]
  {
  }

  /** The first boundary at or after the tail is where the stretch after the last one begins. */
  lemma NextBoundary(bases: seq<nat>, bs: nat, head: nat, tail: nat, first: nat)
    requires bs > 0 && Spans(bases, bs, head, tail) && bases != []
    requires Multiple(first, bs) && tail <= first < tail + bs && (Multiple(tail, bs) ==> first == tail)
    ensures first == bases[|bases| - 1] + bs
  {
    hide Multiple;
    var end := bases[|bases| - 1] + bs;
    AtBoundary(bases, bs, head, tail);
    Itself(bs);
    Sum(bases[|bases| - 1], bs, bs);
    if end < first {
      Steps(end, first, bs);
    } else if first < end {
      Steps(first, end, bs);
    }
  }

  /** How often `bs` goes into `diff`. */
  function Rounds(diff: int, bs: nat): nat
    requires bs > 0
    decreases diff
  {
    if diff < bs then 0 else 1 + Rounds(diff - bs, bs)
  }

  /** How many blocks a bulk enqueue has to take into use. */
  function BlocksNeeded(tail: nat, count: nat, bs: nat): nat
    requires bs > 0
  {
    if count == 0 then 0 else Rounds(Down(tail + count - 1, bs) - Down(tail - 1, bs), bs)
  }

  /** How many entries an index of `n` entries can come to have. */
  function Capacity(n: nat, allocations: nat): nat
    decreases allocations
  {
    if allocations == 0 then n else Capacity(2 * n, allocations - 1)
  }

  lemma {:induction false} CapacityAtLeast(n: nat, allocations: nat)
    ensures Capacity(n, allocations) >= n
    decreases allocations
  {
    if allocations > 0 {
      CapacityAtLeast(2 * n, allocations - 1);
    }
  }

  /** Going back `used` steps from `now` leads to `before`. */
  ghost predicate Rewinds(size: nat, now: nat, before: nat, used: nat) {
    used <= size && now < size && before == if used < size then Back(now, size, used) else now
  }

  lemma RewindsMore(size: nat, now: nat, before: nat, used: nat, next: nat)
    requires Rewinds(size, now, before, used) && used < size && next < size && Back(next, size, 1) == now
    ensures Rewinds(size, next, before, used + 1)
  {
  }

  /** From `from` on every block is linked to the one after it. */
  ghost predicate Chain<T>(ring: seq<Block<T>>, from: nat)
    reads ring`next
  {
    forall i :: from <= i < |ring| - 1 ==> ring[i].next == ring[i + 1]
  }

  /** The bases of the blocks added are the block boundaries from `start` up to `end`. */
  ghost predicate Boundaries(added: seq<nat>, start: nat, end: nat, bs: nat)
    requires bs > 0
  {
    && (forall i :: 0 <= i < |added| ==> start <= added[i] < end && Multiple(added[i], bs))
    && (forall y :: start <= y < end && Multiple(y, bs) ==> y in added)
  }

  lemma BoundariesNone(start: nat, end: nat, first: nat, bs: nat)
    requires bs > 0 && Multiple(first, bs) && start <= first < start + bs && end <= first
    ensures Boundaries([], start, end, bs)
  {
    hide Multiple;
    forall y | start <= y < end && Multiple(y, bs) ensures false {
      Steps(y, first, bs);
    }
  }

  lemma BoundariesMore(added: seq<nat>, start: nat, next: nat, bs: nat)
    requires bs > 0 && Boundaries(added, start, next, bs) && Multiple(next, bs) && start <= next
    ensures Boundaries(added + [next], start, next + bs, bs)
  {
    hide Multiple;
    forall y | start <= y < next + bs && Multiple(y, bs) ensures y in added + [next] {
      if y > next {
        Steps(next, y, bs);
      }
    }
  }

  lemma BoundariesEnd(added: seq<nat>, start: nat, end: nat, past: nat, bs: nat)
    requires bs > 0 && Boundaries(added, start, past, bs) && past - bs < end <= past && Multiple(past, bs)
    ensures Boundaries(added, start, end, bs)
  {
    hide Multiple;
    forall i | 0 <= i < |added| ensures added[i] < end {
      Steps(added[i], past, bs);
    }
  }

  /** The inner loop of enqueue_bulk: construct the elements from index `cur` up to `stop` in one block. */
  method FillBlock<T>(b: Block<T>, items: seq<T>, start: nat, cur: nat, stop: nat, bs: nat,
                      ghost ring: seq<Block<T>>, ghost bases: seq<nat>, ghost head: nat, ghost contents: seq<T>, ghost i: nat)
    requires bs > 0 && Consecutive(bases, bs) && Distinct(ring) && i < |ring| == |bases| && b == ring[i]
    requires start == head + |contents| && start <= cur <= stop <= start + |items| && bases[i] <= cur <= stop <= bases[i] + bs
    requires AllOk(ring, bs, false, bases, head, contents + items[..cur - start])
    modifies b`elements
    ensures AllOk(ring, bs, false, bases, head, contents + items[..stop - start])
  {
    hide Consecutive, Distinct, AllOk;
    var at := cur;
    while at != stop
      invariant cur <= at <= stop && AllOk(ring, bs, false, bases, head, contents + items[..at - start])
      decreases stop - at
    {
      OffsetIn(bases, bs, i, at);
      ghost var c := contents + items[..at - start];
      assert c + [items[at - start]] == contents + items[..at + 1 - start];
      ConstructAt(items[at - start], b, ring, bases, bs, false, head, c, i, at % bs);
      at := at + 1;
    }
  }

  /** Where the elements for one block stop. */
  lemma Stop(bases: seq<nat>, bs: nat, i: nat, cur: nat, end: nat)
    requires bs > 0 && Consecutive(bases, bs) && i < |bases| && bases[i] <= cur < bases[i] + bs && cur < end
    requires bases[|bases| - 1] < end <= bases[|bases| - 1] + bs
    ensures Down(cur, bs) == bases[i]
    ensures i + 1 < |bases| ==> bases[i] + bs == bases[i + 1] < end
  {
    OffsetIn(bases, bs, i, cur);
    if i + 1 < |bases| - 1 {
      Increasing(bases, bs, i + 1, |bases| - 1);
    }
  }

  class ImplicitProducer<T> {
    const blockSize: nat
    const limit: Option<nat>             // MAX_SUBQUEUE_SIZE, None if it is the largest size_t

    var tailIndex: nat
    var headIndex: nat
    var optimisticCount: nat
    var overcommit: nat
    var tailBlock: Block?<T>             // no longer in use once it has been filled and emptied

    var index: seq<IndexEntry<T>>        // the index's pointers, [] if none could be allocated
    var indexTail: nat
    var nextCapacity: nat

    ghost var ring: seq<Block<T>>        // the blocks in use, oldest first
    ghost var bases: seq<nat>            // the index at which the stretch of each begins
    ghost var contents: seq<T>           // the elements, oldest first

    ghost predicate CountersOk()
      reads `tailIndex, `headIndex, `contents, `optimisticCount, `overcommit
    {
      && tailIndex == headIndex + |contents| && optimisticCount == headIndex + overcommit
      && blockSize > 1 && (limit.Some? ==> Multiple(limit.value, blockSize))
    }

    ghost predicate IndexOk()
      reads `index, `indexTail, `nextCapacity, `ring, `bases, index
    {
      if index == [] then ring == [] && bases == [] && nextCapacity > 1
      else indexTail < |index| && Live(index, indexTail, ring, bases) && nextCapacity == 2 * |index|
    }

    ghost predicate BlocksOk()
      reads `ring, `bases, `headIndex, `contents, ring`elements, ring`emptyFlags, ring`completelyDequeued
    {
      && blockSize > 1 && |ring| == |bases| && Distinct(ring) && Consecutive(bases, blockSize)
      && AllOk(ring, blockSize, false, bases, headIndex, contents)
    }

    ghost predicate Valid()
      reads this, ring, index
    {
      && CountersOk() && IndexOk() && BlocksOk()
      && Spans(bases, blockSize, headIndex, tailIndex) && Limited(bases, blockSize, headIndex, limit)
      && (ring != [] ==> tailBlock == ring[|ring| - 1])
    }

    /** The constructor: the allocation of the index may fail. */
    constructor (blockSize: nat, limit: Option<nat>, initialIndexSize: nat, allocates: bool)
      requires blockSize > 1 && (limit.Some? ==> Multiple(limit.value, blockSize)) && initialIndexSize > 1
      ensures Valid() && contents == [] && ring == [] && this.blockSize == blockSize && this.limit == limit
      ensures if allocates then |index| == initialIndexSize else index == []
      ensures forall e :: e in index ==> fresh(e)
    {
      this.blockSize, this.limit := blockSize, limit;
      tailIndex, headIndex, optimisticCount, overcommit, tailBlock := 0, 0, 0, 0, null;
      index, indexTail, nextCapacity := [], 0, initialIndexSize;
      ring, bases, contents := [], [], [];
      new;
      Times(0, blockSize);
      var ok := NewBlockIndex(allocates);
    }

    /** new_block_index: an index twice as long, that leads to the same blocks. */
    method NewBlockIndex(allocates: bool) returns (ok: bool)
      requires IndexOk()
      modifies `index, `indexTail, `nextCapacity
      ensures IndexOk() && ok == allocates
      ensures ok ==> |index| == old(nextCapacity) && index != [] && |ring| < |index| && forall i :: 0 <= i < |index| ==> index[i] in old(index) || fresh(index[i])
      ensures !ok ==> index == old(index) && indexTail == old(indexTail)
    {
      if !allocates {
        return false;
      }
      index, indexTail := Grow(index, indexTail, nextCapacity, ring, bases);
      nextCapacity := 2 * nextCapacity;
      return true;
    }

    /** insert_block_index_entry: claim an entry for a block at `base`, in a larger index if this one is
        full. */
    method InsertEntry(base: nat, allocates: bool) returns (ok: bool)
      requires IndexOk()
      modifies `index, `indexTail, `nextCapacity, index`key
      ensures ok == (old(index) != [] && (|ring| < old(|index|) || allocates))
      ensures ok ==> index != [] && nextCapacity == 2 * |index| && Pending(index, indexTail, ring, bases, base)
      ensures !ok ==> IndexOk() && index == old(index) && indexTail == old(indexTail)
      ensures ok ==> if |ring| < old(|index|) then index == old(index) && Back(indexTail, |index|, 1) == old(indexTail)
                     else |index| == 2 * old(|index|)
      ensures forall i :: 0 <= i < |index| ==> index[i] in old(index) || fresh(index[i])
    {
      hide Live, Pending, Back, Next;
      if index == [] {
        return false;
      }
      LiveFacts(index, indexTail, ring, bases);
      RoomIffFree(index, indexTail, ring, bases);
      NextBack(indexTail, |index|, 0);
      var idxEntry := index[Next(indexTail, |index|)];
      if !(idxEntry.key == INVALID_BLOCK_BASE || idxEntry.value == null) {
        ok := NewBlockIndex(allocates);
        if !ok {
          return;
        }
      }
      indexTail := Claim(index, indexTail, base, ring, bases);
      return true;
    }

    /** Whether the code refuses to start a block at `base`: it could let the tail pass the head, or
        exceed the size limit. */
    predicate Refused(base: int)
      reads `headIndex
    {
      || base + blockSize - headIndex >= DequeueCounters.HALF
      || (limit.Some? && (limit.value == 0 || limit.value - blockSize < base - headIndex))
    }

    /** It refuses exactly if from the head to the end of that block there would be half the index range, or
        more places than the limit. */
    lemma RefusedExact(base: int)
      requires blockSize > 1
      ensures Refused(base) <==> base + blockSize - headIndex >= 0x8000_0000_0000_0000
                                 || (limit.Some? && base + blockSize - headIndex > limit.value)
                                 || (limit == Some(0))
    {
    }

    /** The sub-queue never holds more than the limit. */
    lemma SizeLimit()
      requires Valid() && limit.Some?
      ensures |contents| <= limit.value
    {
    }

    /** What requisition_block may return: a block in nobody's use. */
    ghost predicate Spare(b: Block<T>)
      reads this, b
    {
      b !in ring && b.Formed() && b.size == blockSize && !b.flags && b.Vacant()
    }

    /** Take a block into use for the stretch at `base`. `spare` is what requisition_block returns and
        `allocates` whether an index can be allocated; on failure everything is as before, but for an
        index that may have been allocated on the way. */
    method AddBlock(base: nat, spare: Block?<T>, allocates: bool) returns (ok: bool)
      requires IndexOk() && BlocksOk() && Multiple(base, blockSize) && headIndex + |contents| <= base
      requires bases != [] ==> base == bases[|bases| - 1] + blockSize
      requires spare != null ==> Spare(spare)
      modifies `index, `indexTail, `nextCapacity, `ring, `bases, index`key, index`value
      modifies (if spare == null then {} else {spare})`emptyFlags, (if spare == null then {} else {spare})`completelyDequeued
      ensures IndexOk() && BlocksOk()
      ensures ok == (!Refused(base) && spare != null && old(index) != [] && (old(|ring| < |index|) || allocates))
      ensures !Refused(base) <==> base + blockSize - headIndex < 0x8000_0000_0000_0000
                                  && (limit.Some? ==> base + blockSize - headIndex <= limit.value)
      ensures ok ==> ring == old(ring) + [spare] && bases == old(bases) + [base] && index != []
      ensures !ok ==> ring == old(ring) && bases == old(bases)
      ensures index != [] ==> indexTail < |index|
      ensures old(index) != [] ==> index != []
      ensures old(|ring| < |index|) || !allocates ==> index == old(index)
      ensures index == old(index) || (old(|ring| >= |index| > 0) && |index| == 2 * old(|index|))
      ensures ok && old(|ring| >= |index|) ==> |index| == 2 * old(|index|)
      ensures index == old(index) && index != [] ==> (if ok then Back(indexTail, |index|, 1) else indexTail) == old(indexTail)
      ensures spare != null ==> spare.Formed() && spare.Vacant()
      ensures forall i :: 0 <= i < |index| ==> index[i] in old(index) || fresh(index[i])
    {
      hide Live, Pending, Consecutive, AllOk, BlockOk, Holds, Distinct, Back, Next, Multiple, All, Below, Stretch, Refused;
      RefusedExact(base);
      if Refused(base) {
        return false;
      }
      ok := InsertEntry(base, allocates);
      if !ok {
        return;
      }
      if spare == null {
        PendingTail(index, indexTail, ring, bases, base);
        indexTail := Cancel(index, indexTail, base, ring, bases);
        return false;
      }
      TakeIn(spare, base);
    }

    /** With an entry claimed, give it the block. */
    method TakeIn(spare: Block<T>, base: nat)
      requires index != [] && nextCapacity == 2 * |index| && Pending(index, indexTail, ring, bases, base)
      requires BlocksOk() && Spare(spare) && headIndex + |contents| <= base
      requires Multiple(base, blockSize) && (bases != [] ==> base == bases[|bases| - 1] + blockSize)
      modifies `ring, `bases, index`value, spare`emptyFlags, spare`completelyDequeued
      ensures IndexOk() && BlocksOk() && ring == old(ring) + [spare] && bases == old(bases) + [base]
      ensures indexTail < |index| && spare.Formed() && spare.Vacant()
    {
      hide Live, Pending, Consecutive, AllOk, BlockOk, Holds, Distinct, Multiple, All, Below, Stretch;
      spare.ResetEmpty();
      NotInvalid(base, blockSize);
      PendingTail(index, indexTail, ring, bases, base);
      Fill(index, indexTail, base, spare, ring, bases);
      Join(spare, base);
    }

    /** The blocks' part of that. */
    ghost method Join(spare: Block<T>, base: nat)
      requires BlocksOk() && Spare(spare) && spare.Completed({}) && headIndex + |contents| <= base
      requires Multiple(base, blockSize) && (bases != [] ==> base == bases[|bases| - 1] + blockSize)
      modifies `ring, `bases
      ensures BlocksOk() && ring == old(ring) + [spare] && bases == old(bases) + [base]
    {
      hide Consecutive, AllOk, BlockOk, Holds, Multiple;
      NewlyVacant(spare, blockSize, base, headIndex, contents);
      InPlace(spare, blockSize, false, base, headIndex, contents);
      AllOkAdd(ring, blockSize, false, bases, headIndex, contents, spare, base);
      AnotherBase(bases, blockSize, base);
      ring, bases := ring + [spare], bases + [base];
    }

    lemma TailFacts()
      requires Valid()
      ensures Multiple(tailIndex, blockSize) <==> tailIndex % blockSize == 0
      ensures Multiple(tailIndex, blockSize) <==> bases == [] || tailIndex == bases[|bases| - 1] + blockSize
      ensures !Multiple(tailIndex, blockSize) ==>
                ring != [] && tailBlock == ring[|ring| - 1] && tailIndex % blockSize == tailIndex - bases[|bases| - 1] < blockSize
    {
      AtBoundary(bases, blockSize, headIndex, tailIndex);
    }

    /** enqueue: on success the element joins at the end and exactly the block of a new stretch comes into
        use; on failure nothing has changed. */
    method Enqueue(x: T, spare: Block?<T>, allocates: bool) returns (ok: bool)
      requires Valid() && (spare != null ==> Spare(spare))
      modifies this, index, ring, spare
      ensures Valid() && contents == (if ok then old(contents) + [x] else old(contents))
      ensures headIndex == old(headIndex) && tailIndex == old(tailIndex) + (if ok then 1 else 0)
      ensures ok == (!Multiple(old(tailIndex), blockSize)
                     || (&& |old(contents)| + blockSize < 0x8000_0000_0000_0000
                         && (limit.Some? ==> |old(contents)| + blockSize <= limit.value)
                         && spare != null && old(index) != [] && (old(|ring| < |index|) || allocates)))
      ensures ring == if ok && Multiple(old(tailIndex), blockSize) then old(ring) + [spare] else old(ring)
      ensures !ok ==> tailBlock == old(tailBlock) && bases == old(bases) && forall b :: b in ring && b != spare ==> unchanged(b)
      ensures forall i :: 0 <= i < |index| ==> index[i] in old(index) || fresh(index[i])
    {
      hide Spans, IndexOk, AllOk, Multiple, Consecutive, Distinct;
      TailFacts();
      ghost var boundary := Multiple(tailIndex, blockSize);
      if tailIndex % blockSize == 0 {
        SpansFacts(bases, blockSize, headIndex, tailIndex);
        ok := AddBlock(tailIndex, spare, allocates);
        if !ok {
          return;
        }
        tailBlock := spare;
      }
      ok := true;
      Append(x, old(bases));
    }

    /** Construct the element where the tail is. */
    method Append(x: T, ghost before: seq<nat>)
      requires CountersOk() && BlocksOk() && ring != [] && tailBlock == ring[|ring| - 1] && Spans(before, blockSize, headIndex, tailIndex)
      requires bases == if Multiple(tailIndex, blockSize) then before + [tailIndex] else before
      modifies `tailIndex, `contents, tailBlock`elements
      ensures CountersOk() && BlocksOk() && Spans(bases, blockSize, headIndex, tailIndex)
      ensures contents == old(contents) + [x] && tailIndex == old(tailIndex) + 1
    {
      hide Spans, AllOk, Multiple, Consecutive, Distinct;
      SpansGrow(before, bases, blockSize, headIndex, tailIndex);
      ConstructAt(x, tailBlock, ring, bases, blockSize, false, headIndex, contents, |ring| - 1, tailIndex % blockSize);
      tailIndex := tailIndex + 1;
      contents := contents + [x];
    }

    /** What a dequeue does once it has claimed index `x`. */
    method TakeHead(x: nat) returns (v: T, released: Block?<T>)
      requires IndexOk() && blockSize > 1 && |ring| == |bases| && Distinct(ring) && Consecutive(bases, blockSize)
      requires AllOk(ring, blockSize, false, bases, x, contents) && contents != [] && headIndex == x + 1
      requires bases != [] && bases[0] <= x < bases[0] + blockSize
      modifies this`contents, this`ring, this`bases, index, ring
      ensures IndexOk() && BlocksOk() && v == old(contents[0]) && contents == old(contents[1..])
      ensures if x + 1 == old(bases[0]) + blockSize then
                released != null && old(ring) == [released] + ring && bases == old(bases[1..]) && released.Formed() && released.Vacant()
              else released == null && ring == old(ring) && bases == old(bases)
    {
      hide Live, AllOk, BlockOk, Multiple, Distinct, Holds, Consecutive;
      released := null;
      LiveFacts(index, indexTail, ring, bases);
      FirstToLast(bases, blockSize, x);
      var e;
      ghost var i;
      e, i := FindEntry(index, indexTail, blockSize, x, ring, bases);
      First(bases, blockSize, i, x);
      var block := e.value;
      var empty;
      v, empty := DestroyAt(block, ring, bases, blockSize, false, x, contents, 0);
      contents := contents[1..];
      if empty {
        ReleaseFirst(e, block);
        released := block;
      }
    }

    /** The first block is empty: take it out of the index. */
    method ReleaseFirst(e: IndexEntry<T>, ghost block: Block<T>)
      requires IndexOk() && BlocksOk() && ring != [] && ring[0] == block && bases[0] + blockSize <= headIndex
      requires index != [] && indexTail < |index| && |ring| <= |index| && e == Slot(index, indexTail, |ring| - 1)
      modifies this`ring, this`bases, e`value
      ensures IndexOk() && BlocksOk() && old(ring) == [block] + ring && bases == old(bases[1..])
      ensures block.Formed() && block.Vacant()
    {
      hide Live, AllOk, BlockOk, Multiple, Consecutive;
      AllOkDrop(ring, blockSize, false, bases, headIndex, contents);
      AllGone(block, blockSize, false, bases[0], headIndex, contents);
      Rest(bases, blockSize);
      Release(index, indexTail, e, ring, bases);
      ring, bases := ring[1..], bases[1..];
    }

    /** dequeue: it returns the oldest element, and fails only if there is none. The block whose last
        element this was, and only that, goes back to the pool, holding nothing. */
    method Dequeue() returns (r: Option<T>, released: Block?<T>)
      requires Valid()
      modifies this`headIndex, this`optimisticCount, this`overcommit, this`contents, this`ring, this`bases, index, ring
      ensures Valid() && tailIndex == old(tailIndex)
      ensures old(contents) == [] ==> r == None && contents == [] && headIndex == old(headIndex)
      ensures old(contents) != [] ==> r == Some(old(contents[0])) && contents == old(contents[1..])
      ensures old(contents) != [] && Multiple(headIndex, blockSize) ==>
                released != null && old(ring) == [released] + ring && released.Formed() && released.Vacant()
      ensures old(contents) == [] || !Multiple(headIndex, blockSize) ==> released == null && ring == old(ring)
    {
      hide Spans, IndexOk, AllOk, Multiple, Consecutive, Distinct;
      released := null;
      if optimisticCount - overcommit < tailIndex {
        var myDequeueCount := optimisticCount;
        optimisticCount := optimisticCount + 1;
        if myDequeueCount - overcommit < tailIndex {
          var index := headIndex;
          HeadLeaves(bases, blockSize, headIndex, tailIndex);
          headIndex := headIndex + 1;
          var x;
          x, released := TakeHead(index);
          return Some(x), released;
        } else {
          assert false;
        }
      }
      return None, null;
    }

    /** One round of the allocating loop of enqueue_bulk: a block for the stretch at `base`, linked to the
        one before it if that one is to be filled by this call. */
    method Extend(base: nat, spare: Block?<T>, allocates: bool, linked: bool, ghost from: nat) returns (ok: bool)
      requires IndexOk() && BlocksOk() && Multiple(base, blockSize) && headIndex + |contents| <= base
      requires bases != [] ==> base == bases[|bases| - 1] + blockSize
      requires spare != null ==> Spare(spare)
      requires from <= |ring| && Chain(ring, from) && linked == (from < |ring|) && (linked ==> tailBlock == ring[|ring| - 1])
      modifies `index, `indexTail, `nextCapacity, `ring, `bases, `tailBlock, index`key, index`value, ring`next
      modifies (if spare == null then {} else {spare})`emptyFlags, (if spare == null then {} else {spare})`completelyDequeued, (if spare == null then {} else {spare})`next
      ensures IndexOk() && BlocksOk() && Chain(ring, from)
      ensures ok == (!Refused(base) && spare != null && old(index) != [] && (old(|ring| < |index|) || allocates))
      ensures ok ==> ring == old(ring) + [spare] && bases == old(bases) + [base] && index != []
      ensures ok ==> tailBlock == spare && spare.next == null
      ensures !ok ==> ring == old(ring) && bases == old(bases) && tailBlock == old(tailBlock)
      ensures !ok ==> forall i :: 0 <= i < |ring| ==> ring[i].next == old(ring[i].next)
      ensures index != [] ==> indexTail < |index|
      ensures old(index) != [] ==> index != []
      ensures old(|ring| < |index|) || !allocates ==> index == old(index)
      ensures index == old(index) || (old(|ring| >= |index| > 0) && |index| == 2 * old(|index|))
      ensures ok && old(|ring| >= |index|) ==> |index| == 2 * old(|index|)
      ensures index == old(index) && index != [] ==> (if ok then Back(indexTail, |index|, 1) else indexTail) == old(indexTail)
      ensures spare != null ==> spare.Formed() && spare.Vacant()
      ensures forall i :: 0 <= i < |index| ==> index[i] in old(index) || fresh(index[i])
    {
      hide IndexOk, Multiple, Consecutive, AllOk, Back, Refused;
      ok := AddBlock(base, spare, allocates);
      if ok {
        spare.next := null;
        if linked {
          tailBlock.next := spare;
        }
        tailBlock := spare;
      }
    }

    /** What of the bulk call's state the allocating loop keeps. */
    ghost predicate Prepared(n: nat, from: nat)
      reads this, index, ring
    {
      && IndexOk() && BlocksOk() && n <= |ring| && from <= |ring| && Chain(ring, from)
      && (from < |ring| ==> tailBlock == ring[|ring| - 1])
      && (n < |ring| ==> index != [] && from <= n && ring[|ring| - 1].next == null)
    }

    /** Undo the allocations: take the blocks from position `n` on out of the index, walking their links,
        and put the index's tail back. `x` is the base before theirs. */
    method RollBack(first: Block?<T>, x: int, ghost n: nat, ghost from: nat)
      requires Prepared(n, from) && first == (if n < |ring| then ring[n] else null) && (n < |ring| ==> x + blockSize == bases[n])
      modifies `indexTail, `ring, `bases, index`value
      ensures IndexOk() && BlocksOk() && ring == old(ring[..n]) && bases == old(bases[..n])
      ensures index != [] ==> var m := old(|ring|) - n; indexTail == if m < |index| then Back(old(indexTail), |index|, m) else old(indexTail)
    {
      hide Live, Undoing, Multiple, Consecutive, AllOk, BlockOk, Holds, Back;
      if first == null {
        assert ring[..n] == ring && bases[..n] == bases;
        if index != [] {
          BackNone(indexTail, |index|);
        }
        return;
      }
      LiveFacts(index, indexTail, ring, bases);
      UndoStarts(index, indexTail, ring, bases, n);
      BackNone(indexTail, |index|);
      ghost var r, top := 0, indexTail;
      var block, base := first, x;
      while block != null
        invariant r <= |ring| - n && block == (if n + r < |ring| then ring[n + r] else null)
        invariant Undoing(index, top, ring, bases, n, r)
        invariant indexTail < |index| && indexTail == if r < |index| then Back(top, |index|, r) else top
        invariant n + r < |ring| ==> base + blockSize == bases[n + r]
        modifies `indexTail, index`value
        decreases |ring| - n - r
      {
        base := base + blockSize;
        UndoNext(bases, blockSize, n + r);
        indexTail := Undo(index, indexTail, blockSize, base, top, ring, bases, n, r);
        r := r + 1;
        block := block.next;
      }
      UndoEnds(index, top, indexTail, ring, bases, n);
      Prefix(n);
      ring, bases := ring[..n], bases[..n];
    }

    lemma Prefix(n: nat)
      requires BlocksOk() && n <= |ring|
      ensures Distinct(ring[..n]) && Consecutive(bases[..n], blockSize)
      ensures AllOk(ring[..n], blockSize, false, bases[..n], headIndex, contents)
    {
    }

    /** How far the allocating loop has come: it has taken the first `used` spare blocks into use, for the
        block boundaries from the tail up to `next`. */
    ghost predicate Allocated(ring0: seq<Block<T>>, bases0: seq<nat>, spares: seq<Block<T>>, used: nat, next: nat)
      reads `ring, `bases, `tailIndex
    {
      && blockSize > 0 && used <= |spares| && ring == ring0 + spares[..used]
      && bases0 <= bases && |bases| == |bases0| + used && |ring0| == |bases0|
      && Multiple(next, blockSize) && tailIndex <= next
      && (bases != [] ==> next == bases[|bases| - 1] + blockSize)
      && Boundaries(bases[|bases0|..], tailIndex, next, blockSize)
      && (used > 0 ==> used <= next - tailIndex)
    }

    ghost predicate AllSpare(spares: seq<Block<T>>, from: nat)
      reads this, spares
    {
      forall j :: from <= j < |spares| ==> Spare(spares[j])
    }

    ghost predicate AllVacant(spares: seq<Block<T>>)
      reads spares`elements, spares`emptyFlags
    {
      forall j :: 0 <= j < |spares| ==> spares[j].Formed() && spares[j].Vacant() && spares[j].size == blockSize && !spares[j].flags
    }

    /** One more. */
    lemma AllocatedMore(ring0: seq<Block<T>>, bases0: seq<nat>, spares: seq<Block<T>>, used: nat, next: nat,
                        before: seq<Block<T>>, basesBefore: seq<nat>)
      requires blockSize > 0 && used < |spares| && before == ring0 + spares[..used] && ring == before + [spares[used]]
      requires bases0 <= basesBefore && |basesBefore| == |bases0| + used && bases == basesBefore + [next] && |ring0| == |bases0|
      requires Multiple(next, blockSize) && tailIndex <= next && Boundaries(basesBefore[|bases0|..], tailIndex, next, blockSize)
      requires used > 0 ==> used <= next - tailIndex
      ensures Allocated(ring0, bases0, spares, used + 1, next + blockSize)
    {
      hide Multiple, Boundaries;
      assert spares[..used + 1] == spares[..used] + [spares[used]];
      assert bases[|bases0|..] == basesBefore[|bases0|..] + [next];
      BoundariesMore(basesBefore[|bases0|..], tailIndex, next, blockSize);
      Itself(blockSize);
      Sum(next, blockSize, blockSize);
    }

    /** One round of the loop. */
    method AllocateOne(base: nat, spares: seq<Block<T>>, used: nat, allocates: bool, linked: bool,
                       ghost ring0: seq<Block<T>>, ghost bases0: seq<nat>, ghost from: nat) returns (ok: bool)
      requires Prepared(|ring0|, from) && Allocated(ring0, bases0, spares, used, base) && Distinct(spares) && AllSpare(spares, used)
      requires AllVacant(spares) && headIndex + |contents| == tailIndex && linked == (from < |ring|) && from <= |ring0|
      modifies `index, `indexTail, `nextCapacity, `ring, `bases, `tailBlock, index`key, index`value, ring`next
      modifies spares`emptyFlags, spares`completelyDequeued, spares`next
      ensures ok ==> Prepared(|ring0|, from) && Allocated(ring0, bases0, spares, used + 1, base + blockSize) && AllSpare(spares, used + 1)
      ensures ok ==> bases == old(bases) + [base]
      ensures old(index) != [] ==> index != []
      ensures AllVacant(spares)
      ensures !ok ==> Prepared(|ring0|, from) && ring == old(ring) && bases == old(bases) && AllSpare(spares, used)
      ensures ok == (!Refused(base) && used < |spares| && old(index) != [] && (old(|ring| < |index|) || allocates))
      ensures old(|ring| < |index|) || !allocates ==> index == old(index)
      ensures index == old(index) || (old(|ring| >= |index| > 0) && |index| == 2 * old(|index|))
      ensures ok && old(|ring| >= |index|) ==> |index| == 2 * old(|index|)
      ensures index == old(index) && index != [] ==> indexTail < |index| && (if ok then Back(indexTail, |index|, 1) else indexTail) == old(indexTail)
      ensures forall i :: 0 <= i < |index| ==> index[i] in old(index) || fresh(index[i])
    {
      hide IndexOk, BlocksOk, Multiple, Boundaries, Back, Refused;
      var spare := if used < |spares| then spares[used] else null;
      ghost var before, basesBefore := ring, bases;
      PreparedFacts(|ring0|, from);
      ok := Extend(base, spare, allocates, linked, from);
      if ok {
        AllocatedMore(ring0, bases0, spares, used, base, before, basesBefore);
      }
    }

    lemma PreparedFacts(n: nat, from: nat)
      requires Prepared(n, from)
      ensures IndexOk() && BlocksOk() && |ring| == |bases|
    {
    }

    /** The second half of enqueue_bulk: construct the elements, one block after the other, from the
        `from`th on. */
    method FillBlocks(items: seq<T>, endBlock: Block?<T>, ghost from: nat)
      requires BlocksOk() && ring != [] && endBlock == ring[|ring| - 1]
      requires items != [] && from < |ring| && Chain(ring, from) && tailBlock == ring[from]
      requires tailIndex == headIndex + |contents| && bases[from] <= tailIndex < bases[from] + blockSize
      requires bases[|bases| - 1] < tailIndex + |items| <= bases[|bases| - 1] + blockSize
      modifies this`tailBlock, this`tailIndex, this`contents, ring`elements
      ensures BlocksOk() && tailIndex == old(tailIndex) + |items| && contents == old(contents) + items
      ensures tailBlock == ring[|ring| - 1]
    {
      hide Consecutive, AllOk, Down;
      var newTailIndex, cur := tailIndex + |items|, tailIndex;
      ghost var i, start := from, tailIndex;
      assert contents + items[..0] == contents;
      while true
        invariant from <= i < |ring| && tailBlock == ring[i] && bases[i] <= cur < bases[i] + blockSize && start <= cur < newTailIndex
        invariant AllOk(ring, blockSize, false, bases, headIndex, contents + items[..cur - start])
        modifies `tailBlock, ring`elements
        decreases |ring| - i
      {
        Stop(bases, blockSize, i, cur, newTailIndex);
        var stopIndex := Down(cur, blockSize) + blockSize;
        if newTailIndex < stopIndex {
          stopIndex := newTailIndex;
        }
        FillBlock(tailBlock, items, tailIndex, cur, stopIndex, blockSize, ring, bases, headIndex, contents, i);
        cur := stopIndex;
        if tailBlock == endBlock {
          break;
        }
        tailBlock := tailBlock.next;
        i := i + 1;
      }
      assert items[..cur - start] == items;
      tailIndex := newTailIndex;
      contents := contents + items;
    }

    /** The state of the allocating loop. */
    ghost predicate Allocating(ring0: seq<Block<T>>, bases0: seq<nat>, spares: seq<Block<T>>, used: nat, next: nat, from: nat,
                               first: Block?<T>, start: nat)
      reads this, index, ring, spares
    {
      && |ring0| == |bases0| && from <= |ring0| && Distinct(spares) && headIndex + |contents| == tailIndex
      && Prepared(|ring0|, from) && Allocated(ring0, bases0, spares, used, next)
      && AllSpare(spares, used) && AllVacant(spares)
      && first == (if used > 0 then spares[0] else null)
      && (used > 0 ==> bases[|bases0|] == start) && (used == 0 ==> next == start)
    }

    /** Before the loop. */
    lemma AllocatingStarts(spares: seq<Block<T>>, from: nat, start: nat)
      requires Valid() && AllSpare(spares, 0) && Distinct(spares) && Chain(ring, from)
      requires from == if Multiple(tailIndex, blockSize) then |ring| else |ring| - 1
      requires Multiple(start, blockSize) && tailIndex <= start < tailIndex + blockSize && (Multiple(tailIndex, blockSize) ==> start == tailIndex)
      ensures Allocating(ring, bases, spares, 0, start, from, null, start)
      ensures from < |ring| <==> tailIndex % blockSize != 0
    {
      hide Multiple, IndexOk, AllOk, Consecutive, Spans, Boundaries, Distinct, All, Below, Stretch;
      TailFacts();
      assert ring + spares[..0] == ring;
      assert bases[|bases|..] == [];
      BoundariesNone(tailIndex, start, start, blockSize);
      if bases != [] {
        NextBoundary(bases, blockSize, headIndex, tailIndex, start);
      }
    }

    lemma NotAmong(ring0: seq<Block<T>>, spares: seq<Block<T>>, used: nat)
      requires BlocksOk() && used <= |spares| && ring == ring0 + spares[..used] && AllSpare(spares, used)
      ensures forall j :: 0 <= j < |spares| ==> spares[j] !in ring0
    {
      DistinctParts(ring0, spares[..used]);
      forall j | 0 <= j < |spares| ensures spares[j] !in ring0 {
        if j < used {
          assert spares[..used][j] == spares[j];
        } else {
          assert Spare(spares[j]);
        }
      }
    }

    /** An allocation has failed: undo those before it. */
    method GiveUp(first: Block?<T>, x: int, startBlock: Block?<T>, ghost ring0: seq<Block<T>>, ghost bases0: seq<nat>,
                  ghost spares: seq<Block<T>>, ghost used: nat, ghost next: nat, ghost from: nat, ghost start: nat)
      requires Allocating(ring0, bases0, spares, used, next, from, first, start) && x + blockSize == start
      requires CountersOk() && Spans(bases0, blockSize, headIndex, tailIndex) && (ring0 != [] ==> startBlock == ring0[|ring0| - 1])
      requires Limited(bases0, blockSize, headIndex, limit)
      modifies `indexTail, `ring, `bases, `tailBlock, index`value
      ensures Valid() && ring == ring0 && bases == bases0 && tailBlock == startBlock && AllSpare(spares, 0)
      ensures index != [] ==> indexTail == if used < |index| then Back(old(indexTail), |index|, used) else old(indexTail)
    {
      hide Valid, Prepared, BlocksOk, Boundaries, Back, Spans, Multiple, CountersOk, IndexOk, Limited;
      PreparedFacts(|ring0|, from);
      NotAmong(ring0, spares, used);
      Revert(first, x, startBlock, ring0, bases0, from);
    }

    method Revert(first: Block?<T>, x: int, startBlock: Block?<T>, ghost ring0: seq<Block<T>>, ghost bases0: seq<nat>, ghost from: nat)
      requires |ring0| == |bases0| && ring0 <= ring && bases0 <= bases && |ring| == |bases| && Prepared(|ring0|, from)
      requires first == (if |ring0| < |ring| then ring[|ring0|] else null) && (|ring0| < |ring| ==> x + blockSize == bases[|ring0|])
      requires CountersOk() && Spans(bases0, blockSize, headIndex, tailIndex) && (ring0 != [] ==> startBlock == ring0[|ring0| - 1])
      requires Limited(bases0, blockSize, headIndex, limit)
      modifies `indexTail, `ring, `bases, `tailBlock, index`value
      ensures Valid() && ring == ring0 && bases == bases0 && tailBlock == startBlock
      ensures index != [] ==>
                var m := old(|ring|) - |ring0|; indexTail == if m < |index| then Back(old(indexTail), |index|, m) else old(indexTail)
    {
      hide IndexOk, BlocksOk, Back, Spans, Prepared, Limited;
      assert ring[..|ring0|] == ring0 && bases[..|bases0|] == bases0;
      RollBack(first, x, |ring0|, from);
      tailBlock := startBlock;
    }

    lemma OrderedFacts()
      requires Valid()
      ensures headIndex <= tailIndex && blockSize > 1
    {
    }

    lemma TailKeptStarts()
      requires Valid()
      ensures TailKept(index, indexTail, 0) && blockSize > 1
    {
    }

    lemma RewindsOne(ring0: seq<Block<T>>, bases0: seq<nat>, spares: seq<Block<T>>, used: nat, next: nat, from: nat, tail: nat, tail0: nat)
      requires Prepared(|ring0|, from) && Allocated(ring0, bases0, spares, used + 1, next)
      requires index != [] && Rewinds(|index|, tail, tail0, used) && Back(indexTail, |index|, 1) == tail
      ensures Rewinds(|index|, indexTail, tail0, used + 1)
    {
      RewindsMore(|index|, tail, tail0, used, indexTail);
    }

    /** As long as no larger index was allocated, the index's tail can be put back. */
    ghost predicate TailKept(index0: seq<IndexEntry<T>>, tail0: nat, used: nat)
      reads `index, `indexTail
    {
      && (index == index0 || |index| > |index0|)
      && (index == index0 && index != [] ==> Rewinds(|index|, indexTail, tail0, used))
    }

    /** One round of the loop, with all that it keeps. */
    method AllocateNext(base: nat, spares: seq<Block<T>>, used: nat, allocates: bool, first: Block?<T>, ghost ring0: seq<Block<T>>,
                        ghost bases0: seq<nat>, ghost from: nat, ghost start: nat, ghost index0: seq<IndexEntry<T>>, ghost tail0: nat)
      returns (ok: bool, first': Block?<T>)
      requires Allocating(ring0, bases0, spares, used, base, from, first, start)
      requires from < |ring0| <==> tailIndex % blockSize != 0
      requires TailKept(index0, tail0, used)
      modifies `index, `indexTail, `nextCapacity, `ring, `bases, `tailBlock, index`key, index`value, ring`next
      modifies spares`emptyFlags, spares`completelyDequeued, spares`next
      ensures ok ==> Allocating(ring0, bases0, spares, used + 1, base + blockSize, from, first', start)
      ensures ok ==> used < |spares| && ring == old(ring) + [spares[used]]
      ensures ok == (!Refused(base) && used < |spares| && old(index) != [] && (old(|ring| < |index|) || allocates))
      ensures ok ==> index != [] && |index| == if old(|ring| < |index|) then old(|index|) else 2 * old(|index|)
      ensures !ok ==> Allocating(ring0, bases0, spares, used, base, from, first, start) && ring == old(ring) && first' == first
      ensures !allocates ==> index == old(index)
      ensures TailKept(index0, tail0, if ok then used + 1 else used)
      ensures forall i :: 0 <= i < |index| ==> index[i] in old(index) || fresh(index[i])
    {
      hide IndexOk, BlocksOk, Multiple, Boundaries, Back, Refused, Prepared, Rewinds;
      ghost var tail, before := indexTail, index;
      ok := AllocateOne(base, spares, used, allocates, first != null || tailIndex % blockSize != 0, ring0, bases0, from);
      first' := first;
      if ok {
        first' := if first == null then spares[used] else first;
        if index == index0 {
          assert before == index0;
          RewindsOne(ring0, bases0, spares, used, base + blockSize, from, tail, tail0);
        }
      }
    }

    lemma TailPutBack(index0: seq<IndexEntry<T>>, tail0: nat, used: nat)
      requires TailKept(index0, tail0, used) && index == index0 && index != []
      ensures tail0 == if used < |index| then Back(indexTail, |index|, used) else indexTail
    {
    }

    /** Whether `needed` blocks, the last of them at `last`, can come into use, when `blocks` blocks can be
        had and so many index allocations: the last one is not refused (so none before it is), and there
        are enough blocks, and enough entries in the index that results. */
    predicate Enough(last: int, needed: nat, blocks: nat, inUse: nat, size: nat, allocations: nat)
      reads `headIndex
    {
      !Refused(last) && needed <= blocks && size > 0 && inUse + needed <= Capacity(size, allocations)
    }

    /** Whether `count` more elements can be enqueued at once. */
    ghost predicate Possible(count: nat, blocks: nat, allocations: nat)
      reads `tailIndex, `headIndex, `ring, `index
      requires blockSize > 0
    {
      var needed := BlocksNeeded(tailIndex, count, blockSize);
      needed == 0 || Enough(Down(tailIndex + count - 1, blockSize), needed, blocks, |ring|, |index|, allocations)
    }

    /** What the allocating loop has used up when it is at `base`, with `diff` to go. */
    ghost predicate Counting(base: int, diff: int, used: nat, needed: nat, left: nat, size0: nat, allocations: nat)
      reads `headIndex, `index
      requires blockSize > 0
    {
      && needed == used + Rounds(diff, blockSize) && left <= allocations
      && Capacity(|index|, left) == Capacity(size0, allocations) && (size0 > 0 <==> index != [])
      && (used > 0 ==> size0 > 0 && !Refused(base))
    }

    /** One round, and what it uses up. */
    method AllocateRound(base: nat, diff: int, spares: seq<Block<T>>, used: nat, left: nat, first: Block?<T>, ghost ring0: seq<Block<T>>,
                         ghost bases0: seq<nat>, ghost from: nat, ghost start: nat, ghost index0: seq<IndexEntry<T>>, ghost tail0: nat,
                         ghost needed: nat, ghost allocations: nat, ghost last: int)
      returns (ok: bool, first': Block?<T>, left': nat)
      requires Allocating(ring0, bases0, spares, used, base, from, first, start) && diff >= blockSize > 0 && base <= last
      requires from < |ring0| <==> tailIndex % blockSize != 0
      requires TailKept(index0, tail0, used) && Counting(base - blockSize, diff, used, needed, left, |index0|, allocations)
      modifies `index, `indexTail, `nextCapacity, `ring, `bases, `tailBlock, index`key, index`value, ring`next
      modifies spares`emptyFlags, spares`completelyDequeued, spares`next
      ensures ok ==> Allocating(ring0, bases0, spares, used + 1, base + blockSize, from, first', start)
      ensures ok ==> used < |spares| && ring == old(ring) + [spares[used]]
      ensures ok ==> Counting(base, diff - blockSize, used + 1, needed, left', |index0|, allocations)
      ensures !ok ==> Allocating(ring0, bases0, spares, used, base, from, first, start) && ring == old(ring) && first' == first
      ensures !ok ==> needed > 0 && !Enough(last, needed, |spares|, |ring0|, |index0|, allocations)
      ensures allocations == 0 ==> index == old(index)
      ensures TailKept(index0, tail0, if ok then used + 1 else used)
      ensures forall i :: 0 <= i < |index| ==> index[i] in old(index) || fresh(index[i])
    {
      hide TailKept, Refused, Allocating;
      AllocatingFits(ring0, bases0, spares, used, base, from, first, start);
      var size := |index|;
      ok, first' := AllocateNext(base, spares, used, left > 0, first, ring0, bases0, from, start, index0, tail0);
      left' := if |index| != size && left > 0 then left - 1 else left;
      if !ok {
        RoundFails(base, last, used, needed, |ring0|, |spares|, left, size, allocations, |index0|);
      }
    }

    /** One round, or all rounds before it undone. */
    method RoundOrNone(base: nat, diff: int, x: int, startBlock: Block?<T>, spares: seq<Block<T>>, used: nat, left: nat, first: Block?<T>,
                       ghost ring0: seq<Block<T>>, ghost bases0: seq<nat>, ghost from: nat, ghost start: nat,
                       ghost index0: seq<IndexEntry<T>>, ghost tail0: nat, ghost needed: nat, ghost allocations: nat, ghost last: int)
      returns (ok: bool, first': Block?<T>, left': nat)
      requires Allocating(ring0, bases0, spares, used, base, from, first, start) && diff >= blockSize > 0 && base <= last
      requires from < |ring0| <==> tailIndex % blockSize != 0
      requires TailKept(index0, tail0, used) && Counting(base - blockSize, diff, used, needed, left, |index0|, allocations)
      requires CountersOk() && Spans(bases0, blockSize, headIndex, tailIndex) && (ring0 != [] ==> startBlock == ring0[|ring0| - 1])
      requires x + blockSize == start && Limited(bases0, blockSize, headIndex, limit)
      modifies `index, `indexTail, `nextCapacity, `ring, `bases, `tailBlock, index`key, index`value, ring`next
      modifies spares`emptyFlags, spares`completelyDequeued, spares`next
      ensures ok ==> Allocating(ring0, bases0, spares, used + 1, base + blockSize, from, first', start)
      ensures ok ==> used < |spares| && ring == old(ring) + [spares[used]]
      ensures ok ==> Counting(base, diff - blockSize, used + 1, needed, left', |index0|, allocations)
      ensures ok ==> TailKept(index0, tail0, used + 1) && CountersOk()
      ensures !ok ==> Valid() && ring == ring0 && bases == bases0 && tailBlock == startBlock && AllSpare(spares, 0)
      ensures !ok && index == index0 && index != [] ==> indexTail == tail0
      ensures !ok ==> needed > 0 && !Enough(last, needed, |spares|, |ring0|, |index0|, allocations)
      ensures allocations == 0 ==> index == old(index)
      ensures forall i :: 0 <= i < |index| ==> index[i] in old(index) || fresh(index[i])
    {
      hide TailKept, Counting, Enough, Allocating, Spans, AllSpare, Rounds, IndexOk, BlocksOk, CountersOk, Limited;
      ok, first', left' := AllocateRound(base, diff, spares, used, left, first, ring0, bases0, from, start, index0, tail0, needed, allocations, last);
      if !ok {
        if index == index0 && index != [] {
          TailPutBack(index0, tail0, used);
        }
        GiveUp(first, x, startBlock, ring0, bases0, spares, used, base, from, start);
      }
    }

    /** The first half of enqueue_bulk: a block for every block boundary in the range, or none. */
    method Allocate(count: nat, spares: seq<Block<T>>, allocations: nat, ghost from: nat)
      returns (ok: bool, first: Block?<T>, ghost used: nat, ghost next: nat, ghost start: nat)
      requires Valid() && count > 0 && Distinct(spares) && AllSpare(spares, 0) && Chain(ring, from)
      requires from == if Multiple(tailIndex, blockSize) then |ring| else |ring| - 1
      modifies `index, `indexTail, `nextCapacity, `ring, `bases, `tailBlock, index`key, index`value, ring`next
      modifies spares`emptyFlags, spares`completelyDequeued, spares`next
      ensures !ok ==> Valid() && ring == old(ring) && bases == old(bases) && tailBlock == old(tailBlock) && AllSpare(spares, 0)
      ensures ok ==> next - blockSize < tailIndex + count <= next && used == BlocksNeeded(tailIndex, count, blockSize)
      ensures ok ==> Allocating(old(ring), old(bases), spares, used, next, from, first, start) && (Multiple(tailIndex, blockSize) ==> start == tailIndex)
      ensures ok ==> Limited(bases, blockSize, headIndex, limit)
      ensures ok <==> old(Possible(count, |spares|, allocations))
      ensures allocations == 0 ==> index == old(index)
      ensures !ok && index == old(index) && index != [] ==> indexTail == old(indexTail)
      ensures forall i :: 0 <= i < |index| ==> index[i] in old(index) || fresh(index[i])
    {
      hide IndexOk, BlocksOk, Multiple, Boundaries, Back, Down, Spans, Consecutive, Prepared, Rewinds, CountersOk, Allocating, AllSpare, Distinct, Chain,
           TailKept, Counting, Enough, Rounds, Limited;
      ghost var ring0, bases0, index0, tail0 := ring, bases, index, indexTail;
      TailKeptStarts();
      ghost var past;
      start, past := BlockRange(tailIndex, count, blockSize);
      AllocatingStarts(spares, from, start);
      var startBlock := tailBlock;
      var base := Down(tailIndex - 1, blockSize);
      var diff := Down(tailIndex + count - 1, blockSize) - base;
      var n, left: nat := 0, allocations;
      used, first, next := 0, null, start;
      ghost var needed := Rounds(diff, blockSize);
      ghost var possible := Possible(count, |spares|, allocations);
      CountingStarts(base, diff, allocations);
      assert possible
             <==> needed == 0 || Enough(past - blockSize, needed, |spares|, |ring0|, |index0|, allocations);
      while diff > 0
        invariant used == n <= |spares| && next == base + blockSize && diff == past - next && next <= past && Multiple(next, blockSize)
        invariant ring == ring0 + spares[..used]
        invariant Allocating(ring0, bases0, spares, used, next, from, first, start)
        invariant CountersOk() && Spans(bases0, blockSize, headIndex, tailIndex) && Limited(bases0, blockSize, headIndex, limit)
        invariant TailKept(index0, tail0, used) && Counting(base, diff, used, needed, left, |index0|, allocations)
        invariant allocations == 0 ==> index == index0
        invariant forall i :: 0 <= i < |index| ==> index[i] in index0 || fresh(index[i])
      {
        Steps(next, past, blockSize);
        ok, first, left := RoundOrNone(base + blockSize, diff, Down(tailIndex - 1, blockSize), startBlock, spares, n, left, first,
                                       ring0, bases0, from, start, index0, tail0, needed, allocations, past - blockSize);
        if !ok {
          return;
        }
        diff := diff - blockSize;
        base := base + blockSize;
        n, used, next := n + 1, used + 1, next + blockSize;
        SumInt(base, blockSize);
      }
      AllocatingFits(ring0, bases0, spares, used, next, from, first, start);
      CountingEnds(base, diff, used, needed, left, |ring0|, |spares|, |index0|, allocations);
      LimitKept(ring0, bases0, spares, used, next, from, first, start, needed, left, |index0|, allocations);
      ok := true;
    }

    /** The last block taken into use was not refused. */
    lemma LimitKept(ring0: seq<Block<T>>, bases0: seq<nat>, spares: seq<Block<T>>, used: nat, next: nat, from: nat,
                    first: Block?<T>, start: nat, needed: nat, left: nat, size0: nat, allocations: nat)
      requires Allocating(ring0, bases0, spares, used, next, from, first, start) && Limited(bases0, blockSize, headIndex, limit)
      requires blockSize > 0 && Counting(next - blockSize, 0, used, needed, left, size0, allocations)
      ensures Limited(bases, blockSize, headIndex, limit)
    {
      hide Multiple, Boundaries, Back, BlocksOk, IndexOk, Rounds, Capacity;
    }

    /** That is possible exactly if the range from the head to the end of the last block is shorter than
        half the index range and within the limit, and there are enough blocks and index entries. */
    lemma PossibleExact(count: nat, blocks: nat, allocations: nat)
      requires blockSize > 1 && headIndex <= tailIndex && count > 0
      ensures var needed := BlocksNeeded(tailIndex, count, blockSize);
              var places := Down(tailIndex + count - 1, blockSize) + blockSize - headIndex;
              Possible(count, blocks, allocations)
              <==> needed == 0 || (&& places < 0x8000_0000_0000_0000 && (limit.Some? ==> places <= limit.value)
                                   && needed <= blocks && index != [] && |ring| + needed <= Capacity(|index|, allocations))
    {
      hide BlocksNeeded, Multiple, Down, Refused, Capacity;
      DownFacts(tailIndex + count - 1, blockSize);
      RefusedExact(Down(tailIndex + count - 1, blockSize));
    }

    lemma CountingStarts(base: int, diff: int, allocations: nat)
      requires blockSize > 0
      ensures Counting(base, diff, 0, Rounds(diff, blockSize), allocations, |index|, allocations)
    {
    }

    lemma CountingEnds(base: int, diff: int, used: nat, needed: nat, left: nat, inUse: nat, blocks: nat, size0: nat, allocations: nat)
      requires blockSize > 0 && Counting(base, diff, used, needed, left, size0, allocations) && diff <= 0
      requires inUse + used <= |index| && used <= blocks
      ensures needed == used && (needed == 0 || Enough(base, needed, blocks, inUse, size0, allocations))
    {
      CapacityAtLeast(|index|, left);
    }

    /** A round that fails means that the whole cannot succeed. */
    lemma RoundFails(base: int, last: int, used: nat, needed: nat, inUse: nat, blocks: nat, left: nat, size: nat,
                     allocations: nat, size0: nat)
      requires base <= last && used < needed && Capacity(size, left) == Capacity(size0, allocations) && (size0 > 0 <==> size > 0)
      requires Refused(base) || used >= blocks || size == 0 || (inUse + used >= size && left == 0)
      ensures !Enough(last, needed, blocks, inUse, size0, allocations)
    {
    }

    lemma AllocatingFits(ring0: seq<Block<T>>, bases0: seq<nat>, spares: seq<Block<T>>, used: nat, next: nat, from: nat,
                         first: Block?<T>, start: nat)
      requires Allocating(ring0, bases0, spares, used, next, from, first, start)
      ensures |ring| <= |index| && |ring| == |ring0| + used && (used > 0 ==> index != [])
    {
      hide Multiple, Boundaries, Back, BlocksOk;
    }

    /** Ready to construct the elements. */
    lemma ReadyToFill(ring0: seq<Block<T>>, bases0: seq<nat>, spares: seq<Block<T>>, used: nat, next: nat, from: nat,
                      first: Block?<T>, start: nat, end: nat)
      requires Allocating(ring0, bases0, spares, used, next, from, first, start)
      requires blockSize > 0 && Spans(bases0, blockSize, headIndex, tailIndex) && tailIndex < end && next - blockSize < end <= next
      requires Multiple(tailIndex, blockSize) ==> start == tailIndex
      requires from == if Multiple(tailIndex, blockSize) then |ring0| else |ring0| - 1
      ensures from < |ring| == |bases| && bases[from] <= tailIndex < bases[from] + blockSize
      ensures ring[from] == if Multiple(tailIndex, blockSize) then first else ring0[|ring0| - 1]
      ensures bases[|bases| - 1] < end <= bases[|bases| - 1] + blockSize && tailBlock == ring[|ring| - 1]
      ensures Spans(bases, blockSize, headIndex, end)
      ensures Boundaries(bases[|bases0|..], tailIndex, end, blockSize)
    {
      hide Multiple, Boundaries;
      AtBoundary(bases0, blockSize, headIndex, tailIndex);
      BoundariesEnd(bases[|bases0|..], tailIndex, end, next, blockSize);
      if Multiple(tailIndex, blockSize) {
        assert used > 0;
        assert ring[|ring0|] == spares[0];
      }
    }

    /** enqueue_bulk is all or nothing. On success exactly the given elements have joined, and the blocks
        that came into use are those of the block boundaries in their range. It fails only if that is not
        possible; then the elements, the blocks in use and their places are as before - and the index and
        its tail too, unless a larger index was allocated on the way. */
    method EnqueueBulk(items: seq<T>, spares: seq<Block<T>>, allocations: nat) returns (ok: bool, ghost used: nat)
      requires Valid() && Distinct(spares) && AllSpare(spares, 0)
      modifies this, index, ring, spares
      ensures Valid() && headIndex == old(headIndex)
      ensures ok ==> contents == old(contents) + items && tailIndex == old(tailIndex) + |items|
      ensures ok ==> used <= |spares| && ring == old(ring) + spares[..used] && old(bases) <= bases
                     && Boundaries(bases[|old(bases)|..], old(tailIndex), tailIndex, blockSize)
      ensures !ok ==> contents == old(contents) && tailIndex == old(tailIndex) && tailBlock == old(tailBlock)
      ensures !ok ==> ring == old(ring) && bases == old(bases) && AllSpare(spares, 0)
      ensures !ok && index == old(index) && index != [] ==> indexTail == old(indexTail)
      ensures allocations == 0 ==> index == old(index)
      ensures var needed := BlocksNeeded(old(tailIndex), |items|, blockSize);
              var places := Down(old(tailIndex) + |items| - 1, blockSize) + blockSize - headIndex;
              ok <==> needed == 0 || (&& places < 0x8000_0000_0000_0000 && (limit.Some? ==> places <= limit.value)
                                      && needed <= |spares| && old(index) != [] && |old(ring)| + needed <= Capacity(|old(index)|, allocations))
      ensures ok ==> used == BlocksNeeded(old(tailIndex), |items|, blockSize)
    {
      hide IndexOk, BlocksOk, Multiple, Boundaries, Spans, Allocating, AllSpare, Distinct, Possible, Rounds, Limited, Down, BlocksNeeded, Capacity;
      TailKeptStarts();
      used := 0;
      if |items| == 0 {
        NoneNeeded();
        NothingToDo(|spares|, allocations);
        return true, 0;
      }
      TailFacts();
      OrderedFacts();
      PossibleExact(|items|, |spares|, allocations);
      ghost var ring0, bases0, tail0 := ring, bases, tailIndex;
      ghost var from := if Multiple(tailIndex, blockSize) then |ring| else |ring| - 1;
      var startBlock := tailBlock;
      var first;
      ghost var next, start;
      ok, first, used, next, start := Allocate(|items|, spares, allocations, from);
      if !ok {
        return;
      }
      AllocatingFacts(ring0, bases0, spares, used, next, from, first, start);
      Complete(items, first, startBlock, ring0, bases0, spares, used, next, from, start);
    }

    /** The second half of enqueue_bulk. */
    method Complete(items: seq<T>, first: Block?<T>, startBlock: Block?<T>, ghost ring0: seq<Block<T>>, ghost bases0: seq<nat>,
                    ghost spares: seq<Block<T>>, ghost used: nat, ghost next: nat, ghost from: nat, ghost start: nat)
      requires Allocating(ring0, bases0, spares, used, next, from, first, start) && items != []
      requires CountersOk() && Spans(bases0, blockSize, headIndex, tailIndex) && (ring0 != [] ==> startBlock == ring0[|ring0| - 1])
      requires next - blockSize < tailIndex + |items| <= next && (Multiple(tailIndex, blockSize) ==> start == tailIndex)
      requires from == if Multiple(tailIndex, blockSize) then |ring0| else |ring0| - 1
      requires Limited(bases, blockSize, headIndex, limit)
      modifies this`tailBlock, this`tailIndex, this`contents, ring`elements
      ensures Valid() && contents == old(contents) + items && tailIndex == old(tailIndex) + |items|
      ensures Boundaries(bases[|bases0|..], old(tailIndex), tailIndex, blockSize)
    {
      hide IndexOk, BlocksOk, Boundaries, Spans, Allocating, Chain, Limited;
      ReadyToFill(ring0, bases0, spares, used, next, from, first, start, tailIndex + |items|);
      AllocatingFacts(ring0, bases0, spares, used, next, from, first, start);
      var endBlock := tailBlock;
      tailBlock := startBlock;
      if tailIndex % blockSize == 0 && first != null {
        tailBlock := first;
      }
      FillBlocks(items, endBlock, from);
    }

    lemma NothingToDo(blocks: nat, allocations: nat)
      requires blockSize > 0
      ensures Possible(0, blocks, allocations) && BlocksNeeded(tailIndex, 0, blockSize) == 0
    {
    }

    lemma NoneNeeded()
      requires Valid()
      ensures ring + [] == ring && Boundaries([], tailIndex, tailIndex, blockSize) && bases[|bases|..] == [] && contents + [] == contents
    {
    }

    lemma AllocatingFacts(ring0: seq<Block<T>>, bases0: seq<nat>, spares: seq<Block<T>>, used: nat, next: nat, from: nat,
                          first: Block?<T>, start: nat)
      requires Allocating(ring0, bases0, spares, used, next, from, first, start)
      ensures used <= |spares| && ring == ring0 + spares[..used] && bases0 <= bases && |bases0| == |ring0|
      ensures IndexOk() && BlocksOk() && Chain(ring, from) && headIndex + |contents| == tailIndex
    {
    }
  }
}
