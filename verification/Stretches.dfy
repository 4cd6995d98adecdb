/** The blocks of a sub-queue cover consecutive stretches of its indices, and between them hold its
    elements. */
module Stretches {
  import opened Alignment
  import opened Blocks
  import opened Common
  import Bytes

  // ---- circular positions ----

  /** (i + 1) & (size - 1), for a power of two. */
  function Next(i: nat, size: nat): nat
    requires i < size
  {
    if i + 1 == size then 0 else i + 1
  }

  /** (i - k) & (size - 1), for a power of two and k <= size. */
  function Back(i: nat, size: nat, k: nat): (r: nat)
    requires i < size && k <= size
    ensures r < size
  {
    if k <= i then i - k else i + size - k
  }

  lemma BackBack(i: nat, size: nat, k: nat)
    requires i < size && k < size
    ensures Back(Back(i, size, 1), size, k) == Back(i, size, k + 1)
  {
  }

  // ---- the blocks' places in the sequence ----

  /** The blocks cover consecutive stretches of `bs` indices. */
  predicate Consecutive(bases: seq<nat>, bs: nat)
    requires bs > 0
  {
    && (forall i :: 0 <= i < |bases| ==> Multiple(bases[i], bs))
    && (forall i :: 0 < i < |bases| ==> bases[i] == bases[i - 1] + bs)
  }

  lemma {:induction false} Increasing(bases: seq<nat>, bs: nat, i: nat, j: nat)
    requires bs > 0 && Consecutive(bases, bs) && i < j < |bases|
    ensures bases[i] + bs <= bases[j]
    decreases j
  {
    if i < j - 1 {
      Increasing(bases, bs, i, j - 1);
    }
  }

  /** Multiples that differ, differ by the width. */
  lemma Steps(x: nat, y: nat, w: nat)
    requires w > 0 && Multiple(x, w) && Multiple(y, w) && x < y
    ensures x + w <= y
  {
    hide Multiple;
    Difference(y, x, w);
    if y - x < w {
      Small(y - x, w);
    }
  }

  /** A tail index at a boundary is where the next block's stretch begins. */
  lemma Boundary(bases: seq<nat>, bs: nat, tail: nat)
    requires bs > 0 && Consecutive(bases, bs) && bases != []
    requires bases[|bases| - 1] < tail <= bases[|bases| - 1] + bs
    ensures Multiple(tail, bs) <==> tail == bases[|bases| - 1] + bs
    ensures !Multiple(tail, bs) ==> tail % bs == tail - bases[|bases| - 1]
  {
    var b := bases[|bases| - 1];
    Itself(bs);
    Sum(b, bs, bs);
    if Multiple(tail, bs) {
      Steps(b, tail, bs);
    } else {
      OffsetWithin(tail, b, bs);
    }
  }

  lemma LastOffset(bases: seq<nat>, bs: nat, tail: nat)
    requires bs > 0 && Consecutive(bases, bs) && bases != []
    requires bases[|bases| - 1] <= tail < bases[|bases| - 1] + bs
    ensures tail % bs == tail - bases[|bases| - 1]
  {
    OffsetWithin(tail, bases[|bases| - 1], bs);
  }

  lemma OffsetIn(bases: seq<nat>, bs: nat, i: nat, x: nat)
    requires bs > 0 && Consecutive(bases, bs) && i < |bases| && bases[i] <= x < bases[i] + bs
    ensures x % bs == x - bases[i]
  {
    OffsetWithin(x, bases[i], bs);
  }

  /** Where in its block an index lies. */
  lemma OffsetWithin(x: nat, base: nat, bs: nat)
    requires bs > 0 && Multiple(base, bs) && base <= x < base + bs
    ensures x % bs == x - base && x - x % bs == base
  {
    hide Multiple;
    Quotient(base, bs);
    assert x == base / bs * bs + (x - base);
    Bytes.DivUnique(x, bs, base / bs, x - base);
  }

  lemma {:induction false} Distance(bases: seq<nat>, bs: nat, i: nat, j: nat)
    requires bs > 0 && Consecutive(bases, bs) && i <= j < |bases|
    ensures bases[j] == bases[i] + (j - i) * bs
    decreases j
  {
    if i < j {
      Distance(bases, bs, i, j - 1);
      OneMore(j - 1 - i, bs);
    }
  }

  lemma OneMore(q: nat, bs: nat)
    ensures q * bs + bs == (q + 1) * bs
  {
  }

  /** The block of an index is found by counting blocks back from the newest. */
  lemma Find(bases: seq<nat>, bs: nat, x: nat) returns (i: nat)
    requires bs > 0 && Consecutive(bases, bs) && bases != []
    requires bases[0] <= x < bases[|bases| - 1] + bs
    ensures i < |bases| && bases[i] <= x < bases[i] + bs
    ensures (bases[|bases| - 1] - (x - x % bs)) / bs == |bases| - 1 - i
  {
    hide Multiple;
    i := FindStretch(bases, bs, x);
    OffsetIn(bases, bs, i, x);
    Distance(bases, bs, i, |bases| - 1);
    Exact(|bases| - 1 - i, bs);
  }

  lemma {:induction false} FindStretch(bases: seq<nat>, bs: nat, x: nat) returns (i: nat)
    requires bs > 0 && Consecutive(bases, bs) && bases != []
    requires bases[0] <= x < bases[|bases| - 1] + bs
    ensures i < |bases| && bases[i] <= x < bases[i] + bs
  {
    hide Multiple;
    var n := |bases|;
    if bases[n - 1] <= x {
      i := n - 1;
    } else {
      assert bases[n - 1] == bases[n - 2] + bs;
      i := FindStretch(bases[..n - 1], bs, x);
    }
  }

  lemma Exact(q: int, bs: nat)
    requires bs > 0
    ensures q * bs / bs == q
  {
    var x := q * bs;
    var d, r := x / bs, x % bs;
    assert (q - d) * bs == r;
    Sign(q - d, bs);
    assert (d - q + 1) * bs == bs - r;
    Positive(d - q + 1, bs);
  }

  /** What is in the slot of index `x`, when the elements from `head` on are `contents`. */
  function Cell<T>(x: nat, head: nat, contents: seq<T>): Option<T> {
    if head <= x < head + |contents| then Some(contents[x - head]) else None
  }

  ghost predicate Holds<T>(elements: seq<Option<T>>, base: nat, head: nat, contents: seq<T>) {
    forall o :: 0 <= o < |elements| ==> elements[o] == Cell(base + o, head, contents)
  }

  /** The block at `base` is as it should be. */
  ghost predicate BlockOk<T>(b: Block<T>, bs: nat, flags: bool, base: nat, head: nat, contents: seq<T>)
    reads b`elements, b`emptyFlags, b`completelyDequeued
  {
    b.Formed() && b.size == bs && b.flags == flags && b.Dequeued(base, head) && Holds(b.elements, base, head, contents)
  }

  /** Every block of the ring is as it should be. */
  ghost predicate AllOk<T>(ring: seq<Block<T>>, bs: nat, flags: bool, bases: seq<nat>, head: nat, contents: seq<T>)
    reads ring`elements, ring`emptyFlags, ring`completelyDequeued
  {
    && |bases| == |ring|
    && (forall i :: 0 <= i < |ring| ==> BlockOk(ring[i], bs, flags, bases[i], head, contents))
  }

  lemma AllOkDrop<T>(ring: seq<Block<T>>, bs: nat, flags: bool, bases: seq<nat>, head: nat, contents: seq<T>)
    requires AllOk(ring, bs, flags, bases, head, contents) && ring != []
    ensures BlockOk(ring[0], bs, flags, bases[0], head, contents)
    ensures AllOk(ring[1..], bs, flags, bases[1..], head, contents)
  {
  }

  lemma AllOkAdd<T>(ring: seq<Block<T>>, bs: nat, flags: bool, bases: seq<nat>, head: nat, contents: seq<T>, b: Block<T>, base: nat)
    requires AllOk(ring, bs, flags, bases, head, contents) && BlockOk(b, bs, flags, base, head, contents)
    ensures AllOk(ring + [b], bs, flags, bases + [base], head, contents)
  {
  }

  lemma BlockFacts<T>(b: Block<T>, bs: nat, flags: bool, base: nat, head: nat, contents: seq<T>)
    requires BlockOk(b, bs, flags, base, head, contents)
    ensures b.Formed() && b.size == bs && b.flags == flags && b.Dequeued(base, head) && Holds(b.elements, base, head, contents)
  {
  }

  lemma BlockFrom<T>(b: Block<T>, bs: nat, flags: bool, base: nat, head: nat, contents: seq<T>)
    requires b.Formed() && b.size == bs && b.flags == flags && b.Dequeued(base, head) && Holds(b.elements, base, head, contents)
    ensures BlockOk(b, bs, flags, base, head, contents)
  {
  }

  /** An empty block holds nothing where it is to go next. */
  lemma Recycled<T>(b: Block<T>, bs: nat, flags: bool, base: nat, head: nat, contents: seq<T>, base': nat)
    requires BlockOk(b, bs, flags, base, head, contents)
    requires base + bs <= head <= head + |contents| <= base'
    ensures b.Formed() && b.size == bs && b.flags == flags && Holds(b.elements, base', head, contents)
  {
    forall o | 0 <= o < |b.elements| ensures b.elements[o] == Cell(base' + o, head, contents) {
      assert b.elements[o] == Cell(base + o, head, contents);
    }
  }

  lemma NewlyVacant<T>(b: Block<T>, bs: nat, base: nat, head: nat, contents: seq<T>)
    requires b.Formed() && b.size == bs && b.Vacant() && head + |contents| <= base
    ensures Holds(b.elements, base, head, contents)
  {
  }

  /** A block whose record has been reset is in place. */
  lemma InPlace<T>(b: Block<T>, bs: nat, flags: bool, base: nat, head: nat, contents: seq<T>)
    requires b.Formed() && b.size == bs && b.flags == flags && Holds(b.elements, base, head, contents)
    requires head <= base && b.Completed({})
    ensures BlockOk(b, bs, flags, base, head, contents)
  {
    BelowFacts(base, head, bs);
  }

  /** What constructing the element at the tail does to the blocks. */
  lemma BlockAppends<T>(b: Block<T>, bs: nat, flags: bool, base: nat, head: nat, contents: seq<T>, x: T)
    requires BlockOk(b, bs, flags, base, head, contents) && !(base <= head + |contents| < base + bs)
    ensures BlockOk(b, bs, flags, base, head, contents + [x])
  {
    forall o | 0 <= o < |b.elements| ensures b.elements[o] == Cell(base + o, head, contents + [x]) {
      assert b.elements[o] == Cell(base + o, head, contents);
    }
  }

  lemma HoldsAppended<T>(elements: seq<Option<T>>, base: nat, head: nat, contents: seq<T>, x: T)
    requires Holds(elements, base, head, contents) && base <= head + |contents| < base + |elements|
    ensures Holds(elements[head + |contents| - base := Some(x)], base, head, contents + [x])
  {
    var o := head + |contents| - base;
    var es := elements[o := Some(x)];
    forall i | 0 <= i < |es| ensures es[i] == Cell(base + i, head, contents + [x]) {
      assert elements[i] == Cell(base + i, head, contents);
    }
  }

  /** What destroying the element at the head does to the blocks. */
  lemma BlockRemains<T>(b: Block<T>, bs: nat, flags: bool, base: nat, head: nat, contents: seq<T>)
    requires BlockOk(b, bs, flags, base, head, contents) && contents != [] && !(base <= head < base + bs)
    ensures BlockOk(b, bs, flags, base, head + 1, contents[1..])
  {
    BelowFacts(base, head, bs);
    forall o | 0 <= o < |b.elements| ensures b.elements[o] == Cell(base + o, head + 1, contents[1..]) {
      assert b.elements[o] == Cell(base + o, head, contents);
    }
  }

  lemma HoldsRemoved<T>(elements: seq<Option<T>>, base: nat, head: nat, contents: seq<T>)
    requires Holds(elements, base, head, contents) && contents != [] && base <= head < base + |elements|
    ensures elements[head - base] == Some(contents[0])
    ensures Holds(elements[head - base := None], base, head + 1, contents[1..])
  {
    var o := head - base;
    assert elements[o] == Cell(base + o, head, contents);
    var es := elements[o := None];
    forall i | 0 <= i < |es| ensures es[i] == Cell(base + i, head + 1, contents[1..]) {
      assert elements[i] == Cell(base + i, head, contents);
    }
  }

  lemma AllOkSplit<T>(ring: seq<Block<T>>, bs: nat, flags: bool, bases: seq<nat>, head: nat, contents: seq<T>, i: nat)
    requires AllOk(ring, bs, flags, bases, head, contents) && i < |ring|
    ensures BlockOk(ring[i], bs, flags, bases[i], head, contents)
    ensures AllOk(ring[..i], bs, flags, bases[..i], head, contents)
    ensures AllOk(ring[i + 1..], bs, flags, bases[i + 1..], head, contents)
  {
  }

  lemma AllOkJoin<T>(ring: seq<Block<T>>, bs: nat, flags: bool, bases: seq<nat>, head: nat, contents: seq<T>, i: nat)
    requires i < |ring| == |bases| && BlockOk(ring[i], bs, flags, bases[i], head, contents)
    requires AllOk(ring[..i], bs, flags, bases[..i], head, contents)
    requires AllOk(ring[i + 1..], bs, flags, bases[i + 1..], head, contents)
    ensures AllOk(ring, bs, flags, bases, head, contents)
  {
    forall t | 0 <= t < |ring| ensures BlockOk(ring[t], bs, flags, bases[t], head, contents) {
      if t < i {
        assert BlockOk(ring[..i][t], bs, flags, bases[..i][t], head, contents);
      } else if t > i {
        assert BlockOk(ring[i + 1..][t - (i + 1)], bs, flags, bases[i + 1..][t - (i + 1)], head, contents);
      }
    }
  }

  lemma AllAppend<T>(ring: seq<Block<T>>, bs: nat, flags: bool, bases: seq<nat>, head: nat, contents: seq<T>, x: T)
    requires AllOk(ring, bs, flags, bases, head, contents)
    requires forall i :: 0 <= i < |bases| ==> !(bases[i] <= head + |contents| < bases[i] + bs)
    ensures AllOk(ring, bs, flags, bases, head, contents + [x])
  {
    forall i | 0 <= i < |ring| ensures BlockOk(ring[i], bs, flags, bases[i], head, contents + [x]) {
      BlockAppends(ring[i], bs, flags, bases[i], head, contents, x);
    }
  }

  lemma AllRemain<T>(ring: seq<Block<T>>, bs: nat, flags: bool, bases: seq<nat>, head: nat, contents: seq<T>)
    requires AllOk(ring, bs, flags, bases, head, contents) && contents != []
    requires forall i :: 0 <= i < |bases| ==> !(bases[i] <= head < bases[i] + bs)
    ensures AllOk(ring, bs, flags, bases, head + 1, contents[1..])
  {
    forall i | 0 <= i < |ring| ensures BlockOk(ring[i], bs, flags, bases[i], head + 1, contents[1..]) {
      BlockRemains(ring[i], bs, flags, bases[i], head, contents);
    }
  }

  /** Only one block's stretch holds an index. */
  lemma OneStretch(bases: seq<nat>, bs: nat, i: nat, x: nat)
    requires bs > 0 && Consecutive(bases, bs) && i < |bases| && bases[i] <= x < bases[i] + bs
    ensures var below := bases[..i]; forall t :: 0 <= t < |below| ==> below[t] + bs <= x
    ensures var above := bases[i + 1..]; forall t :: 0 <= t < |above| ==> x < above[t]
  {
    var below, above := bases[..i], bases[i + 1..];
    forall t | 0 <= t < |below| ensures below[t] + bs <= x {
      Increasing(bases, bs, t, i);
    }
    forall t | 0 <= t < |above| ensures x < above[t] {
      Increasing(bases, bs, i, i + 1 + t);
    }
  }

  /** Construct an element at the tail, in the block whose stretch holds it. */
  method ConstructAt<T>(x: T, b: Block<T>, ghost ring: seq<Block<T>>, ghost bases: seq<nat>, bs: nat, ghost flags: bool,
                        ghost head: nat, ghost contents: seq<T>, ghost i: nat, o: nat)
    requires bs > 0 && Consecutive(bases, bs) && Distinct(ring) && AllOk(ring, bs, flags, bases, head, contents)
    requires i < |ring| == |bases| && b == ring[i] && o < bs && bases[i] + o == head + |contents|
    modifies b`elements
    ensures AllOk(ring, bs, flags, bases, head, contents + [x])
  {
    hide AllOk, BlockOk, Holds, Multiple, Consecutive;
    ghost var base := bases[i];
    OneStretch(bases, bs, i, head + |contents|);
    AllOkSplit(ring, bs, flags, bases, head, contents, i);
    AllAppend(ring[..i], bs, flags, bases[..i], head, contents, x);
    AllAppend(ring[i + 1..], bs, flags, bases[i + 1..], head, contents, x);
    BlockFacts(b, bs, flags, base, head, contents);
    HoldsAppended(b.elements, base, head, contents, x);
    b.Construct(o, x);
    BlockFrom(b, bs, flags, base, head, contents + [x]);
    AllOkJoin(ring, bs, flags, bases, head, contents + [x], i);
  }

  /** Move the element at the head out of its block, destroy it, and record that. */
  method DestroyAt<T>(b: Block<T>, ghost ring: seq<Block<T>>, ghost bases: seq<nat>, bs: nat, ghost flags: bool,
                          head: nat, ghost contents: seq<T>, ghost i: nat) returns (x: T, empty: bool)
    requires bs > 0 && Consecutive(bases, bs) && Distinct(ring) && AllOk(ring, bs, flags, bases, head, contents)
    requires i < |ring| == |bases| && b == ring[i] && bases[i] <= head < bases[i] + bs && contents != []
    modifies b`elements, b`emptyFlags, b`completelyDequeued
    ensures empty <==> !flags && head + 1 == bases[i] + bs
    ensures x == contents[0] && AllOk(ring, bs, flags, bases, head + 1, contents[1..])
  {
    hide AllOk, BlockOk, Holds, Multiple, Consecutive, Below, All, Stretch;
    ghost var base := bases[i];
    OneStretch(bases, bs, i, head);
    AllOkSplit(ring, bs, flags, bases, head, contents, i);
    AllRemain(ring[..i], bs, flags, bases[..i], head, contents);
    AllRemain(ring[i + 1..], bs, flags, bases[i + 1..], head, contents);
    BlockFacts(b, bs, flags, base, head, contents);
    HoldsRemoved(b.elements, base, head, contents);
    OffsetIn(bases, bs, i, head);
    x := b.Take(head % bs);
    BelowFacts(base, head, bs);
    BelowFacts(base, head + 1, bs);
    empty := b.SetEmpty(head % bs, Below(base, head, bs));
    BlockFrom(b, bs, flags, base, head + 1, contents[1..]);
    AllOkJoin(ring, bs, flags, bases, head + 1, contents[1..], i);
  }
}
