/** A block of the queue: room for `size` elements, and a record of which have been dequeued for good.
    Consumers finish in any order, so the record is that of a set of positions. */
module Blocks {
  import opened Common

  predicate Among(o: nat, i: nat, count: nat) { i <= o < i + count }

  /** `count` positions from `i` on. */
  function Stretch(i: nat, count: nat): set<nat> { set o: nat | o < i + count && Among(o, i, count) }

  lemma {:induction false} StretchSize(i: nat, count: nat)
    ensures |Stretch(i, count)| == count
  {
    if count == 0 {
      assert Stretch(i, 0) == {};
    } else {
      StretchSize(i, count - 1);
      assert Stretch(i, count) == Stretch(i, count - 1) + {i + count - 1};
    }
  }

  /** The positions of a block. */
  function All(size: nat): set<nat> { Stretch(0, size) }

  /** Those from `base` on whose indices are below `head`. */
  function Below(base: nat, head: nat, size: nat): set<nat> {
    Stretch(0, if head <= base then 0 else if head - base >= size then size else head - base)
  }

  /** As many positions as there are, are all of them. */
  lemma FullIff(done: set<nat>, size: nat)
    requires done <= All(size)
    ensures |done| <= size && (|done| == size <==> done == All(size))
  {
    StretchSize(0, size);
    var rest := All(size) - done;
    assert All(size) == done + rest;
    assert |rest| == 0 ==> rest == {};
  }

  lemma BelowFacts(base: nat, head: nat, size: nat)
    ensures Below(base, head, size) <= All(size)
    ensures Below(base, head, size) == All(size) <==> size == 0 || base + size <= head
    ensures head <= base ==> Below(base, head, size) == {}
    ensures !(base <= head < base + size) ==> Below(base, head + 1, size) == Below(base, head, size)
    ensures base <= head < base + size ==>
              head - base !in Below(base, head, size) && Below(base, head + 1, size) == Below(base, head, size) + {head - base}
  {
    if size > 0 && base + size > head {
      assert size - 1 in All(size) && size - 1 !in Below(base, head, size);
    }
  }

  class Block<T> {
    const size: nat                      // BLOCK_SIZE
    const flags: bool                    // BLOCK_SIZE <= EXPLICIT_BLOCK_EMPTY_COUNTER_THRESHOLD
    var elements: seq<Option<T>>         // None where no element is constructed
    var next: Block?<T>
    var emptyFlags: seq<bool>
    var completelyDequeued: nat

    constructor (size: nat, flags: bool)
      requires size > 1
      ensures this.size == size && this.flags == flags && Formed() && Vacant()
    {
      this.size, this.flags := size, flags;
      elements := seq(size, _ => None);
      next := null;
      emptyFlags, completelyDequeued := seq(size, _ => false), 0;
    }

    ghost predicate Formed()
      reads `elements, `emptyFlags
    {
      size > 1 && |elements| == size == |emptyFlags|
    }

    /** No element is constructed in it. */
    ghost predicate Vacant()
      reads `elements
    {
      forall o :: 0 <= o < |elements| ==> elements[o].None?
    }

    /** Exactly the elements at the positions `done` have been dequeued for good. */
    ghost predicate Completed(done: set<nat>)
      reads `emptyFlags, `elements, `completelyDequeued
      requires Formed()
    {
      && done <= All(size)
      && if flags then forall o :: 0 <= o < size ==> (o in done <==> emptyFlags[size - 1 - o])
         else completelyDequeued == |done|
    }

    /** Of the elements with indices from `base` on, exactly those below `head` have been. */
    ghost predicate Dequeued(base: nat, head: nat)
      reads `elements, `emptyFlags, `completelyDequeued
      requires Formed()
    {
      Completed(Below(base, head, size))
    }

    /** is_empty: whether all have been. */
    method IsEmpty(ghost done: set<nat>) returns (empty: bool)
      requires Formed() && Completed(done)
      ensures empty <==> done == All(size)
    {
      if flags {
        var i := 0;
        while i < size
          invariant i <= size && forall o :: size - i <= o < size ==> o in done
        {
          if !emptyFlags[i] {
            assert size - 1 - i in All(size) && size - 1 - i !in done;
            return false;
          }
          assert emptyFlags[size - 1 - (size - 1 - i)];
          i := i + 1;
        }
        assert All(size) <= done;
        return true;
      } else {
        FullIff(done, size);
        return completelyDequeued == size;
      }
    }

    /** set_empty: one more has been. Its result tells whether the block is now empty, where the counter
        is used: only the last of its elements to be done with reports that. */
    method SetEmpty(i: nat, ghost done: set<nat>) returns (empty: bool)
      requires Formed() && Completed(done) && i < size && i !in done
      modifies `emptyFlags, `completelyDequeued
      ensures Formed() && Completed(done + {i})
      ensures empty <==> !flags && done + {i} == All(size)
    {
      if flags {
        emptyFlags := emptyFlags[size - 1 - i := true];
        return false;
      } else {
        var prevVal := completelyDequeued;
        completelyDequeued := completelyDequeued + 1;
        FullIff(done + {i}, size);
        return prevVal == size - 1;
      }
    }

    /** set_many_empty: the same for `count` elements from position `i` on. */
    method SetManyEmpty(i: nat, count: nat, ghost done: set<nat>) returns (empty: bool)
      requires Formed() && Completed(done) && count > 0 && i + count <= size && done !! Stretch(i, count)
      modifies `emptyFlags, `completelyDequeued
      ensures Formed() && Completed(done + Stretch(i, count))
      ensures empty <==> !flags && done + Stretch(i, count) == All(size)
    {
      if flags {
        var from := size - 1 - i - count + 1;
        ghost var was := emptyFlags;
        var j := 0;
        while j != count
          invariant j <= count && |emptyFlags| == size
          invariant forall k :: 0 <= k < size ==> emptyFlags[k] == (was[k] || from <= k < from + j)
        {
          emptyFlags := emptyFlags[from + j := true];
          j := j + 1;
        }
        return false;
      } else {
        var prevVal := completelyDequeued;
        completelyDequeued := completelyDequeued + count;
        StretchSize(i, count);
        FullIff(done + Stretch(i, count), size);
        return prevVal + count == size;
      }
    }

    /** reset_empty. */
    method ResetEmpty()
      requires Formed()
      modifies `emptyFlags, `completelyDequeued
      ensures Formed() && Completed({})
    {
      if flags {
        var i := 0;
        while i < size
          invariant i <= size == |emptyFlags| && forall k :: 0 <= k < i ==> !emptyFlags[k]
        {
          emptyFlags := emptyFlags[i := false];
          i := i + 1;
        }
      } else {
        completelyDequeued := 0;
      }
    }

    /** Construct an element in slot `o`. */
    method Construct(o: nat, x: T)
      requires o < |elements|
      modifies `elements
      ensures elements == old(elements)[o := Some(x)]
    {
      elements := elements[o := Some(x)];
    }

    /** Move the element in slot `o` out and destroy it. */
    method Take(o: nat) returns (x: T)
      requires o < |elements| && elements[o].Some?
      modifies `elements
      ensures elements == old(elements)[o := None] && Some(x) == old(elements[o])
    {
      x := elements[o].value;
      elements := elements[o := None];
    }
  }
}
