/** The explicit producer's sub-queue: a ring of blocks, and a circular index of them, that together
    behave as one sequence of elements. Calls are taken one at a time; the interleavings of consumers
    are the subject of DequeueCounters. */
module ExplicitQueue {
  import opened Alignment
  import opened Blocks
  import DequeueCounters
  import opened Common
  import opened Stretches

  // ---- the circular index ----

  datatype Entry<T> = Entry(base: nat, block: Block?<T>)

  /** The last `|ring|` entries before `front` are the blocks of the ring, oldest first. */
  ghost predicate Window<T>(es: seq<Entry<T>>, front: nat, ring: seq<Block<T>>, bases: seq<nat>) {
    && front < |es| && |ring| == |bases| <= |es|
    && (forall t :: 0 <= t < |ring| ==> es[Back(front, |es|, |ring| - t)] == Entry(bases[t], ring[t]))
  }

  /** Writing an entry at the front puts a block at the end of the ring; if the window was not to get
      longer, the oldest block leaves it. */
  lemma WindowRotates<T>(es: seq<Entry<T>>, front: nat, ring: seq<Block<T>>, bases: seq<nat>, base: nat, block: Block<T>)
    requires Window(es, front, ring, bases) && ring != []
    ensures Window(es[front := Entry(base, block)], Next(front, |es|), ring[1..] + [block], bases[1..] + [base])
  {
    var n, es' := |ring|, es[front := Entry(base, block)];
    forall t | 0 <= t < n
      ensures es'[Back(Next(front, |es|), |es|, n - t)] == Entry((bases[1..] + [base])[t], (ring[1..] + [block])[t])
    {
      if t < n - 1 {
        assert es[Back(front, |es|, n - (t + 1))] == Entry(bases[t + 1], ring[t + 1]);
      }
    }
  }

  lemma WindowGrows<T>(es: seq<Entry<T>>, front: nat, ring: seq<Block<T>>, bases: seq<nat>, base: nat, block: Block<T>)
    requires Window(es, front, ring, bases) && |ring| < |es|
    ensures Window(es[front := Entry(base, block)], Next(front, |es|), ring + [block], bases + [base])
  {
    var n, es' := |ring| + 1, es[front := Entry(base, block)];
    forall t | 0 <= t < n
      ensures es'[Back(Next(front, |es|), |es|, n - t)] == Entry((bases + [base])[t], (ring + [block])[t])
    {
      if t < n - 1 {
        assert es[Back(front, |es|, |ring| - t)] == Entry(bases[t], ring[t]);
      }
    }
  }

  function After<T>(ring: seq<T>, i: nat): T
    requires i < |ring|
  {
    if i + 1 < |ring| then ring[i + 1] else ring[0]
  }

  /** The blocks of the ring are linked in a circle. */
  ghost predicate Linked<T>(ring: seq<Block<T>>)
    reads ring`next
  {
    && Distinct(ring)
    && (forall i :: 0 <= i < |ring| ==> ring[i].next == After(ring, i))
  }

  lemma LinkedRotates<T>(ring: seq<Block<T>>)
    requires Linked(ring) && ring != []
    ensures Linked(ring[1..] + [ring[0]])
  {
    var r := ring[1..] + [ring[0]];
    forall i | 0 <= i < |r| ensures r[i].next == After(r, i) {
      var k := if i + 1 < |r| then i + 1 else 0;
      assert r[i] == ring[k] && ring[k].next == After(ring, k);
    }
  }

  lemma LinkedGrows<T>(ring: seq<Block<T>>, b: Block<T>)
    requires b !in ring && b.next == (if ring == [] then b else ring[0])
    requires Distinct(ring)
    requires forall i :: 0 <= i < |ring| ==> ring[i].next == if i + 1 < |ring| then After(ring, i) else b
    ensures Linked(ring + [b])
  {
    var r := ring + [b];
    forall i | 0 <= i < |r| ensures r[i].next == After(r, i) {
      if i < |ring| {
        assert r[i] == ring[i];
      }
    }
  }

  /** The stretches of the blocks reach from at or before the head to at or after the tail, and not
      further than the size limit. */
  ghost predicate Places(bases: seq<nat>, bs: nat, head: nat, tail: nat, limit: Option<nat>)
    requires bs > 0
  {
    && Consecutive(bases, bs)
    && (bases == [] ==> tail == 0)
    && (bases != [] ==>
        && bases[|bases| - 1] <= tail <= bases[|bases| - 1] + bs && bases[0] <= head
        && (limit.Some? ==> bases[|bases| - 1] + bs - bases[0] <= limit.value))
  }

  lemma HeadMoves(bases: seq<nat>, bs: nat, head: nat, tail: nat, limit: Option<nat>)
    requires bs > 0 && Places(bases, bs, head, tail, limit) && head < tail
    ensures Places(bases, bs, head + 1, tail, limit)
    ensures bases != [] && bases[0] <= head < bases[|bases| - 1] + bs
  {
  }

  lemma PlacesRotate(bases: seq<nat>, bs: nat, head: nat, tail: nat, limit: Option<nat>)
    requires bs > 0 && Places(bases, bs, head, tail, limit) && bases != []
    requires bases[0] + bs <= head && tail == bases[|bases| - 1] + bs
    ensures Places(bases[1..] + [tail], bs, head, tail, limit)
  {
    hide Multiple;
    Itself(bs);
    Sum(bases[|bases| - 1], bs, bs);
  }

  /** The limit is a multiple of the block size, so that another block fits it exactly when the code's
      test says so. */
  lemma PlacesGrow(bases: seq<nat>, bs: nat, head: nat, tail: nat, limit: Option<nat>)
    requires bs > 0 && Places(bases, bs, head, tail, limit) && head <= tail
    requires bases != [] ==> head < bases[0] + bs && tail == bases[|bases| - 1] + bs
    requires limit.Some? ==> Multiple(limit.value, bs)
    ensures Places(bases + [tail], bs, head, tail, limit)
            <==> limit.None? || (limit.value != 0 && limit.value - bs >= tail - head)
  {
    hide Multiple;
    Itself(bs);
    if bases == [] {
      Times(0, bs);
    } else {
      Sum(bases[|bases| - 1], bs, bs);
      if limit.Some? {
        if |bases| > 1 {
          Increasing(bases, bs, 0, |bases| - 1);
        }
        Difference(tail, bases[0], bs);
        if tail - bases[0] < limit.value {
          Steps(tail - bases[0], limit.value, bs);
        }
      }
    }
  }

  // ---- the producer ----

  class ExplicitProducer<T> {
    const blockSize: nat
    const flags: bool
    const limit: Option<nat>             // MAX_SUBQUEUE_SIZE, None if it is the largest size_t

    var tailIndex: nat
    var headIndex: nat
    var optimisticCount: nat
    var overcommit: nat
    var tailBlock: Block?<T>

    var entries: array?<Entry<T>>        // the current index, null if none could be allocated
    var published: nat                   // its front: the current slot
    var slotsUsed: nat
    var indexSize: nat
    var front: nat                       // the next slot

    ghost var ring: seq<Block<T>>        // the blocks, oldest first
    ghost var bases: seq<nat>            // the index at which the stretch of each begins
    ghost var contents: seq<T>           // the elements, oldest first

    ghost predicate CountersOk()
      reads this
    {
      && tailIndex == headIndex + |contents| && optimisticCount == headIndex + overcommit
      && blockSize > 1 && (limit.Some? ==> Multiple(limit.value, blockSize))
    }

    ghost predicate PlacesOk()
      reads this
    {
      blockSize > 1 && |bases| == |ring| == slotsUsed && Places(bases, blockSize, headIndex, tailIndex, limit)
    }

    ghost predicate IndexOk()
      reads `entries, `front, `published, `indexSize, `ring, `bases, entries
    {
      && indexSize > 0
      && (entries == null ==> ring == [])
      && (entries != null ==> entries.Length == indexSize && front < indexSize && |ring| <= indexSize && Window(entries[..], front, ring, bases)
                              && (ring != [] ==> published == Back(front, indexSize, 1)))
    }

    ghost predicate RingOk()
      reads this, ring
    {
      && |bases| == |ring| && Linked(ring) && AllOk(ring, blockSize, flags, bases, headIndex, contents)
      && tailBlock == (if ring == [] then null else ring[|ring| - 1])
    }

    /** The invariant, but for whether the last block has been used. */
    ghost predicate Core()
      reads this, ring, entries
    {
      CountersOk() && PlacesOk() && IndexOk() && RingOk()
    }

    ghost predicate Valid()
      reads this, ring, entries
    {
      Core() && (ring != [] ==> bases[|bases| - 1] < tailIndex)
    }

    /** The constructor: `initialIndexSize` is at least 2; the allocation of the index may fail. */
    constructor (blockSize: nat, flags: bool, limit: Option<nat>, initialIndexSize: nat, allocates: bool)
      requires blockSize > 1 && (limit.Some? ==> Multiple(limit.value, blockSize)) && initialIndexSize > 1
      ensures Valid() && contents == [] && ring == [] && (entries == null || fresh(entries))
      ensures this.blockSize == blockSize && this.flags == flags && this.limit == limit
      ensures indexSize == if allocates then initialIndexSize / 2 * 2 else initialIndexSize / 2
    {
      this.blockSize, this.flags, this.limit := blockSize, flags, limit;
      tailIndex, headIndex, optimisticCount, overcommit, tailBlock := 0, 0, 0, 0, null;
      entries, published, slotsUsed, front := null, 0, 0, 0;
      indexSize := initialIndexSize / 2;
      ring, bases, contents := [], [], [];
      new;
      var ok := NewBlockIndex(allocates);
    }

    /** new_block_index: an index twice as long, with the same entries. */
    method NewBlockIndex(allocates: bool) returns (ok: bool)
      requires CountersOk() && PlacesOk() && IndexOk()
      modifies this`entries, this`published, this`front, this`indexSize
      ensures IndexOk() && ok == allocates
      ensures ok ==> fresh(entries) && slotsUsed < indexSize == 2 * old(indexSize)
      ensures !ok ==> entries == old(entries) && published == old(published) && front == old(front) && indexSize == old(indexSize)
    {
      var prevSize := indexSize;
      if !allocates {
        return false;
      }
      var copy := new Entry<T>[2 * prevSize](_ => Entry(0, null));
      var j := 0;
      if slotsUsed != 0 {
        j := CopyEntries(copy);
      }
      indexSize := 2 * prevSize;
      published := if j == 0 then 0 else j - 1;
      front := j;
      entries := copy;
      ok := true;
    }

    /** The copying loop of new_block_index. */
    method CopyEntries(copy: array<Entry<T>>) returns (j: nat)
      requires PlacesOk() && IndexOk() && ring != [] && copy != entries && copy.Length == 2 * indexSize
      modifies copy
      ensures j == slotsUsed && forall t :: 0 <= t < j ==> copy[t] == Entry(bases[t], ring[t])
    {
      j := 0;
      var i := Back(front, indexSize, slotsUsed);
      while true
        invariant j < slotsUsed && i == Back(front, indexSize, slotsUsed - j)
        invariant forall t :: 0 <= t < j ==> copy[t] == Entry(bases[t], ring[t])
        decreases slotsUsed - j
      {
        copy[j] := entries[i];
        assert entries[..][i] == Entry(bases[j], ring[j]);
        j := j + 1;
        i := Next(i, indexSize);
        if i == front {
          return;
        }
      }
    }

    /** Whether the code refuses to start another block: it could let the tail pass the head, or
        exceed the size limit. */
    predicate Refused()
      reads this
    {
      || tailIndex - headIndex + blockSize >= DequeueCounters.HALF
      || (limit.Some? && (limit.value == 0 || limit.value - blockSize < tailIndex - headIndex))
    }

    /** It refuses exactly if with another block there would be half the index range or more places than
        the limit beyond the head. */
    lemma RefusedExact()
      requires CountersOk()
      ensures Refused() <==> |contents| + blockSize >= 0x8000_0000_0000_0000
                             || (limit.Some? && |contents| + blockSize > limit.value)
    {
    }

    /** Whether the block after the last one can be used again. */
    ghost predicate CanReuse()
      reads this
    {
      bases != [] && bases[0] + blockSize <= headIndex
    }

    /** Put the last block on the index. */
    method Publish(ghost kept: seq<Block<T>>, ghost keptBases: seq<nat>)
      requires tailBlock != null && entries != null && entries.Length == indexSize && front < indexSize
      requires Window(entries[..][front := Entry(tailIndex, tailBlock)], Next(front, indexSize), kept, keptBases)
      requires kept != []
      modifies this`published, this`front, entries
      ensures Window(entries[..], front, kept, keptBases) && front < indexSize && published == Back(front, indexSize, 1)
    {
      entries[front] := Entry(tailIndex, tailBlock);
      assert entries[..] == old(entries[..])[old(front) := Entry(tailIndex, tailBlock)];
      published := front;
      front := Next(front, indexSize);
    }

    /** The block ahead is empty: use it again. */
    method Reuse()
      requires Valid() && CanReuse() && tailIndex == bases[|bases| - 1] + blockSize
      modifies this`tailBlock, this`published, this`front, this`ring, this`bases, entries, ring
      ensures Core() && ring == old(ring[1..] + [ring[0]]) && bases == old(bases[1..] + [tailIndex])
    {
      hide Places, AllOk, BlockOk, Linked, Window, Next, Back, Multiple;
      PlacesRotate(bases, blockSize, headIndex, tailIndex, limit);
      WindowRotates(entries[..], front, ring, bases, tailIndex, ring[0]);
      Rotate();
      Publish(ring, bases);
    }

    /** The ring's part of that. */
    method Rotate()
      requires CountersOk() && RingOk() && CanReuse()
      modifies this`tailBlock, this`ring, this`bases, ring
      ensures RingOk() && ring == old(ring[1..] + [ring[0]]) && bases == old(bases[1..] + [tailIndex])
    {
      hide BlockOk, AllOk, Holds, Places, Consecutive;
      ghost var b, rest, restBases := ring[0], ring[1..], bases[1..];
      assert tailBlock.next == After(ring, |ring| - 1) == b;
      LinkedRotates(ring);
      AllOkDrop(ring, blockSize, flags, bases, headIndex, contents);
      tailBlock := tailBlock.next;
      Recycled(b, blockSize, flags, bases[0], headIndex, contents, tailIndex);
      tailBlock.ResetEmpty();
      InPlace(b, blockSize, flags, tailIndex, headIndex, contents);
      AllOkAdd(rest, blockSize, flags, restBases, headIndex, contents, b, tailIndex);
      ring, bases := rest + [b], restBases + [tailIndex];
    }

    /** Insert a new block behind the last one. */
    method Insert(spare: Block<T>)
      requires Valid() && entries != null && slotsUsed < indexSize && !CanReuse() && !Refused()
      requires bases != [] ==> tailIndex == bases[|bases| - 1] + blockSize
      requires Spare(spare)
      modifies this`tailBlock, this`published, this`front, this`slotsUsed, this`ring, this`bases, entries, ring, spare
      ensures Core() && ring == old(ring) + [spare] && bases == old(bases) + [tailIndex]
    {
      hide Places, AllOk, BlockOk, Linked, Window, Next, Back, Multiple;
      PlacesGrow(bases, blockSize, headIndex, tailIndex, limit);
      WindowGrows(entries[..], front, ring, bases, tailIndex, spare);
      Link(spare);
      slotsUsed := slotsUsed + 1;
      Publish(ring, bases);
    }

    /** What requisition_block may return: a block in nobody's use. */
    ghost predicate Spare(b: Block<T>)
      reads this, b
    {
      b !in ring && b.Formed() && b.size == blockSize && b.flags == flags && b.Vacant()
    }

    /** The circular list's part of that. */
    static method LinkIn(last: Block?<T>, spare: Block<T>, ghost ring: seq<Block<T>>)
      requires Linked(ring) && spare !in ring && last == (if ring == [] then null else ring[|ring| - 1])
      modifies spare`next, ring`next
      ensures Linked(ring + [spare])
    {
      if last == null {
        spare.next := spare;
      } else {
        assert last.next == After(ring, |ring| - 1);
        spare.next := last.next;
        last.next := spare;
      }
      LinkedGrows(ring, spare);
    }

    /** The ring's part of that. */
    method Link(spare: Block<T>)
      requires CountersOk() && RingOk() && Spare(spare)
      modifies this`tailBlock, this`ring, this`bases, ring, spare
      ensures RingOk() && ring == old(ring) + [spare] && bases == old(bases) + [tailIndex]
    {
      hide AllOk, BlockOk, Holds, Places, Consecutive, Linked;
      NewlyVacant(spare, blockSize, tailIndex, headIndex, contents);
      spare.ResetEmpty();
      LinkIn(tailBlock, spare, ring);
      tailBlock := spare;
      InPlace(spare, blockSize, flags, tailIndex, headIndex, contents);
      AllOkAdd(ring, blockSize, flags, bases, headIndex, contents, spare, tailIndex);
      ring, bases := ring + [spare], bases + [tailIndex];
    }

    /** Construct an element at the tail, in the last block. */
    method Append(x: T)
      requires Core() && ring != [] && tailIndex < bases[|bases| - 1] + blockSize
      modifies this`tailIndex, this`contents, ring
      ensures Valid() && contents == old(contents) + [x]
    {
      hide AllOk, BlockOk, Multiple, Consecutive, Distinct, Window;
      LastOffset(bases, blockSize, tailIndex);
      ConstructAt(x, tailBlock, ring, bases, blockSize, flags, headIndex, contents, |ring| - 1, tailIndex % blockSize);
      tailIndex := tailIndex + 1;
      contents := contents + [x];
    }

    /** Start another block at a block boundary. `spare` is what requisition_block returns and
        `allocates` whether an index can be allocated; where it fails, nothing changes but the index
        that may have been allocated on the way. */
    method NextBlock(spare: Block?<T>, allocates: bool) returns (ok: bool)
      requires Valid() && (bases != [] ==> tailIndex == bases[|bases| - 1] + blockSize)
      requires spare != null ==> Spare(spare)
      modifies this`tailBlock, this`entries, this`published, this`front, this`indexSize, this`slotsUsed, this`ring, this`bases
      modifies entries, ring, spare
      ensures ok == (old(CanReuse())
                     || (&& |contents| + blockSize < 0x8000_0000_0000_0000
                         && (limit.Some? ==> |contents| + blockSize <= limit.value)
                         && spare != null && (old(slotsUsed < indexSize && entries != null) || allocates)))
      ensures contents == old(contents)
      ensures Core() && (ok ==> ring != [] && tailIndex == bases[|bases| - 1])
      ensures ok && old(CanReuse()) ==> ring == old(ring[1..] + [ring[0]])
      ensures ok && !old(CanReuse()) ==> ring == old(ring) + [spare]
      ensures !ok ==> Valid() && ring == old(ring) && bases == old(bases) && forall b :: b in ring ==> unchanged(b)
      ensures fresh(entries) || entries == old(entries)
    {
      hide Places, AllOk, Linked, Window, Next, Back;
      ok := false;
      var reusable := false;
      if tailBlock != null {
        reusable := AheadIsEmpty();
      }
      if reusable {
        Reuse();
        return true;
      }
      RefusedExact();
      if Refused() {
        return;
      }
      if entries == null || slotsUsed == indexSize {
        ok := NewBlockIndex(allocates);
        if !ok {
          return;
        }
      }
      if spare == null {
        return false;
      }
      Insert(spare);
      return true;
    }

    /** Is the block after the last one empty? */
    method AheadIsEmpty() returns (r: bool)
      requires Valid() && tailBlock != null
      ensures r == CanReuse()
    {
      hide Window, Holds;
      assert tailBlock.next == After(ring, |ring| - 1) == ring[0];
      AllOkDrop(ring, blockSize, flags, bases, headIndex, contents);
      BelowFacts(bases[0], headIndex, blockSize);
      r := tailBlock.next.IsEmpty(Below(bases[0], headIndex, blockSize));
    }

    /** enqueue: on success the element joins at the end, on failure nothing has changed. It fails only
        at a block boundary, when the block ahead is still in use and none can be added. */
    method Enqueue(x: T, spare: Block?<T>, allocates: bool) returns (ok: bool)
      requires Valid() && (spare != null ==> Spare(spare))
      modifies this, entries, ring, spare
      ensures Valid() && contents == (if ok then old(contents) + [x] else old(contents))
      ensures headIndex == old(headIndex) && tailIndex == old(tailIndex) + (if ok then 1 else 0)
      ensures ok == (old(!Multiple(tailIndex, blockSize) || CanReuse())
                     || (&& |old(contents)| + blockSize < 0x8000_0000_0000_0000
                         && (limit.Some? ==> |old(contents)| + blockSize <= limit.value)
                         && spare != null && (old(slotsUsed < indexSize && entries != null) || allocates)))
      ensures if ok && old(Multiple(tailIndex, blockSize)) then ring == (if old(CanReuse()) then old(ring[1..] + [ring[0]]) else old(ring) + [spare])
              else ring == old(ring)
      ensures !ok ==> forall b :: b in ring ==> unchanged(b)
      ensures fresh(entries) || entries == old(entries)
    {
      hide Places, AllOk, Linked, Window, Multiple;
      BoundaryFacts();
      if tailIndex % blockSize == 0 {
        ok := NextBlock(spare, allocates);
        if !ok {
          return;
        }
      }
      Append(x);
      return true;
    }

    /** The sub-queue never holds more than the limit. */
    lemma SizeLimit()
      requires Valid() && limit.Some?
      ensures |contents| <= limit.value
    {
      if bases == [] {
        assert tailIndex == 0;
      }
    }

    lemma BoundaryFacts()
      requires Valid()
      ensures Multiple(tailIndex, blockSize) <==> tailIndex % blockSize == 0
      ensures bases == [] ==> Multiple(tailIndex, blockSize)
      ensures bases != [] ==> (Multiple(tailIndex, blockSize) <==> tailIndex == bases[|bases| - 1] + blockSize)
      ensures bases != [] ==> tailIndex <= bases[|bases| - 1] + blockSize
    {
      if bases != [] {
        Boundary(bases, blockSize, tailIndex);
      } else {
        Times(0, blockSize);
      }
    }

    /** Which block the element at `index` is in, by its distance from the newest entry. */
    method FindBlock(index: nat) returns (block: Block<T>, ghost i: nat)
      requires PlacesOk() && IndexOk() && bases != [] && bases[0] <= index < bases[|bases| - 1] + blockSize
      ensures i < |ring| && block == ring[i] && bases[i] <= index < bases[i] + blockSize
    {
      hide Multiple, Consecutive, Back;
      i := Find(bases, blockSize, index);
      ghost var n := |ring|;
      BackBack(front, indexSize, n - 1 - i);
      assert entries[..][Back(front, indexSize, n - (n - 1))] == Entry(bases[n - 1], ring[n - 1]);
      assert entries[..][Back(front, indexSize, n - i)] == Entry(bases[i], ring[i]);
      var headBase := entries[published].base;
      var blockBaseIndex := index - index % blockSize;
      var offset := (headBase - blockBaseIndex) / blockSize;
      block := entries[Back(published, indexSize, offset)].block;
    }

    /** What a dequeue does once it has claimed `index`. */
    method TakeHead(index: nat) returns (x: T)
      requires PlacesOk() && IndexOk() && Linked(ring) && AllOk(ring, blockSize, flags, bases, index, contents)
      requires bases != [] && bases[0] <= index < bases[|bases| - 1] + blockSize && contents != []
      modifies this`contents, ring
      ensures Linked(ring) && AllOk(ring, blockSize, flags, bases, index + 1, contents)
      ensures x == old(contents[0]) && contents == old(contents[1..])
    {
      hide AllOk, BlockOk, Distinct, Window, Multiple, Consecutive, Back, IndexOk;
      ghost var i;
      var block;
      block, i := FindBlock(index);
      var empty;
      x, empty := DestroyAt(block, ring, bases, blockSize, flags, index, contents, i);
      contents := contents[1..];
    }

    /** dequeue: it returns the oldest element, and fails only if there is none. */
    method Dequeue() returns (r: Option<T>)
      requires Valid()
      modifies this`headIndex, this`optimisticCount, this`overcommit, this`contents, ring
      ensures Valid() && tailIndex == old(tailIndex)
      ensures old(contents) == [] ==> r == None && contents == [] && forall b :: b in ring ==> unchanged(b)
      ensures old(contents) != [] ==> r == Some(old(contents[0])) && contents == old(contents[1..])
    {
      hide Places, AllOk, BlockOk, Linked, Window, Multiple, Consecutive, Back, IndexOk;
      if optimisticCount - overcommit < tailIndex {
        var myDequeueCount := optimisticCount;
        optimisticCount := optimisticCount + 1;
        if myDequeueCount - overcommit < tailIndex {
          var index := headIndex;
          HeadMoves(bases, blockSize, headIndex, tailIndex, limit);
          headIndex := headIndex + 1;
          var x := TakeHead(index);
          return Some(x);
        } else {
          assert false;
        }
      }
      return None;
    }
  }
}
