/** The implicit producer's index: a circular array of shared entries. The entries before the tail
    lead to the blocks in use, newest last; an entry whose block is gone is free to be used again. */
module BlockIndex {
  import opened Alignment
  import opened Blocks
  import opened Common
  import opened Stretches

  const INVALID_BLOCK_BASE: nat := 1           // no base, since the block size is greater than 1

  class IndexEntry<T> {
    var key: nat
    var value: Block?<T>                       // anything, as long as the key is invalid

    constructor ()
      ensures key == INVALID_BLOCK_BASE
    {
      key := INVALID_BLOCK_BASE;
      value := *;
    }
  }

  predicate Free<T>(e: IndexEntry<T>)
    reads e
  {
    e.key == INVALID_BLOCK_BASE || e.value == null
  }

  ghost predicate Leads<T>(e: IndexEntry<T>, base: nat, b: Block<T>)
    reads e
  {
    e.key == base && e.value == b && base != INVALID_BLOCK_BASE
  }

  /** (i + off) & (size - 1), for a power of two and -size < off < size. */
  function Shift(i: nat, size: nat, off: int): (r: nat)
    requires i < size && 0 < size + off && off < size
    ensures r < size
  {
    if i + off < 0 then i + off + size else if i + off >= size then i + off - size else i + off
  }

  lemma ShiftBack(t: nat, size: nat, a: nat, b: nat)
    requires t < size && a < size && b < size
    ensures Shift(Back(t, size, a), size, a - b) == Back(t, size, b)
  {
  }

  lemma NextBack(t: nat, size: nat, k: nat)
    requires t < size && k < size
    ensures Back(Next(t, size), size, k + 1) == Back(t, size, k)
    ensures Back(t, size, size - 1) == Next(t, size)
    ensures Back(Next(t, size), size, 1) == t
  {
  }

  lemma BackInjective(t: nat, size: nat, a: nat, b: nat)
    requires t < size && a < size && b < size && Back(t, size, a) == Back(t, size, b)
    ensures a == b
  {
  }

  /** The entry `k` before the tail. */
  function Slot<T>(index: seq<IndexEntry<T>>, tail: nat, k: nat): IndexEntry<T>
    requires tail < |index| && k < |index|
  {
    index[Back(tail, |index|, k)]
  }

  /** The last `|ring|` entries lead to the blocks of the ring; all others are free. */
  ghost predicate Live<T>(index: seq<IndexEntry<T>>, tail: nat, ring: seq<Block<T>>, bases: seq<nat>)
    reads index
  {
    && tail < |index| && |ring| == |bases| <= |index| && Distinct(index)
    && (forall k :: 0 <= k < |ring| ==> Leads(Slot(index, tail, k), bases[|ring| - 1 - k], ring[|ring| - 1 - k]))
    && (forall k :: |ring| <= k < |index| ==> Free(Slot(index, tail, k)))
  }

  /** The same, with an entry at the tail that has a key but no block yet. */
  ghost predicate Pending<T>(index: seq<IndexEntry<T>>, tail: nat, ring: seq<Block<T>>, bases: seq<nat>, base: nat)
    reads index
  {
    && tail < |index| && |ring| == |bases| < |index| && Distinct(index)
    && Slot(index, tail, 0).key == base
    && (forall k :: 1 <= k <= |ring| ==> Leads(Slot(index, tail, k), bases[|ring| - k], ring[|ring| - k]))
    && (forall k :: |ring| < k < |index| ==> Free(Slot(index, tail, k)))
  }

  /** Is there room: is the next entry free? */
  lemma RoomIffFree<T>(index: seq<IndexEntry<T>>, tail: nat, ring: seq<Block<T>>, bases: seq<nat>)
    requires Live(index, tail, ring, bases)
    ensures Free(index[Next(tail, |index|)]) <==> |ring| < |index|
  {
    var n := |index|;
    NextBack(tail, n, 0);
    assert Slot(index, tail, n - 1) == index[Next(tail, n)];
    if |ring| == n {
      assert Leads(Slot(index, tail, n - 1), bases[|ring| - 1 - (n - 1)], ring[|ring| - 1 - (n - 1)]);
    }
  }

  /** Claim the next entry for a block at `base`. */
  method Claim<T>(index: seq<IndexEntry<T>>, tail: nat, base: nat, ghost ring: seq<Block<T>>, ghost bases: seq<nat>)
    returns (newTail: nat)
    requires Live(index, tail, ring, bases) && |ring| < |index|
    modifies index`key
    ensures newTail == Next(tail, |index|) && Pending(index, newTail, ring, bases, base)
  {
    newTail := Next(tail, |index|);
    NextBack(tail, |index|, 0);
    ghost var n, e := |index|, index[newTail];
    forall k | 0 <= k < n - 1 ensures Slot(index, newTail, k + 1) == Slot(index, tail, k) && Slot(index, tail, k) != e {
      NextBack(tail, n, k);
      if Back(tail, n, k) == newTail {
        BackInjective(tail, n, k, n - 1);
      }
    }
    index[newTail].key := base;
    forall k | 1 <= k < n ensures Slot(index, newTail, k) == Slot(index, tail, k - 1) {
      assert Slot(index, newTail, (k - 1) + 1) == Slot(index, tail, k - 1);
    }
  }

  /** Give the claimed entry its block. */
  method Fill<T>(index: seq<IndexEntry<T>>, tail: nat, base: nat, b: Block<T>, ghost ring: seq<Block<T>>, ghost bases: seq<nat>)
    requires Pending(index, tail, ring, bases, base) && base != INVALID_BLOCK_BASE
    modifies index`value
    ensures Live(index, tail, ring + [b], bases + [base])
  {
    Apart(index, tail, 0);
    index[tail].value := b;
    ghost var ring', bases', n := ring + [b], bases + [base], |ring| + 1;
    forall k | 0 <= k < n ensures Leads(Slot(index, tail, k), bases'[n - 1 - k], ring'[n - 1 - k]) {
      if k > 0 {
        assert Leads(Slot(index, tail, k), bases[|ring| - k], ring[|ring| - k]);
      }
    }
  }

  /** The entries other than the one `j` before the tail. */
  lemma Apart<T>(index: seq<IndexEntry<T>>, tail: nat, j: nat)
    requires tail < |index| && j < |index| && Distinct(index)
    ensures forall k :: 0 <= k < |index| && k != j ==> Slot(index, tail, k) != Slot(index, tail, j)
  {
    forall k | 0 <= k < |index| && k != j ensures Slot(index, tail, k) != Slot(index, tail, j) {
      if Back(tail, |index|, k) == Back(tail, |index|, j) {
        BackInjective(tail, |index|, k, j);
      }
    }
  }

  /** rewind_block_index_tail, and let the claimed entry go: there was no block for it. */
  method Cancel<T>(index: seq<IndexEntry<T>>, tail: nat, ghost base: nat, ghost ring: seq<Block<T>>, ghost bases: seq<nat>)
    returns (newTail: nat)
    requires Pending(index, tail, ring, bases, base)
    modifies index`value
    ensures newTail == Back(tail, |index|, 1) && Live(index, newTail, ring, bases)
  {
    ghost var n := |index|;
    newTail := Back(tail, |index|, 1);
    Apart(index, tail, 0);
    forall k | 0 <= k < n - 1 ensures Slot(index, newTail, k) == Slot(index, tail, k + 1) {
      BackTwice(tail, n, k);
    }
    assert Slot(index, newTail, n - 1) == Slot(index, tail, 0);
    index[tail].value := null;
  }

  lemma BackTwice(t: nat, size: nat, k: nat)
    requires t < size && k + 1 < size
    ensures Back(Back(t, size, 1), size, k) == Back(t, size, k + 1)
  {
  }

  /** The oldest block is gone: its entry is free again. */
  method Release<T>(index: seq<IndexEntry<T>>, tail: nat, e: IndexEntry<T>, ghost ring: seq<Block<T>>, ghost bases: seq<nat>)
    requires Live(index, tail, ring, bases) && ring != [] && e == Slot(index, tail, |ring| - 1)
    modifies e`value
    ensures Live(index, tail, ring[1..], bases[1..])
  {
    ghost var n := |ring|;
    Apart(index, tail, n - 1);
    e.value := null;
    forall k | 0 <= k < n - 1 ensures Leads(Slot(index, tail, k), bases[1..][n - 2 - k], ring[1..][n - 2 - k]) {
      assert Leads(Slot(index, tail, k), bases[n - 1 - k], ring[n - 1 - k]);
    }
  }

  /** get_block_index_entry_for_index: count blocks from the tail's entry. */
  method FindEntry<T>(index: seq<IndexEntry<T>>, tail: nat, bs: nat, x: nat, ghost ring: seq<Block<T>>, ghost bases: seq<nat>)
    returns (e: IndexEntry<T>, ghost i: nat)
    requires Live(index, tail, ring, bases) && bs > 0 && Consecutive(bases, bs) && bases != []
    requires bases[0] <= x < bases[|bases| - 1] + bs
    ensures i < |ring| && bases[i] <= x < bases[i] + bs && e == Slot(index, tail, |ring| - 1 - i) && e.value == ring[i]
  {
    hide Multiple, Consecutive, Back;
    i := FindStretch(bases, bs, x);
    ghost var n := |ring|;
    OffsetIn(bases, bs, i, x);
    Distance(bases, bs, i, n - 1);
    BlocksBack(bases[n - 1], bases[i], n - 1 - i, bs);
    assert Leads(Slot(index, tail, 0), bases[n - 1 - 0], ring[n - 1 - 0]);
    assert Leads(Slot(index, tail, n - 1 - i), bases[n - 1 - (n - 1 - i)], ring[n - 1 - (n - 1 - i)]);
    BackNone(tail, |index|);
    ShiftBack(tail, |index|, 0, n - 1 - i);
    var base := x - x % bs;
    var tailBase := index[tail].key;
    var offset := (base - tailBase) / bs;
    e := index[Shift(tail, |index|, offset)];
  }

  lemma BackNone(t: nat, size: nat)
    requires t < size
    ensures Back(t, size, 0) == t
  {
  }

  /** A distance of `q` blocks divided by the block size, both ways. */
  lemma BlocksBack(later: nat, earlier: nat, q: nat, bs: nat)
    requires bs > 0 && later == earlier + q * bs
    ensures (later - earlier) / bs == q && (earlier - later) / bs == 0 - q
  {
    Exact(q, bs);
    Exact(0 - q, bs);
    assert earlier - later == (0 - q) * bs;
  }

  // ---- growth ----

  /** The first loop of new_block_index: the old entries, oldest first. */
  method CopyEntries<T>(prev: seq<IndexEntry<T>>, prevTail: nat) returns (copy: seq<IndexEntry<T>>)
    requires prevTail < |prev|
    ensures |copy| == |prev| && forall i :: 0 <= i < |prev| ==> copy[i] == prev[Back(prevTail, |prev|, |prev| - 1 - i)]
  {
    copy := [];
    var prevPos := prevTail;
    while true
      invariant |copy| < |prev| && prevPos == if |copy| == 0 then prevTail else Back(prevTail, |prev|, |prev| - |copy|)
      invariant forall i :: 0 <= i < |copy| ==> copy[i] == prev[Back(prevTail, |prev|, |prev| - 1 - i)]
      decreases |prev| - |copy|
    {
      prevPos := Next(prevPos, |prev|);
      copy := copy + [prev[prevPos]];
      if prevPos == prevTail {
        return;
      }
    }
  }

  /** The second loop: entries with invalid keys. */
  method NewEntries<T>(n: nat) returns (entries: seq<IndexEntry<T>>)
    ensures |entries| == n && Distinct(entries)
    ensures forall i :: 0 <= i < n ==> fresh(entries[i]) && entries[i].key == INVALID_BLOCK_BASE
  {
    entries := [];
    while |entries| < n
      invariant |entries| <= n && Distinct(entries)
      invariant forall i :: 0 <= i < |entries| ==> fresh(entries[i]) && entries[i].key == INVALID_BLOCK_BASE
    {
      var e := new IndexEntry<T>();
      entries := entries + [e];
    }
  }

  /** Behind the old entries come the new ones; what was found is still found. */
  lemma Grown<T>(prev: seq<IndexEntry<T>>, prevTail: nat, ring: seq<Block<T>>, bases: seq<nat>,
                 copy: seq<IndexEntry<T>>, added: seq<IndexEntry<T>>)
    requires Live(prev, prevTail, ring, bases) && |copy| == |prev| == |added|
    requires forall i :: 0 <= i < |prev| ==> copy[i] == prev[Back(prevTail, |prev|, |prev| - 1 - i)]
    requires Distinct(added) && forall i :: 0 <= i < |added| ==> added[i] !in prev && added[i].key == INVALID_BLOCK_BASE
    ensures Live(copy + added, |prev| - 1, ring, bases)
  {
    var c, index, t := |prev|, copy + added, |prev| - 1;
    forall k | 0 <= k < c ensures Slot(index, t, k) == Slot(prev, prevTail, k) {
    }
    forall k | c <= k < 2 * c ensures Slot(index, t, k) == added[2 * c - 1 - k] {
    }
    forall i, j | 0 <= i < j < |index| ensures index[i] != index[j] {
      if j < c {
        RotatedApart(prevTail, c, i, j);
      } else if i < c {
        assert copy[i] in prev;
      }
    }
    forall k | 0 <= k < |ring| ensures Leads(Slot(index, t, k), bases[|ring| - 1 - k], ring[|ring| - 1 - k]) {
      assert Leads(Slot(prev, prevTail, k), bases[|ring| - 1 - k], ring[|ring| - 1 - k]);
    }
    forall k | |ring| <= k < |index| ensures Free(Slot(index, t, k)) {
      if k < c {
        assert Free(Slot(prev, prevTail, k));
      }
    }
  }

  lemma RotatedApart(t: nat, size: nat, i: nat, j: nat)
    requires t < size && i < j < size
    ensures Back(t, size, size - 1 - i) != Back(t, size, size - 1 - j)
  {
  }

  /** new_block_index, once its memory has been allocated. */
  method Grow<T>(prev: seq<IndexEntry<T>>, prevTail: nat, capacity: nat, ghost ring: seq<Block<T>>, ghost bases: seq<nat>)
    returns (index: seq<IndexEntry<T>>, tail: nat)
    requires if prev == [] then ring == [] && bases == [] && capacity > 0 else Live(prev, prevTail, ring, bases) && capacity == 2 * |prev|
    ensures |index| == capacity && Live(index, tail, ring, bases) && forall i :: 0 <= i < |index| ==> index[i] in prev || fresh(index[i])
  {
    if prev == [] {
      index := NewEntries(capacity);
      tail := capacity - 1;
    } else {
      hide Back;
      var copy := CopyEntries(prev, prevTail);
      var added := NewEntries(|prev|);
      Grown(prev, prevTail, ring, bases, copy, added);
      index, tail := copy + added, |prev| - 1;
    }
  }

  // ---- undoing ----

  /** Blocks from position `n` on are being taken out again, `r` of them so far: their entries keep their
      keys but have lost their blocks, and the tail has been put back as many times. */
  ghost predicate Undoing<T>(index: seq<IndexEntry<T>>, top: nat, ring: seq<Block<T>>, bases: seq<nat>, n: nat, r: nat)
    reads index
  {
    && top < |index| && |ring| == |bases| <= |index| && n + r <= |ring| && Distinct(index)
    && (forall k :: 0 <= k < |ring| ==> Undone(Slot(index, top, k), bases[|ring| - 1 - k], ring[|ring| - 1 - k], n <= |ring| - 1 - k < n + r))
    && (forall k :: |ring| <= k < |index| ==> Free(Slot(index, top, k)))
  }

  ghost predicate Undone<T>(e: IndexEntry<T>, base: nat, b: Block<T>, undone: bool)
    reads e
  {
    e.key == base && base != INVALID_BLOCK_BASE && e.value == if undone then null else b
  }

  /** One round of undoing: the block at `n + r` is found from a tail that has already been put back `r`
      times, let go, and the tail is put back once more. */
  method Undo<T>(index: seq<IndexEntry<T>>, tail: nat, bs: nat, x: int, ghost top: nat, ghost ring: seq<Block<T>>,
                 ghost bases: seq<nat>, ghost n: nat, ghost r: nat) returns (newTail: nat)
    requires Undoing(index, top, ring, bases, n, r) && n + r < |ring| && tail == Back(top, |index|, r)
    requires bs > 0 && Consecutive(bases, bs) && x == bases[n + r]
    modifies index`value
    ensures Undoing(index, top, ring, bases, n, r + 1) && newTail == Back(tail, |index|, 1)
    ensures newTail == if r + 1 < |index| then Back(top, |index|, r + 1) else top
  {
    hide Multiple, Consecutive, Back, Next;
    ghost var len, c := |ring|, |index|;
    ghost var k := len - 1 - (n + r);
    assert Undone(Slot(index, top, r), bases[len - 1 - r], ring[len - 1 - r], n <= len - 1 - r < n + r);
    if n + r <= len - 1 - r {
      Distance(bases, bs, n + r, len - 1 - r);
      BlocksBack(bases[len - 1 - r], x, len - 1 - r - (n + r), bs);
    } else {
      Distance(bases, bs, len - 1 - r, n + r);
      BlocksBack(x, bases[len - 1 - r], n + r - (len - 1 - r), bs);
    }
    ShiftBack(top, c, r, k);
    var tailBase := index[tail].key;
    var offset := (x - tailBase) / bs;
    var e := index[Shift(tail, |index|, offset)];
    assert e == Slot(index, top, k);
    Apart(index, top, k);
    e.value := null;
    newTail := Back(tail, |index|, 1);
    BackThen(top, c, r);
    forall j | 0 <= j < len ensures Undone(Slot(index, top, j), bases[len - 1 - j], ring[len - 1 - j], n <= len - 1 - j < n + r + 1) {
      if j != k {
        assert old(Undone(Slot(index, top, j), bases[len - 1 - j], ring[len - 1 - j], n <= len - 1 - j < n + r));
      }
    }
  }

  lemma BackThen(t: nat, size: nat, r: nat)
    requires t < size && r < size
    ensures Back(Back(t, size, r), size, 1) == if r + 1 < size then Back(t, size, r + 1) else t
  {
  }

  lemma UndoStarts<T>(index: seq<IndexEntry<T>>, tail: nat, ring: seq<Block<T>>, bases: seq<nat>, n: nat)
    requires Live(index, tail, ring, bases) && n <= |ring|
    ensures Undoing(index, tail, ring, bases, n, 0)
  {
    forall k | 0 <= k < |ring| ensures Undone(Slot(index, tail, k), bases[|ring| - 1 - k], ring[|ring| - 1 - k], false) {
      assert Leads(Slot(index, tail, k), bases[|ring| - 1 - k], ring[|ring| - 1 - k]);
    }
  }

  /** When all of them are out, the index is as it was before they came. */
  lemma UndoEnds<T>(index: seq<IndexEntry<T>>, top: nat, tail: nat, ring: seq<Block<T>>, bases: seq<nat>, n: nat)
    requires n <= |ring| && Undoing(index, top, ring, bases, n, |ring| - n)
    requires if |ring| - n < |index| then tail == Back(top, |index|, |ring| - n) else tail == top
    ensures Live(index, tail, ring[..n], bases[..n])
  {
    var m, len, c := |ring| - n, |ring|, |index|;
    if m < c {
      forall k | 0 <= k < c ensures
        Slot(index, tail, k) == Slot(index, top, if k + m < c then k + m else k + m - c)
      {
      }
    }
    forall k | 0 <= k < n ensures Leads(Slot(index, tail, k), bases[..n][n - 1 - k], ring[..n][n - 1 - k]) {
      assert Undone(Slot(index, top, k + m), bases[len - 1 - (k + m)], ring[len - 1 - (k + m)], n <= len - 1 - (k + m) < n + m);
    }
    forall k | n <= k < c ensures Free(Slot(index, tail, k)) {
      var j := if k + m < c then k + m else k + m - c;
      if j < len {
        assert Undone(Slot(index, top, j), bases[len - 1 - j], ring[len - 1 - j], n <= len - 1 - j < n + m);
      } else {
        assert Free(Slot(index, top, j));
      }
    }
  }
}
