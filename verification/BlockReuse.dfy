/** Blocks of the explicit producer used again while consumers are still at work in them. One producer
    enqueues; any number of consumers have claimed indices (that an index claimed is below the tail is
    DequeueCounters' result) and look up their blocks, move their elements out and record that, one
    atomic step at a time. Calls that the producer makes on its own variables are single steps. */
module BlockReuse {
  import opened Alignment
  import opened Blocks
  import Bytes
  import opened Common
  import Runs

  type Size = n: nat | n > 1 witness 2

  // ---- indices and positions ----

  /** The block that an index falls into, counted from the first ever started, and its place there. */
  function Num(x: nat, bs: Size): nat { x / bs }
  function Off(x: nat, bs: Size): nat { x % bs }
  function Ix(k: nat, o: nat, bs: Size): nat { k * bs + o }

  lemma Parts(x: nat, bs: Size)
    ensures Off(x, bs) < bs && Ix(Num(x, bs), Off(x, bs), bs) == x
  {
  }

  lemma PartsUnique(k: nat, o: nat, bs: Size)
    requires o < bs
    ensures Num(Ix(k, o, bs), bs) == k && Off(Ix(k, o, bs), bs) == o
  {
    Bytes.DivUnique(Ix(k, o, bs), bs, k, o);
    var x := Ix(k, o, bs);
    assert (x / bs - k) * bs == 0;
    NoMultiple(x / bs - k, bs);
  }

  lemma Ordered(k: nat, o: nat, j: nat, bs: Size)
    requires o < bs
    ensures k < j ==> Ix(k, o, bs) < Ix(j, 0, bs)
    ensures k >= j ==> Ix(k, o, bs) >= Ix(j, 0, bs)
  {
    if k < j {
      NotNegative(j - k - 1, bs);
      assert j * bs == (j - k - 1) * bs + k * bs + bs;
    } else {
      NotNegative(k - j, bs);
      assert k * bs == (k - j) * bs + j * bs;
    }
  }

  lemma NotNegative(q: nat, bs: Size)
    ensures q * bs >= 0
  {
  }

  lemma FirstOf(k: nat, o: nat, bs: Size)
    ensures Ix(k, o, bs) == Ix(k, 0, bs) + o && Ix(k + 1, 0, bs) == Ix(k, 0, bs) + bs
  {
  }

  /** An index from the `k`th block's first on and before the `j`th's is in one of the blocks between. */
  lemma InBlocks(x: nat, k: nat, j: nat, bs: Size)
    ensures x < Ix(j, 0, bs) <==> Num(x, bs) < j
    ensures Ix(k, 0, bs) <= x <==> k <= Num(x, bs)
  {
    hide Num, Off, Ix;
    Parts(x, bs);
    Ordered(Num(x, bs), Off(x, bs), j, bs);
    Ordered(Num(x, bs), Off(x, bs), k, bs);
  }

  // ---- the state ----

  datatype Entry = Entry(base: nat, block: nat)

  /** A circular index: `entries`, and the slot of the newest block. Auxiliary: `shift` is the block at
      slot 0 first, `wrote` how many blocks have been entered and `published` how many of them shown. */
  datatype Header = Header(entries: seq<Entry>, front: nat, shift: nat, wrote: nat, published: nat)

  datatype Cells<T> = Cells(elements: seq<Option<T>>, done: set<nat>)

  /** What the producer does next in enqueue. */
  datatype Producer<T> =
    | Resting
    | Check(v: T, k: nat)          // is_empty of the block ahead: its flags below k are set
    | Acquire(v: T)                // no: another block is needed
    | Reset(v: T, k: nat)          // reset_empty: the flags below k are clear
    | Enter(v: T)                  // write the index entry
    | Publish(v: T)                // front.store
    | Construct(v: T)
    | Store(v: T)                  // tailIndex.store

  /** What a consumer does next with the index `x` it has claimed. */
  datatype Pc =
    | Idle
    | LoadIndex(x: nat)
    | LoadFront(x: nat, h: nat)
    | ReadBase(x: nat, h: nat, f: nat, g: nat)     // auxiliary: g is the block at slot f
    | ReadBlock(x: nat, h: nat, slot: nat)
    | Move(x: nat, b: nat)
    | SetEmpty(x: nat, b: nat)

  /** `blocks` are all blocks there are and `headers` all indices, the newest one in use; `next` is the
      producer's next slot. Auxiliary: `ring` is every block in the order in which they were started -
      a block used again occurs again - of which those from `oldest` on are in use; `items` are the
      elements ever enqueued; `flying` are the indices claimed and not finished with, `waiting` those
      of them whose elements are still in place. */
  datatype State<T> = State(bs: Size, flags: bool, tail: nat, head: nat, blocks: seq<Cells<T>>, headers: seq<Header>, next: nat,
                            indexSize: nat, producer: Producer<T>, pcs: seq<Pc>,
                            ring: seq<nat>, oldest: nat, items: seq<T>, flying: set<nat>, waiting: set<nat>)

  /** What the environment chooses: whether room for another block can be had, and what the record of
      the block it gives holds. */
  datatype Choice = GiveUp | Have(done: set<nat>)

  datatype Action<T> = Enqueue(v: T) | Produce(choice: Choice) | Claim(t: nat) | Consume(t: nat)

  predicate Enabled<T>(s: State<T>, a: Action<T>) {
    match a
    case Enqueue(_) => s.producer.Resting?
    case Produce(_) => !s.producer.Resting?
    case Claim(t) => t < |s.pcs| && s.pcs[t].Idle? && s.head < s.tail
    case Consume(t) => t < |s.pcs| && !s.pcs[t].Idle?
  }

  // ---- the transitions ----

  function Last<T>(s: State<T>): nat { if s.ring == [] then 0 else s.ring[|s.ring| - 1] }

  /** The block after the last one in the circle: the oldest. */
  function Ahead<T>(s: State<T>): nat { if s.oldest < |s.ring| then s.ring[s.oldest] else 0 }

  function CellsAt<T>(s: State<T>, b: nat): Cells<T> { if b < |s.blocks| then s.blocks[b] else Cells([], {}) }

  function HeaderAt<T>(s: State<T>, h: nat): Header { if h < |s.headers| then s.headers[h] else Header([], 0, 0, 0, 0) }

  function EntryAt(h: Header, slot: nat): Entry { if slot < |h.entries| then h.entries[slot] else Entry(0, 0) }

  function WithBlock<T>(s: State<T>, b: nat, c: Cells<T>): State<T> {
    if b < |s.blocks| then s.(blocks := s.blocks[b := c]) else s
  }

  function WithHeader<T>(s: State<T>, h: Header): State<T> {
    if s.headers == [] then s else s.(headers := s.headers[|s.headers| - 1 := h])
  }

  function Current<T>(s: State<T>): Header { HeaderAt(s, if s.headers == [] then 0 else |s.headers| - 1) }

  function Slot(h: Header, i: int): nat { if h.entries == [] then 0 else i % |h.entries| }

  function Step<T>(s: State<T>, a: Action<T>): State<T>
    requires Enabled(s, a)
  {
    match a
    case Enqueue(v) => s.(producer := if Off(s.tail, s.bs) != 0 then Construct(v) else if s.ring == [] then Acquire(v) else Check(v, 0))
    case Produce(choice) => ProducerStep(s, choice)
    case Claim(t) => s.(head := s.head + 1, pcs := s.pcs[t := LoadIndex(s.head)], flying := s.flying + {s.head}, waiting := s.waiting + {s.head})
    case Consume(t) => ConsumerStep(s, t)
  }

  /** Whether the index must grow before another block fits it. */
  predicate IndexFull<T>(s: State<T>) { s.headers == [] || |s.ring| - s.oldest == |Current(s).entries| }

  function ProducerStep<T>(s: State<T>, choice: Choice): State<T>
    requires !s.producer.Resting?
  {
    match s.producer
    case Check(v, k) =>
      var done := CellsAt(s, Ahead(s)).done;
      if if s.flags then s.bs - 1 - k !in done else |done| != s.bs then s.(producer := Acquire(v))
      else if s.flags && k + 1 < s.bs then s.(producer := Check(v, k + 1))
      else s.(ring := s.ring + [Ahead(s)], oldest := s.oldest + 1, producer := Reset(v, 0))
    case Acquire(v) =>
      if choice.GiveUp? then s.(producer := Resting)
      else if IndexFull(s) then Grow(s)
      else s.(blocks := s.blocks + [Cells(seq(s.bs, _ => None), Record(s, choice.done))], ring := s.ring + [|s.blocks|], producer := Reset(v, 0))
    case Reset(v, k) =>
      var c := CellsAt(s, Last(s));
      WithBlock(s, Last(s), c.(done := if s.flags then c.done - {s.bs - 1 - k} else {}))
      .(producer := if s.flags && k + 1 < s.bs then Reset(v, k + 1) else Enter(v))
    case Enter(v) =>
      var h := Current(s);
      WithHeader(s, h.(entries := if s.next < |h.entries| then h.entries[s.next := Entry(s.tail, Last(s))] else h.entries, wrote := h.wrote + 1))
      .(producer := Publish(v))
    case Publish(v) =>
      var h := Current(s);
      WithHeader(s, h.(front := s.next, published := h.published + 1)).(next := Slot(h, s.next + 1), producer := Construct(v))
    case Construct(v) =>
      var c := CellsAt(s, Last(s));
      var o := Off(s.tail, s.bs);
      WithBlock(s, Last(s), c.(elements := if o < |c.elements| then c.elements[o := Some(v)] else c.elements)).(producer := Store(v))
    case Store(v) =>
      s.(tail := s.tail + 1, items := s.items + [v], producer := Resting)
  }

  /** A block just requisitioned has some record or other. */
  function Record<T>(s: State<T>, done: set<nat>): set<nat> { set o | o in done && o < s.bs }

  /** new_block_index: twice the size, with the entries of the blocks in use from slot 0 on. */
  function Grow<T>(s: State<T>): State<T> {
    var prev := Current(s);
    var used := if s.oldest <= |s.ring| then |s.ring| - s.oldest else 0;
    var entries := seq(2 * s.indexSize, j => if 0 <= j < used then EntryAt(prev, Slot(prev, s.next - used + j)) else Entry(0, 0));
    s.(headers := s.headers + [Header(entries, if used == 0 then 0 else used - 1, s.oldest, |s.ring|, |s.ring|)],
       next := used, indexSize := 2 * s.indexSize)
  }

  function ConsumerStep<T>(s: State<T>, t: nat): State<T>
    requires t < |s.pcs| && !s.pcs[t].Idle?
  {
    match s.pcs[t]
    case LoadIndex(x) => s.(pcs := s.pcs[t := LoadFront(x, if s.headers == [] then 0 else |s.headers| - 1)])
    case LoadFront(x, h) =>
      var header := HeaderAt(s, h);
      s.(pcs := s.pcs[t := ReadBase(x, h, header.front, if header.published == 0 then 0 else header.published - 1)])
    case ReadBase(x, h, f, _) =>
      var offset := (x - Off(x, s.bs) - EntryAt(HeaderAt(s, h), f).base) / s.bs;
      s.(pcs := s.pcs[t := ReadBlock(x, h, Slot(HeaderAt(s, h), f + offset))])
    case ReadBlock(x, h, slot) => s.(pcs := s.pcs[t := Move(x, EntryAt(HeaderAt(s, h), slot).block)])
    case Move(x, b) =>
      var c := CellsAt(s, b);
      var o := Off(x, s.bs);
      WithBlock(s, b, c.(elements := if o < |c.elements| then c.elements[o := None] else c.elements))
      .(pcs := s.pcs[t := SetEmpty(x, b)], waiting := s.waiting - {x})
    case SetEmpty(x, b) =>
      var c := CellsAt(s, b);
      WithBlock(s, b, c.(done := c.done + {Off(x, s.bs)})).(pcs := s.pcs[t := Idle], flying := s.flying - {x})
  }

  // ---- the invariant ----

  /** The slot of the `k`th block. */
  function Pos(h: Header, k: nat): nat { Slot(h, k - h.shift) }

  /** The newest block has been started, but the index does not show it yet. */
  predicate Early<T>(p: Producer<T>) { p.Reset? || p.Enter? || p.Publish? }

  /** The newest block has room for the element being enqueued. */
  predicate Filling<T>(p: Producer<T>) { p.Construct? || p.Store? }

  /** The blocks in use are different ones. */
  ghost predicate BlocksOk<T>(s: State<T>) {
    && s.oldest <= |s.ring| && (s.ring != [] ==> s.oldest < |s.ring|)
    && (forall b :: 0 <= b < |s.blocks| ==> |s.blocks[b].elements| == s.bs && s.blocks[b].done <= All(s.bs))
    && (forall k :: s.oldest <= k < |s.ring| ==> s.ring[k] < |s.blocks|)
    && (forall j, k :: s.oldest <= j < k < |s.ring| ==> s.ring[j] != s.ring[k])
  }

  /** Where the head and the tail are. */
  ghost predicate TailOk<T>(s: State<T>) {
    var n := |s.ring|;
    && Ix(s.oldest, 0, s.bs) <= s.head <= s.tail == |s.items|
    && (n == 0 ==> s.tail == 0 && (s.producer.Resting? || s.producer.Acquire?))
    && (n > 0 ==>
          if Early(s.producer) then s.tail == Ix(n - 1, 0, s.bs)
          else if Filling(s.producer) then Ix(n - 1, 0, s.bs) <= s.tail < Ix(n, 0, s.bs)
          else Ix(n - 1, 0, s.bs) < s.tail <= Ix(n, 0, s.bs) && (s.producer.Resting? || s.tail == Ix(n, 0, s.bs)))
  }

  /** The indices that consumers are at work with are different ones, below the head, and in blocks in use. */
  ghost predicate ClaimsOk<T>(s: State<T>) {
    && (forall x :: x in s.flying ==> x < s.head && s.oldest <= Num(x, s.bs))
    && s.waiting <= s.flying
    && (forall t :: 0 <= t < |s.pcs| && !s.pcs[t].Idle? ==> s.pcs[t].x in s.flying && (s.pcs[t].x in s.waiting <==> !s.pcs[t].SetEmpty?))
    && (forall t, u :: 0 <= t < u < |s.pcs| && !s.pcs[t].Idle? && !s.pcs[u].Idle? ==> s.pcs[t].x != s.pcs[u].x)
  }

  /** A position counts as dequeued exactly if its index was claimed and nobody is at work with it. */
  ghost predicate RecordOk<T>(s: State<T>, k: nat, o: nat)
    requires k < |s.ring| && s.ring[k] < |s.blocks|
  {
    o in s.blocks[s.ring[k]].done <==> Ix(k, o, s.bs) < s.head && Ix(k, o, s.bs) !in s.flying
  }

  ghost predicate RecordsOk<T>(s: State<T>)
    requires BlocksOk(s)
  {
    && (forall k, o :: s.oldest <= k < |s.ring| && 0 <= o < s.bs && !(s.producer.Reset? && k == |s.ring| - 1) ==> RecordOk(s, k, o))
    && (s.producer.Reset? ==> s.ring != [] && s.producer.k < s.bs && Cleared(s, Last(s), s.producer.k))
    && (s.producer.Check? ==> s.ring != [] && s.producer.k < s.bs && Seen(s, Ahead(s), s.producer.k))
  }

  /** The first `k` flags are clear; they are set. */
  ghost predicate Cleared<T>(s: State<T>, b: nat, k: nat) {
    b < |s.blocks| && forall o :: o in s.blocks[b].done ==> o < s.bs - k
  }

  ghost predicate Seen<T>(s: State<T>, b: nat, k: nat) {
    b < |s.blocks| && forall o :: s.bs - k <= o < s.bs ==> o in s.blocks[b].done
  }

  /** What is in the slot of index `x`. */
  ghost function Expected<T>(s: State<T>, x: nat): Option<T>
    requires s.tail == |s.items|
  {
    if x < s.tail then (if x < s.head && x !in s.waiting then None else Some(s.items[x]))
    else if s.producer.Store? && x == s.tail then Some(s.producer.v)
    else None
  }

  ghost predicate SlotOk<T>(s: State<T>, k: nat, o: nat)
    requires k < |s.ring| && s.ring[k] < |s.blocks| && s.tail == |s.items|
  {
    o < |s.blocks[s.ring[k]].elements| && s.blocks[s.ring[k]].elements[o] == Expected(s, Ix(k, o, s.bs))
  }

  ghost predicate SlotsOk<T>(s: State<T>)
    requires BlocksOk(s) && TailOk(s)
  {
    forall k, o :: s.oldest <= k < |s.ring| && 0 <= o < s.bs ==> SlotOk(s, k, o)
  }

  /** An index leads to every block that was entered in it and is still in use. */
  ghost predicate HeaderOk(h: Header, ring: seq<nat>, oldest: nat, bs: Size) {
    && h.entries != [] && h.shift <= oldest && h.published <= h.wrote <= |ring|
    && (h.published > 0 ==> h.published > h.shift && h.front == Pos(h, h.published - 1))
    && (forall k :: oldest <= k < h.wrote ==> EntryOk(h, ring, k, bs))
  }

  ghost predicate EntryOk(h: Header, ring: seq<nat>, k: nat, bs: Size)
    requires k < |ring|
  {
    Pos(h, k) < |h.entries| && h.entries[Pos(h, k)] == Entry(Ix(k, 0, bs), ring[k])
  }

  ghost predicate HeadersOk<T>(s: State<T>) {
    && s.oldest <= |s.ring| && s.indexSize > 0
    && (forall h :: 0 <= h < |s.headers| ==> HeaderOk(s.headers[h], s.ring, s.oldest, s.bs))
    && (s.ring != [] ==> s.headers != [])
    && (s.headers != [] ==> CurrentOk(Current(s), s.next, s.indexSize, |s.ring|, s.oldest, s.producer))
  }

  /** The producer's view of the index in use. */
  ghost predicate CurrentOk<T>(h: Header, next: nat, size: nat, n: nat, oldest: nat, p: Producer<T>) {
    && oldest <= n && n - oldest <= |h.entries| == size && h.shift <= oldest
    && h.wrote == (if p.Reset? || p.Enter? then n - 1 else n)
    && h.published == (if Early(p) then n - 1 else n)
    && next == Pos(h, h.published) && (Early(p) ==> oldest < n)
  }

  /** What a consumer has learned of the way to its block holds. */
  ghost predicate PcOk<T>(s: State<T>, pc: Pc) {
    match pc
    case Idle => true
    case LoadIndex(_) => true
    case LoadFront(x, h) => h < |s.headers| && Num(x, s.bs) < s.headers[h].published
    case ReadBase(x, h, f, g) =>
      h < |s.headers| && Num(x, s.bs) <= g < s.headers[h].published && f == Pos(s.headers[h], g)
    case ReadBlock(x, h, slot) =>
      h < |s.headers| && Num(x, s.bs) < s.headers[h].published && slot == Pos(s.headers[h], Num(x, s.bs))
    case Move(x, b) => Num(x, s.bs) < |s.ring| && b == s.ring[Num(x, s.bs)]
    case SetEmpty(x, b) => Num(x, s.bs) < |s.ring| && b == s.ring[Num(x, s.bs)]
  }

  ghost predicate PcsOk<T>(s: State<T>) { forall t :: 0 <= t < |s.pcs| ==> PcOk(s, s.pcs[t]) }

  ghost predicate Inv<T>(s: State<T>) {
    BlocksOk(s) && TailOk(s) && ClaimsOk(s) && RecordsOk(s) && SlotsOk(s) && HeadersOk(s) && PcsOk(s)
  }

  ghost predicate Init<T>(s: State<T>) {
    && s.tail == 0 && s.head == 0 && s.ring == [] && s.oldest == 0 && s.items == [] && s.flying == {} && s.waiting == {}
    && s.blocks == [] && s.producer.Resting? && s.indexSize > 0 && s.next == 0
    && (forall t :: 0 <= t < |s.pcs| ==> s.pcs[t].Idle?)
    && (s.headers == [] || (|s.headers| == 1 && |s.headers[0].entries| == s.indexSize && s.headers[0].shift == 0
                            && s.headers[0].wrote == 0 && s.headers[0].published == 0))
  }

  lemma InitInv<T>(s: State<T>)
    requires Init(s)
    ensures Inv(s)
  {
  }

  // ---- the consumers' steps ----

  /** The index a consumer has claimed lies in a block in use that the index shows. */
  lemma ClaimedBlock<T>(s: State<T>, t: nat)
    requires BlocksOk(s) && TailOk(s) && ClaimsOk(s) && t < |s.pcs| && !s.pcs[t].Idle?
    ensures s.ring != [] && s.oldest <= Num(s.pcs[t].x, s.bs) < if Early(s.producer) then |s.ring| - 1 else |s.ring|
  {
    hide Num, Ix;
    var x, n := s.pcs[t].x, |s.ring|;
    assert x in s.flying;
    InBlocks(x, 0, n, s.bs);
    if n > 0 {
      InBlocks(x, 0, n - 1, s.bs);
    }
  }

  /** A step that only changes what a consumer does next. */
  lemma OnlyPc<T>(s: State<T>, t: nat, pc: Pc)
    requires Inv(s) && t < |s.pcs| && !s.pcs[t].Idle? && !pc.Idle? && pc.x == s.pcs[t].x
    requires (pc.SetEmpty? <==> s.pcs[t].SetEmpty?) && PcOk(s, pc)
    ensures Inv(s.(pcs := s.pcs[t := pc]))
  {
    hide Num, Ix, HeadersOk;
    var s' := s.(pcs := s.pcs[t := pc]);
    assert BlocksOk(s') && TailOk(s');
    forall k, o | s.oldest <= k < |s.ring| && 0 <= o < s.bs ensures SlotOk(s', k, o) {
      assert SlotOk(s, k, o);
    }
    forall k, o | s.oldest <= k < |s.ring| && 0 <= o < s.bs && !(s.producer.Reset? && k == |s.ring| - 1) ensures RecordOk(s', k, o) {
      assert RecordOk(s, k, o);
    }
    assert forall u :: 0 <= u < |s.pcs| && !s'.pcs[u].Idle? ==> !s.pcs[u].Idle? && s'.pcs[u].x == s.pcs[u].x;
    assert ClaimsOk(s');
    assert RecordsOk(s');
    assert SlotsOk(s');
    SameHeaders(s, s');
    forall u | 0 <= u < |s.pcs| ensures PcOk(s', s'.pcs[u]) {
      assert u != t ==> PcOk(s, s.pcs[u]);
    }
  }

  lemma SameHeaders<T>(s: State<T>, s': State<T>)
    requires HeadersOk(s) && s'.headers == s.headers && s'.ring == s.ring && s'.oldest == s.oldest && s'.bs == s.bs
    requires s'.next == s.next && s'.indexSize == s.indexSize
    requires s'.producer == s.producer || (!Early(s.producer) && !Early(s'.producer))
    ensures HeadersOk(s')
  {
  }

  /** Looking up the block: each of the four reads finds what it needs, whatever the producer does
      meanwhile. */
  lemma LookUpInv<T>(s: State<T>, t: nat)
    requires Inv(s) && t < |s.pcs| && (s.pcs[t].LoadIndex? || s.pcs[t].LoadFront? || s.pcs[t].ReadBase? || s.pcs[t].ReadBlock?)
    ensures Inv(ConsumerStep(s, t))
  {
    hide Num, Ix, Off, RecordsOk, SlotsOk, TailOk, Pos;
    var s', k := ConsumerStep(s, t), Num(s.pcs[t].x, s.bs);
    ClaimedBlock(s, t);
    assert PcOk(s, s.pcs[t]);
    match s.pcs[t]
    case LoadIndex(_) => OnlyPc(s, t, s'.pcs[t]);
    case LoadFront(_, h) => OnlyPc(s, t, s'.pcs[t]);
    case ReadBase(x, h, f, g) =>
      assert EntryOk(s.headers[h], s.ring, g, s.bs);
      BackToBlock(x, s.headers[h], f, g, s.bs);
      OnlyPc(s, t, s'.pcs[t]);
    case ReadBlock(x, h, slot) =>
      assert EntryOk(s.headers[h], s.ring, k, s.bs);
      OnlyPc(s, t, s'.pcs[t]);
  }

  /** From the slot of block `g` the signed distance of the bases leads to the block of `x`. */
  lemma BackToBlock(x: nat, h: Header, f: nat, g: nat, bs: Size)
    requires h.entries != [] && f == Pos(h, g) && Num(x, bs) <= g
    ensures Slot(h, f + (x - Off(x, bs) - Ix(g, 0, bs)) / bs) == Pos(h, Num(x, bs))
  {
    hide Num, Off, Ix;
    BlocksBetween(x, g, bs);
    AddWrapped(g - h.shift, Num(x, bs) - g, |h.entries|);
  }

  lemma BlocksBetween(x: nat, g: nat, bs: Size)
    ensures (x - Off(x, bs) - Ix(g, 0, bs)) / bs == Num(x, bs) - g
  {
    Parts(x, bs);
    var q := Num(x, bs) - g;
    assert x - Off(x, bs) - Ix(g, 0, bs) == q * bs;
    ExactQuotient(q, bs);
  }

  lemma ExactQuotient(q: int, bs: Size)
    ensures q * bs / bs == q
  {
    var d := q * bs / bs - q;
    assert d * bs == -(q * bs % bs);
    NoMultiple(d, bs);
  }

  /** Claiming the index at the head. */
  lemma ClaimInv<T>(s: State<T>, t: nat)
    requires Inv(s) && Enabled(s, Claim(t))
    ensures Inv(Step(s, Claim(t)))
  {
    hide Num, Ix, HeadersOk;
    var s', x := Step(s, Claim(t)), s.head;
    InBlocks(x, s.oldest, 0, s.bs);
    forall k, o | s.oldest <= k < |s.ring| && 0 <= o < s.bs ensures SlotOk(s', k, o) {
      assert SlotOk(s, k, o);
    }
    forall k, o | s.oldest <= k < |s.ring| && 0 <= o < s.bs && !(s.producer.Reset? && k == |s.ring| - 1) ensures RecordOk(s', k, o) {
      assert RecordOk(s, k, o);
    }
    SameHeaders(s, s');
    assert forall u :: 0 <= u < |s.pcs| && u != t ==> s'.pcs[u] == s.pcs[u];
    assert ClaimsOk(s');
    forall u | 0 <= u < |s.pcs| ensures PcOk(s', s'.pcs[u]) {
      assert u != t ==> PcOk(s, s.pcs[u]);
    }
  }

  /** Two positions of blocks in use that are in one block at one place are the same. */
  lemma SamePlace<T>(s: State<T>, k: nat, o: nat, x: nat)
    requires BlocksOk(s) && s.oldest <= k < |s.ring| && o < s.bs && s.oldest <= Num(x, s.bs) < |s.ring|
    ensures s.ring[k] == s.ring[Num(x, s.bs)] && o == Off(x, s.bs) <==> Ix(k, o, s.bs) == x
  {
    hide Ix, Num, Off;
    Parts(x, s.bs);
    PartsUnique(k, o, s.bs);
  }

  /** Moving the element out: it is the one that was enqueued at the index, and no other is touched. */
  lemma MoveInv<T>(s: State<T>, t: nat)
    requires Inv(s) && t < |s.pcs| && s.pcs[t].Move?
    ensures Inv(ConsumerStep(s, t))
  {
    hide Num, Ix, Off, HeadersOk;
    var s', x, b := ConsumerStep(s, t), s.pcs[t].x, s.pcs[t].b;
    ClaimedBlock(s, t);
    assert PcOk(s, s.pcs[t]);
    Parts(x, s.bs);
    SameHeaders(s, s');
    forall k, o | s.oldest <= k < |s.ring| && 0 <= o < s.bs ensures SlotOk(s', k, o) {
      assert SlotOk(s, k, o);
      SamePlace(s, k, o, x);
    }
    forall k, o | s.oldest <= k < |s.ring| && 0 <= o < s.bs && !(s.producer.Reset? && k == |s.ring| - 1) ensures RecordOk(s', k, o) {
      assert RecordOk(s, k, o);
    }
    assert forall u :: 0 <= u < |s.pcs| && u != t ==> s'.pcs[u] == s.pcs[u];
    forall u | 0 <= u < |s.pcs| && u != t && !s.pcs[u].Idle? ensures s.pcs[u].x != x {
      if u < t { assert s.pcs[u].x != s.pcs[t].x; } else { assert s.pcs[t].x != s.pcs[u].x; }
    }
    assert ClaimsOk(s');
    forall u | 0 <= u < |s.pcs| ensures PcOk(s', s'.pcs[u]) {
      assert u != t ==> PcOk(s, s.pcs[u]);
    }
  }

  /** Recording that. */
  lemma SetEmptyInv<T>(s: State<T>, t: nat)
    requires Inv(s) && t < |s.pcs| && s.pcs[t].SetEmpty?
    ensures Inv(ConsumerStep(s, t))
  {
    hide Num, Ix, Off, HeadersOk;
    var s', x, b := ConsumerStep(s, t), s.pcs[t].x, s.pcs[t].b;
    ClaimedBlock(s, t);
    assert PcOk(s, s.pcs[t]);
    Parts(x, s.bs);
    SameHeaders(s, s');
    forall k, o | s.oldest <= k < |s.ring| && 0 <= o < s.bs ensures SlotOk(s', k, o) {
      assert SlotOk(s, k, o);
    }
    forall k, o | s.oldest <= k < |s.ring| && 0 <= o < s.bs && !(s.producer.Reset? && k == |s.ring| - 1) ensures RecordOk(s', k, o) {
      assert RecordOk(s, k, o);
      SamePlace(s, k, o, x);
    }
    assert forall u :: 0 <= u < |s.pcs| && u != t ==> s'.pcs[u] == s.pcs[u];
    forall u | 0 <= u < |s.pcs| && u != t && !s.pcs[u].Idle? ensures s.pcs[u].x != x {
      if u < t { assert s.pcs[u].x != s.pcs[t].x; } else { assert s.pcs[t].x != s.pcs[u].x; }
    }
    assert ClaimsOk(s');
    forall u | 0 <= u < |s.pcs| ensures PcOk(s', s'.pcs[u]) {
      assert u != t ==> PcOk(s, s.pcs[u]);
    }
  }

  // ---- the producer's steps ----

  /** A step that only changes what the producer does next. */
  lemma OnlyProducer<T>(s: State<T>, p: Producer<T>)
    requires Inv(s) && !Early(s.producer) && !Early(p) && !s.producer.Store? && !p.Store?
    requires TailOk(s.(producer := p))
    requires p.Check? ==> s.ring != [] && p.k < s.bs && Seen(s, Ahead(s), p.k)
    ensures Inv(s.(producer := p))
  {
    hide Num, Ix, HeadersOk;
    var s' := s.(producer := p);
    forall k, o | s.oldest <= k < |s.ring| && 0 <= o < s.bs ensures SlotOk(s', k, o) && RecordOk(s', k, o) {
      assert SlotOk(s, k, o) && RecordOk(s, k, o);
    }
    SameHeaders(s, s');
    SamePcs(s, s');
  }

  /** What consumers know stays true: indices only show more, and blocks stay where they are. */
  lemma SamePcs<T>(s: State<T>, s': State<T>)
    requires PcsOk(s) && s'.pcs == s.pcs && s'.bs == s.bs && s.ring <= s'.ring && |s.headers| <= |s'.headers|
    requires forall h :: 0 <= h < |s.headers| ==>
               && s.headers[h].published <= s'.headers[h].published && s'.headers[h].shift == s.headers[h].shift
               && |s'.headers[h].entries| == |s.headers[h].entries|
    ensures PcsOk(s')
  {
    hide Num;
    forall t | 0 <= t < |s.pcs| ensures PcOk(s', s'.pcs[t]) {
      assert PcOk(s, s.pcs[t]);
    }
  }

  lemma EnqueueInv<T>(s: State<T>, v: T)
    requires Inv(s) && s.producer.Resting?
    ensures Inv(Step(s, Enqueue(v)))
  {
    hide Num, Ix, Off, HeadersOk, RecordsOk, SlotsOk, ClaimsOk, PcsOk, Seen;
    var s', n := Step(s, Enqueue(v)), |s.ring|;
    Boundary(s.tail, n, s.bs);
    SeenNone(s);
    OnlyProducer(s, s'.producer);
  }

  lemma SeenNone<T>(s: State<T>)
    requires BlocksOk(s)
    ensures s.ring != [] ==> Seen(s, Ahead(s), 0)
  {
  }

  /** The tail is at a block boundary if the newest block is full, or there is none. */
  lemma Boundary(tail: nat, n: nat, bs: Size)
    requires if n == 0 then tail == 0 else Ix(n - 1, 0, bs) < tail <= Ix(n, 0, bs)
    ensures Off(tail, bs) == 0 <==> tail == Ix(n, 0, bs)
    ensures n == 0 ==> Ix(0, 0, bs) == 0
  {
    if tail == Ix(n, 0, bs) {
      PartsUnique(n, 0, bs);
    } else {
      var o := tail - Ix(n - 1, 0, bs);
      FirstOf(n - 1, o, bs);
      PartsUnique(n - 1, o, bs);
    }
  }

  lemma CheckInv<T>(s: State<T>, choice: Choice)
    requires Inv(s) && s.producer.Check?
    ensures Inv(ProducerStep(s, choice))
  {
    hide Num, Ix, HeadersOk, SlotsOk, ClaimsOk, PcsOk, All;
    var s', k := ProducerStep(s, choice), s.producer.k;
    var done := CellsAt(s, Ahead(s)).done;
    if s'.producer.Reset? {
      AllDone(s, done);
      ReuseInv(s);
    } else {
      OnlyProducer(s, s'.producer);
    }
  }

  /** is_empty says yes only when every element of the block has been dequeued for good. */
  lemma AllDone<T>(s: State<T>, done: set<nat>)
    requires BlocksOk(s) && RecordsOk(s) && s.producer.Check? && done == CellsAt(s, Ahead(s)).done
    requires if s.flags then s.bs - 1 - s.producer.k in done && s.producer.k + 1 == s.bs else |done| == s.bs
    ensures forall o :: 0 <= o < s.bs ==> o in done
  {
    hide RecordOk;
    if !s.flags {
      FullIff(done, s.bs);
    }
  }

  /** The block ahead is used again. Nobody is at work in it: all its indices have been claimed and
      finished with. */
  lemma ReuseInv<T>(s: State<T>)
    requires Inv(s) && s.producer.Check? && forall o :: 0 <= o < s.bs ==> o in CellsAt(s, Ahead(s)).done
    ensures Inv(s.(ring := s.ring + [Ahead(s)], oldest := s.oldest + 1, producer := Reset(s.producer.v, 0)))
  {
    hide Num, Ix, HeadersOk;
    var s', n := s.(ring := s.ring + [Ahead(s)], oldest := s.oldest + 1, producer := Reset(s.producer.v, 0)), |s.ring|;
    OldestDone(s);
    ReusedBlocks(s, s');
    forall k, o | s'.oldest <= k < n && 0 <= o < s.bs ensures SlotOk(s', k, o) && RecordOk(s', k, o) {
      assert SlotOk(s, k, o) && RecordOk(s, k, o);
    }
    forall o | 0 <= o < s.bs ensures SlotOk(s', n, o) {
      assert o in CellsAt(s, Ahead(s)).done && SlotOk(s, s.oldest, o) && RecordOk(s, s.oldest, o);
      FirstOf(n, o, s.bs);
      assert Expected(s, Ix(s.oldest, o, s.bs)) == None;
    }
    assert TailOk(s') && ClaimsOk(s');
    ReusedHeaders(s, s');
    SamePcs(s, s');
  }

  lemma ReusedBlocks<T>(s: State<T>, s': State<T>)
    requires BlocksOk(s) && s.ring != [] && s' == s.(ring := s.ring + [Ahead(s)], oldest := s.oldest + 1, producer := s'.producer)
    ensures BlocksOk(s') && Last(s') == Ahead(s)
  {
    forall j, k | s'.oldest <= j < k < |s'.ring| ensures s'.ring[j] != s'.ring[k] {
      if k == |s.ring| {
        assert s.ring[s.oldest] != s.ring[j];
      }
    }
  }

  lemma ReusedHeaders<T>(s: State<T>, s': State<T>)
    requires HeadersOk(s) && s.oldest < |s.ring| && s.producer.Check?
    requires s' == s.(ring := s.ring + [Ahead(s)], oldest := s.oldest + 1, producer := s'.producer) && s'.producer.Reset?
    ensures HeadersOk(s')
  {
    hide Ix, Pos;
    forall h | 0 <= h < |s.headers| ensures HeaderOk(s.headers[h], s'.ring, s'.oldest, s.bs) {
      LongerRing(s.headers[h], s.ring, s'.ring, s.oldest, s'.oldest, s.bs);
    }
  }

  lemma LongerRing(h: Header, ring: seq<nat>, ring': seq<nat>, oldest: nat, oldest': nat, bs: Size)
    requires HeaderOk(h, ring, oldest, bs) && ring <= ring' && oldest <= oldest'
    ensures HeaderOk(h, ring', oldest', bs)
  {
    hide Ix, Pos;
    forall k | oldest' <= k < h.wrote ensures EntryOk(h, ring', k, bs) {
      assert EntryOk(h, ring, k, bs);
    }
  }

  /** When every position of the oldest block counts as dequeued, the head is past it and no consumer is
      at work with any of its indices. */
  lemma OldestDone<T>(s: State<T>)
    requires BlocksOk(s) && TailOk(s) && ClaimsOk(s) && RecordsOk(s) && s.ring != [] && !s.producer.Reset?
    requires forall o :: 0 <= o < s.bs ==> o in CellsAt(s, Ahead(s)).done
    ensures Ix(s.oldest + 1, 0, s.bs) <= s.head
    ensures forall x :: x in s.flying ==> s.oldest < Num(x, s.bs)
  {
    hide Num, Ix;
    var done := CellsAt(s, Ahead(s)).done;
    assert s.bs - 1 in done && RecordOk(s, s.oldest, s.bs - 1);
    FirstOf(s.oldest, s.bs - 1, s.bs);
    forall o | 0 <= o < s.bs ensures Ix(s.oldest, o, s.bs) !in s.flying {
      assert o in done && RecordOk(s, s.oldest, o);
    }
    forall x | x in s.flying ensures s.oldest < Num(x, s.bs) {
      Parts(x, s.bs);
    }
  }

  /** The index is full: a larger one, with the same entries. Consumers that have loaded an older one go
      on with that. */
  lemma GrowInv<T>(s: State<T>)
    requires Inv(s) && s.producer.Acquire? && IndexFull(s)
    ensures Inv(Grow(s))
    ensures s.headers != [] ==> |Current(Grow(s)).entries| == 2 * |Current(s).entries|
  {
    hide Num, Ix, HeadersOk, HeaderOk, Pos;
    var s' := Grow(s);
    forall k, o | s.oldest <= k < |s.ring| && 0 <= o < s.bs ensures SlotOk(s', k, o) && RecordOk(s', k, o) {
      assert SlotOk(s, k, o) && RecordOk(s, k, o);
    }
    GrownHeaders(s);
    SamePcs(s, s');
  }

  lemma GrownHeaders<T>(s: State<T>)
    requires HeadersOk(s) && s.producer.Acquire? && IndexFull(s)
    ensures HeadersOk(Grow(s))
    ensures s.headers != [] ==> |Current(Grow(s)).entries| == 2 * |Current(s).entries|
  {
    hide Ix, HeaderOk;
    var s', n, used := Grow(s), |s.ring|, |s.ring| - s.oldest;
    var h := s'.headers[|s.headers|];
    if used > 0 {
      assert HeaderOk(s.headers[|s.headers| - 1], s.ring, s.oldest, s.bs);
    }
    forall k | s.oldest <= k < n ensures EntryOk(h, s.ring, k, s.bs) {
      CopiedEntry(s, k);
    }
    assert HeaderOk(h, s.ring, s.oldest, s.bs) by {
      ShownLast(h, s.ring, s.oldest, s.bs);
    }
    NextSlot(h, used);
    forall i | 0 <= i < |s'.headers| ensures HeaderOk(s'.headers[i], s'.ring, s'.oldest, s'.bs) {
      if i < |s.headers| {
        assert s'.headers[i] == s.headers[i];
      }
    }
  }

  lemma ShownLast(h: Header, ring: seq<nat>, oldest: nat, bs: Size)
    requires h.entries != [] && h.shift == oldest <= |ring| && h.wrote == h.published == |ring| && |ring| - oldest <= |h.entries|
    requires h.front == if |ring| == oldest then 0 else |ring| - oldest - 1
    requires oldest == |ring| ==> oldest == 0
    requires forall k :: oldest <= k < |ring| ==> EntryOk(h, ring, k, bs)
    ensures HeaderOk(h, ring, oldest, bs)
  {
    if oldest < |ring| {
      InFirstRound(|ring| - 1 - oldest, |h.entries|);
    }
  }

  lemma InFirstRound(i: nat, m: nat)
    requires i < m
    ensures i % m == i
  {
  }

  lemma NextSlot(h: Header, used: nat)
    requires h.entries != [] && h.published == h.shift + used && used < |h.entries|
    ensures Pos(h, h.published) == used
  {
    InFirstRound(used, |h.entries|);
  }

  /** What the copying loop finds for the `k`th block. */
  lemma CopiedEntry<T>(s: State<T>, k: nat)
    requires HeadersOk(s) && s.producer.Acquire? && IndexFull(s) && s.oldest <= k < |s.ring|
    ensures EntryOk(Grow(s).headers[|s.headers|], s.ring, k, s.bs)
  {
    hide Ix;
    var prev, h, used, j := Current(s), Grow(s).headers[|s.headers|], |s.ring| - s.oldest, k - s.oldest;
    assert HeaderOk(prev, s.ring, s.oldest, s.bs) && EntryOk(prev, s.ring, k, s.bs);
    AddWrapped(prev.published - prev.shift, j - used, |prev.entries|);
    InFirstRound(j, |h.entries|);
    assert h.entries[j] == EntryAt(prev, Slot(prev, s.next - used + j));
  }

  /** A new block. */
  lemma InsertInv<T>(s: State<T>, done: set<nat>)
    requires Inv(s) && s.producer.Acquire? && !IndexFull(s)
    ensures Inv(ProducerStep(s, Have(done)))
  {
    hide Num, Ix, HeadersOk, HeaderOk;
    var s', n := ProducerStep(s, Have(done)), |s.ring|;
    forall k, o | s.oldest <= k < n && 0 <= o < s.bs ensures SlotOk(s', k, o) && RecordOk(s', k, o) {
      assert SlotOk(s, k, o) && RecordOk(s, k, o);
    }
    forall o | 0 <= o < s.bs ensures SlotOk(s', n, o) {
      FirstOf(n, o, s.bs);
    }
    InsertedHeaders(s, s');
    SamePcs(s, s');
  }

  lemma InsertedHeaders<T>(s: State<T>, s': State<T>)
    requires HeadersOk(s) && s.producer.Acquire? && !IndexFull(s)
    requires s' == s.(blocks := s'.blocks, ring := s'.ring, producer := s'.producer) && s'.producer.Reset?
    requires s.ring <= s'.ring && |s'.ring| == |s.ring| + 1
    ensures HeadersOk(s')
  {
    hide Ix, Pos;
    forall h | 0 <= h < |s.headers| ensures HeaderOk(s.headers[h], s'.ring, s'.oldest, s.bs) {
      LongerRing(s.headers[h], s.ring, s'.ring, s.oldest, s'.oldest, s.bs);
    }
  }

  /** reset_empty of the newest block, at which nobody is at work. */
  lemma ResetInv<T>(s: State<T>, choice: Choice)
    requires Inv(s) && s.producer.Reset?
    ensures Inv(ProducerStep(s, choice))
  {
    hide Num, Ix, HeadersOk;
    var s', n := ProducerStep(s, choice), |s.ring|;
    assert Last(s) == s.ring[n - 1];
    forall k, o | s.oldest <= k < n && 0 <= o < s.bs ensures SlotOk(s', k, o) {
      assert SlotOk(s, k, o);
    }
    forall k, o | s.oldest <= k < n - 1 && 0 <= o < s.bs ensures RecordOk(s', k, o) {
      assert RecordOk(s, k, o);
    }
    if s'.producer.Enter? {
      var newest := n - 1;
      forall o | 0 <= o < s.bs ensures RecordOk(s', newest, o) {
        FirstOf(newest, o, s.bs);
      }
    }
    ResetHeaders(s, s');
    SamePcs(s, s');
  }

  lemma ResetHeaders<T>(s: State<T>, s': State<T>)
    requires HeadersOk(s) && s.producer.Reset? && (s'.producer.Reset? || s'.producer.Enter?)
    requires s' == s.(blocks := s'.blocks, producer := s'.producer)
    ensures HeadersOk(s')
  {
  }

  /** Steps of the producer that leave blocks, claims and counters alone. */
  lemma IndexStep<T>(s: State<T>, s': State<T>)
    requires BlocksOk(s) && TailOk(s) && ClaimsOk(s) && RecordsOk(s) && SlotsOk(s) && HeadersOk(s') && PcsOk(s')
    requires s' == s.(headers := s'.headers, next := s'.next, producer := s'.producer) && s.ring != []
    requires (s.producer.Enter? && s'.producer.Publish?) || (s.producer.Publish? && s'.producer.Construct?)
    ensures Inv(s')
  {
    hide Num, Ix, HeadersOk, PcsOk;
    forall k, o | s.oldest <= k < |s.ring| && 0 <= o < s.bs ensures SlotOk(s', k, o) && RecordOk(s', k, o) {
      assert SlotOk(s, k, o) && RecordOk(s, k, o);
    }
    FirstOf(|s.ring| - 1, s.bs, s.bs);
  }

  /** The entry of the newest block is written over that of a block no longer in use, if over any. */
  lemma EnterInv<T>(s: State<T>, choice: Choice)
    requires Inv(s) && s.producer.Enter?
    ensures Inv(ProducerStep(s, choice))
  {
    hide Num, Ix, BlocksOk, ClaimsOk, RecordsOk, SlotsOk, HeaderOk;
    var s', n, c := ProducerStep(s, choice), |s.ring|, |s.headers| - 1;
    RingNotEmpty(s);
    EnteredHeader(Current(s), Current(s'), s.next, s.ring, s.oldest, s.bs);
    forall h | 0 <= h < |s'.headers| ensures HeaderOk(s'.headers[h], s'.ring, s'.oldest, s'.bs) {
      assert h < c ==> s'.headers[h] == s.headers[h];
    }
    SamePcs(s, s');
    IndexStep(s, s');
  }

  lemma RingNotEmpty<T>(s: State<T>)
    requires TailOk(s) && (Early(s.producer) || Filling(s.producer))
    ensures s.ring != []
  {
  }

  lemma EnteredHeader(h: Header, h': Header, next: nat, ring: seq<nat>, oldest: nat, bs: Size)
    requires HeaderOk(h, ring, oldest, bs) && ring != [] && h.wrote == h.published == |ring| - 1 && oldest < |ring|
    requires next == Pos(h, h.wrote) && |ring| - oldest <= |h.entries|
    requires h' == h.(entries := h'.entries, wrote := h.wrote + 1)
    requires next < |h.entries| && h'.entries == h.entries[next := Entry(Ix(|ring| - 1, 0, bs), ring[|ring| - 1])]
    ensures HeaderOk(h', ring, oldest, bs)
  {
    hide Ix;
    forall k | oldest <= k < h'.wrote ensures EntryOk(h', ring, k, bs) {
      if k < h.wrote {
        assert EntryOk(h, ring, k, bs);
        RemaindersDiffer(k - h.shift, h.wrote - h.shift, |h.entries|);
      }
    }
  }

  lemma PublishInv<T>(s: State<T>, choice: Choice)
    requires Inv(s) && s.producer.Publish?
    ensures Inv(ProducerStep(s, choice))
  {
    hide Num, Ix, BlocksOk, ClaimsOk, RecordsOk, SlotsOk, HeaderOk;
    var s', c := ProducerStep(s, choice), |s.headers| - 1;
    RingNotEmpty(s);
    PublishedHeader(Current(s), Current(s'), s.next, s.ring, s.oldest, s.bs);
    forall h | 0 <= h < |s'.headers| ensures HeaderOk(s'.headers[h], s'.ring, s'.oldest, s'.bs) {
      assert h < c ==> s'.headers[h] == s.headers[h];
    }
    SamePcs(s, s');
    IndexStep(s, s');
  }

  lemma PublishedHeader(h: Header, h': Header, next: nat, ring: seq<nat>, oldest: nat, bs: Size)
    requires HeaderOk(h, ring, oldest, bs) && h.published + 1 == h.wrote == |ring| && oldest < |ring| && h.shift <= oldest
    requires next == Pos(h, h.published) && h' == h.(front := next, published := h.published + 1)
    ensures HeaderOk(h', ring, oldest, bs) && Slot(h', next + 1) == Pos(h', h'.published)
  {
    hide Ix;
    AddWrapped(h.published - h.shift, 1, |h.entries|);
    forall k | oldest <= k < h'.wrote ensures EntryOk(h', ring, k, bs) {
      assert EntryOk(h, ring, k, bs);
    }
  }

  /** The place of the tail in the newest block. */
  lemma TailPlace<T>(s: State<T>)
    requires TailOk(s) && Filling(s.producer)
    ensures s.ring != [] && Num(s.tail, s.bs) == |s.ring| - 1 && Off(s.tail, s.bs) < s.bs
  {
    hide Ix;
    var n := |s.ring|;
    Parts(s.tail, s.bs);
    InBlocks(s.tail, n - 1, n, s.bs);
  }

  /** Constructing the element disturbs no other: its slot is empty. */
  lemma ConstructInv<T>(s: State<T>, choice: Choice)
    requires Inv(s) && s.producer.Construct?
    ensures Inv(ProducerStep(s, choice))
  {
    hide Num, Ix, Off, HeadersOk;
    var s', n := ProducerStep(s, choice), |s.ring|;
    TailPlace(s);
    Parts(s.tail, s.bs);
    forall k, o | s.oldest <= k < n && 0 <= o < s.bs ensures SlotOk(s', k, o) && RecordOk(s', k, o) {
      assert SlotOk(s, k, o) && RecordOk(s, k, o);
      SamePlace(s, k, o, s.tail);
    }
    SameHeaders(s, s');
    SamePcs(s, s');
  }

  /** The tail moves on, and the element is there for whoever claims its index. */
  lemma StoreInv<T>(s: State<T>, choice: Choice)
    requires Inv(s) && s.producer.Store?
    ensures Inv(ProducerStep(s, choice))
  {
    hide Num, Ix, Off, HeadersOk;
    var s' := ProducerStep(s, choice);
    forall k, o | s.oldest <= k < |s.ring| && 0 <= o < s.bs ensures SlotOk(s', k, o) && RecordOk(s', k, o) {
      assert SlotOk(s, k, o) && RecordOk(s, k, o);
    }
    SameHeaders(s, s');
    SamePcs(s, s');
  }

  lemma StepInv<T>(s: State<T>, a: Action<T>)
    requires Inv(s) && Enabled(s, a)
    ensures Inv(Step(s, a))
  {
    hide Inv, Ix, Num, Off;
    match a
    case Enqueue(v) => EnqueueInv(s, v);
    case Claim(t) => ClaimInv(s, t);
    case Consume(t) =>
      if s.pcs[t].Move? {
        MoveInv(s, t);
      } else if s.pcs[t].SetEmpty? {
        SetEmptyInv(s, t);
      } else {
        LookUpInv(s, t);
      }
    case Produce(choice) => ProducerInv(s, choice);
  }

  lemma ProducerInv<T>(s: State<T>, choice: Choice)
    requires Inv(s) && !s.producer.Resting?
    ensures Inv(ProducerStep(s, choice))
  {
    hide Ix, Num, Off, HeadersOk, SlotsOk, RecordsOk, ClaimsOk, PcsOk;
    match s.producer
    case Check(_, _) => CheckInv(s, choice);
    case Acquire(_) =>
      if choice.GiveUp? {
        OnlyProducer(s, Resting);
      } else if IndexFull(s) {
        GrowInv(s);
      } else {
        InsertInv(s, choice.done);
      }
    case Reset(_, _) => ResetInv(s, choice);
    case Enter(_) => EnterInv(s, choice);
    case Publish(_) => PublishInv(s, choice);
    case Construct(_) => ConstructInv(s, choice);
    case Store(_) => StoreInv(s, choice);
  }

  // ---- every run ----

  ghost predicate Next<T(!new)>(s: State<T>, s': State<T>) { exists a: Action<T> :: Enabled(s, a) && s' == Step(s, a) }

  /** Some interleaving of the producer and any number of consumers leads to `s`. */
  ghost predicate Reachable<T(!new)>(s: State<T>) { Runs.Reachable<State<T>>(Init, Next, s) }

  /** Every step of the producer and of every consumer keeps the invariant. */
  lemma ReachableInv<T(!new)>(s: State<T>)
    requires Reachable(s)
    ensures Inv(s)
  {
    hide Inv, Init;
    forall a: State<T> | Init(a) ensures Inv(a) {
      InitInv(a);
    }
    forall a: State<T>, b: State<T> | Inv(a) && Next(a, b) ensures Inv(b) {
      var x: Action<T> :| Enabled(a, x) && b == Step(a, x);
      StepInv(a, x);
    }
    Runs.Invariant<State<T>>(Init, Next, Inv, s);
  }

  /** Whatever index a consumer loaded and however far the producer has got since, the entry it ends up
      reading is that of its own block, which is still in use. */
  lemma FindsItsBlock<T(!new)>(s: State<T>, t: nat)
    requires Reachable(s) && t < |s.pcs| && s.pcs[t].ReadBlock?
    ensures var x, h := s.pcs[t].x, HeaderAt(s, s.pcs[t].h);
            && s.pcs[t].slot < |h.entries|
            && h.entries[s.pcs[t].slot].base == x - Off(x, s.bs)
            && s.oldest <= Num(x, s.bs) < |s.ring|
            && h.entries[s.pcs[t].slot].block == s.ring[Num(x, s.bs)] < |s.blocks|
  {
    ReachableInv(s);
    var x := s.pcs[t].x;
    ClaimedBlock(s, t);
    assert PcOk(s, s.pcs[t]);
    assert EntryOk(s.headers[s.pcs[t].h], s.ring, Num(x, s.bs), s.bs);
    Parts(x, s.bs);
  }

  /** A consumer moves out exactly the element that was enqueued at the index it claimed, and its place is
      then recorded for the first time. */
  lemma MovesItsElement<T(!new)>(s: State<T>, t: nat)
    requires Reachable(s) && t < |s.pcs|
    ensures s.pcs[t].Move? ==>
              var x, c := s.pcs[t].x, CellsAt(s, s.pcs[t].b);
              x < |s.items| && Off(x, s.bs) < |c.elements| && c.elements[Off(x, s.bs)] == Some(s.items[x])
    ensures s.pcs[t].SetEmpty? ==>
              var x, c := s.pcs[t].x, CellsAt(s, s.pcs[t].b);
              Off(x, s.bs) !in c.done && |c.done| < s.bs
  {
    hide Num, Ix, Off, HeadersOk, All;
    ReachableInv(s);
    if s.pcs[t].Move? || s.pcs[t].SetEmpty? {
      var x := s.pcs[t].x;
      ClaimedBlock(s, t);
      assert PcOk(s, s.pcs[t]);
      Parts(x, s.bs);
      assert SlotOk(s, Num(x, s.bs), Off(x, s.bs)) && RecordOk(s, Num(x, s.bs), Off(x, s.bs));
      NotAll(CellsAt(s, s.pcs[t].b).done, s.bs, Off(x, s.bs));
    }
  }

  lemma NotAll(done: set<nat>, size: nat, o: nat)
    requires done <= All(size) && o < size
    ensures o !in done ==> |done| < size
  {
    FullIff(done, size);
    assert Among(o, 0, size);
  }

  /** No two consumers are ever at work with one index. */
  lemma ClaimedByOne<T(!new)>(s: State<T>, t: nat, u: nat)
    requires Reachable(s) && t < u < |s.pcs| && !s.pcs[t].Idle? && !s.pcs[u].Idle?
    ensures s.pcs[t].x != s.pcs[u].x && s.pcs[t].x < s.head && s.pcs[u].x < s.head
  {
    ReachableInv(s);
  }

  /** While the producer resets a block, or writes its index entry, no consumer is at work in it, or will
      look at that entry: every index that a consumer has claimed is in another block in use, and every
      slot that one is about to read is another slot, or one of an older index. */
  lemma NotInUse<T(!new)>(s: State<T>, t: nat)
    requires Reachable(s) && (s.producer.Reset? || s.producer.Enter?) && t < |s.pcs| && !s.pcs[t].Idle?
    ensures s.oldest <= Num(s.pcs[t].x, s.bs) < |s.ring| && s.ring[Num(s.pcs[t].x, s.bs)] != Last(s)
    ensures s.pcs[t].Move? || s.pcs[t].SetEmpty? ==> s.pcs[t].b != Last(s)
    ensures s.pcs[t].ReadBase? ==> s.pcs[t].h < |s.headers| && (s.pcs[t].h == |s.headers| - 1 ==> s.pcs[t].f != s.next)
    ensures s.pcs[t].ReadBlock? ==> s.pcs[t].h < |s.headers| && (s.pcs[t].h == |s.headers| - 1 ==> s.pcs[t].slot != s.next)
  {
    hide Num, Ix, Off, RecordsOk, SlotsOk;
    ReachableInv(s);
    ClaimedBlock(s, t);
    assert PcOk(s, s.pcs[t]);
    var h, k := Current(s), Num(s.pcs[t].x, s.bs);
    assert HeaderOk(h, s.ring, s.oldest, s.bs);
    OtherSlot(h, k, s.oldest, |s.ring|);
    if s.pcs[t].ReadBase? {
      if s.pcs[t].h == |s.headers| - 1 {
        OtherSlot(h, s.pcs[t].g, s.oldest, |s.ring|);
      }
    }
  }

  lemma OtherSlot(h: Header, k: nat, oldest: nat, n: nat)
    requires h.entries != [] && h.shift <= oldest <= k < h.published == n - 1 && n - oldest <= |h.entries|
    ensures Pos(h, k) != Pos(h, h.published)
  {
    RemaindersDiffer(k - h.shift, h.published - h.shift, |h.entries|);
  }

  /** A block is used again only when all its indices have been claimed and their elements moved out and
      recorded: the step that decides so. */
  lemma ReusedWhenDone<T(!new)>(s: State<T>, choice: Choice)
    requires Reachable(s) && s.producer.Check? && ProducerStep(s, choice).producer.Reset?
    ensures ProducerStep(s, choice).ring == s.ring + [Ahead(s)] && s.oldest < |s.ring| && Ahead(s) == s.ring[s.oldest]
    ensures forall o :: 0 <= o < s.bs ==> Ix(s.oldest, o, s.bs) < s.head && Ix(s.oldest, o, s.bs) !in s.flying
    ensures forall t :: 0 <= t < |s.pcs| && !s.pcs[t].Idle? ==> Num(s.pcs[t].x, s.bs) > s.oldest
  {
    hide Num, Ix, HeadersOk, SlotsOk, All;
    ReachableInv(s);
    var done := CellsAt(s, Ahead(s)).done;
    AllDone(s, done);
    OldestDone(s);
    forall o | 0 <= o < s.bs ensures Ix(s.oldest, o, s.bs) < s.head && Ix(s.oldest, o, s.bs) !in s.flying {
      assert o in done && RecordOk(s, s.oldest, o);
    }
  }

  /** An element is constructed only where none is. */
  lemma NeverOverwrites<T(!new)>(s: State<T>)
    requires Reachable(s) && s.producer.Construct?
    ensures var c := CellsAt(s, Last(s)); Off(s.tail, s.bs) < |c.elements| && c.elements[Off(s.tail, s.bs)] == None
  {
    hide Num, Ix, Off, HeadersOk, RecordsOk;
    ReachableInv(s);
    TailPlace(s);
    Parts(s.tail, s.bs);
    assert SlotOk(s, Num(s.tail, s.bs), Off(s.tail, s.bs));
  }

  // ---- what the producer achieves ----

  /** Every index of the oldest block has been claimed and finished with. */
  ghost predicate AheadDone<T>(s: State<T>) {
    s.ring != [] && forall o :: 0 <= o < s.bs ==> Ix(s.oldest, o, s.bs) < s.head && Ix(s.oldest, o, s.bs) !in s.flying
  }

  /** The enqueue at hand, or the next one, can do without another block. */
  ghost predicate Sure<T>(s: State<T>) {
    match s.producer
    case Resting => Off(s.tail, s.bs) != 0 || AheadDone(s)
    case Check(_, _) => AheadDone(s)
    case Acquire(_) => false
    case _ => true
  }

  /** If the block ahead is done with when an enqueue starts, or there is room in the last one, then
      whatever anyone does meanwhile the enqueue needs no other block, and the element joins. */
  lemma UsesItAgain<T(!new)>(s: State<T>, a: Action<T>)
    requires Reachable(s) && Enabled(s, a) && Sure(s)
    ensures var s' := Step(s, a);
            && !s'.producer.Acquire?
            && ((s.producer.Store? && a.Produce?) || Sure(s'))
            && (!s.producer.Resting? && s'.producer.Resting? ==> s.producer.Store? && s'.items == s.items + [s.producer.v])
  {
    hide Inv, Num, Ix, Off, ConsumerStep, ProducerStep, Sure;
    ReachableInv(s);
    match a
    case Enqueue(_) => StartsSure(s, a.v);
    case Produce(choice) => ProducesSure(s, choice);
    case Claim(t) => ConsumersSure(s, a);
    case Consume(t) => ConsumersSure(s, a);
  }

  lemma StartsSure<T>(s: State<T>, v: T)
    requires s.producer.Resting? && Sure(s)
    ensures var s' := Step(s, Enqueue(v)); Sure(s') && !s'.producer.Acquire? && !s'.producer.Resting?
  {
    hide Ix, Off;
  }

  lemma ProducesSure<T>(s: State<T>, choice: Choice)
    requires Inv(s) && !s.producer.Resting? && Sure(s)
    ensures var s' := ProducerStep(s, choice);
            && !s'.producer.Acquire? && (s.producer.Store? || (!s'.producer.Resting? && Sure(s')))
            && (s.producer.Store? ==> s'.items == s.items + [s.producer.v])
  {
    hide Inv, Num, Ix, Off;
    if s.producer.Check? {
      SaysEmpty(s);
    }
  }

  lemma ConsumersSure<T>(s: State<T>, a: Action<T>)
    requires Enabled(s, a) && (a.Claim? || a.Consume?) && Sure(s)
    ensures Sure(Step(s, a)) && Step(s, a).producer == s.producer && !s.producer.Acquire?
  {
    hide Ix, Off;
  }

  /** is_empty says yes if every element of the block has been dequeued for good. */
  lemma SaysEmpty<T>(s: State<T>)
    requires Inv(s) && s.producer.Check? && AheadDone(s)
    ensures var done := CellsAt(s, Ahead(s)).done; |done| == s.bs && s.producer.k < s.bs && s.bs - 1 - s.producer.k in done
  {
    hide Num, Ix, HeadersOk, SlotsOk, ClaimsOk, TailOk, PcsOk;
    var done := CellsAt(s, Ahead(s)).done;
    forall o | 0 <= o < s.bs ensures o in done {
      assert RecordOk(s, s.oldest, o);
    }
    FullIff(done, s.bs);
    assert done == All(s.bs);
  }

  /** The steps an enqueue still has to take, at most. */
  function Remaining<T>(s: State<T>): int {
    match s.producer
    case Resting => 0
    case Check(_, k) => s.bs - k + 6 + s.bs
    case Acquire(_) => if IndexFull(s) then 6 + s.bs else 5 + s.bs
    case Reset(_, k) => 4 + s.bs - k
    case Enter(_) => 4
    case Publish(_) => 3
    case Construct(_) => 2
    case Store(_) => 1
  }

  /** One step of the producer; in an enqueue that can do without another block, or gets what it asks for. */
  lemma ProducerCloser<T>(s: State<T>, choice: Choice)
    requires Inv(s) && !s.producer.Resting? && (Sure(s) || choice.Have?)
    ensures var s' := ProducerStep(s, choice);
            && Inv(s') && s'.pcs == s.pcs && s'.head == s.head && s'.flying == s.flying && s'.waiting == s.waiting
            && if s.producer.Store? then s'.producer.Resting? && s'.items == s.items + [s.producer.v]
               else && !s'.producer.Resting? && s'.producer.v == s.producer.v && s'.items == s.items
                    && Remaining(s') < Remaining(s) && (Sure(s) ==> Sure(s'))
  {
    hide Inv, Num, Ix, Off;
    ProducerInv(s, choice);
    BeforeEnd(s);
    if s.producer.Check? && AheadDone(s) {
      SaysEmpty(s);
    }
  }

  lemma BeforeEnd<T>(s: State<T>)
    requires Inv(s)
    ensures s.producer.Check? || s.producer.Reset? ==> s.producer.k < s.bs
    ensures s.producer.Acquire? && IndexFull(s) ==> !IndexFull(Grow(s)) && Remaining(s) > 0
  {
    hide Num, Ix, Off, BlocksOk, ClaimsOk, SlotsOk, PcsOk, HeaderOk, Seen, Cleared, RecordOk;
  }

  /** The state after so many steps of the producer, if nobody else takes any. */
  function ProducerAlone<T>(s: State<T>, choices: seq<Choice>): State<T>
    decreases |choices|
  {
    if choices == [] || s.producer.Resting? then s else ProducerAlone(ProducerStep(s, choices[0]), choices[1..])
  }

  ghost predicate Enqueued<T>(s: State<T>, s': State<T>, v: T) {
    && s'.producer.Resting? && s'.items == s.items + [v] && s'.tail == s.tail + 1
    && s'.head == s.head && s'.pcs == s.pcs && s'.flying == s.flying && s'.waiting == s.waiting
  }

  /** An enqueue left to itself ends, wherever it is and whatever consumers are in the middle of, and the
      element has joined: if it can do without another block whatever the environment chooses, and
      otherwise if it gets what it asks for. */
  lemma ResumedEnqueue<T(!new)>(s: State<T>, choices: seq<Choice>)
    requires Reachable(s) && !s.producer.Resting? && |choices| >= Remaining(s)
    requires Sure(s) || forall i :: 0 <= i < |choices| ==> choices[i].Have?
    ensures Enqueued(s, ProducerAlone(s, choices), s.producer.v)
  {
    hide Inv, Sure, Remaining;
    ReachableInv(s);
    EnqueueEnds(s, choices);
  }

  lemma {:induction false} EnqueueEnds<T>(s: State<T>, choices: seq<Choice>)
    requires Inv(s) && !s.producer.Resting? && |choices| >= Remaining(s)
    requires Sure(s) || forall i :: 0 <= i < |choices| ==> choices[i].Have?
    ensures Enqueued(s, ProducerAlone(s, choices), s.producer.v)
    decreases |choices|
  {
    hide Inv, Sure, ProducerStep;
    StepsLeft(s);
    var s' := ProducerStep(s, choices[0]);
    ProducerCloser(s, choices[0]);
    TailIsLength(s);
    TailIsLength(s');
    if !s.producer.Store? {
      EnqueueEnds(s', choices[1..]);
    }
  }

  lemma StepsLeft<T>(s: State<T>)
    requires Inv(s) && !s.producer.Resting?
    ensures Remaining(s) > 0
  {
    hide Inv;
    BeforeEnd(s);
  }

  lemma TailIsLength<T>(s: State<T>)
    requires Inv(s)
    ensures s.tail == |s.items|
  {
  }

  // ---- what a consumer achieves ----

  function LookUpsLeft(pc: Pc): nat {
    match pc
    case Idle => 0
    case LoadIndex(_) => 6
    case LoadFront(_, _) => 5
    case ReadBase(_, _, _, _) => 4
    case ReadBlock(_, _, _) => 3
    case Move(_, _) => 2
    case SetEmpty(_, _) => 1
  }

  function ConsumerAlone<T>(s: State<T>, t: nat, n: nat): State<T>
    requires t < |s.pcs|
    decreases n
  {
    if n == 0 || s.pcs[t].Idle? then s else ConsumerAlone(ConsumerStep(s, t), t, n - 1)
  }

  /** Index `x` is finished with: its element has been moved out, and its place counts as dequeued. */
  ghost predicate Finished<T>(s: State<T>, s': State<T>, t: nat, x: nat) {
    && t < |s.pcs| && s'.pcs == s.pcs[t := Idle] && s'.flying == s.flying - {x} && s'.waiting == s.waiting - {x}
    && s'.ring == s.ring && s'.head == s.head && Num(x, s.bs) < |s.ring|
    && var c := CellsAt(s', s.ring[Num(x, s.bs)]);
       Off(x, s.bs) in c.done && Off(x, s.bs) < |c.elements| && c.elements[Off(x, s.bs)] == None
  }

  /** A consumer left to itself needs at most six steps from wherever it is to be done with its index. */
  lemma ResumedConsumer<T(!new)>(s: State<T>, t: nat)
    requires Reachable(s) && t < |s.pcs| && !s.pcs[t].Idle?
    ensures Finished(s, ConsumerAlone(s, t, 6), t, s.pcs[t].x)
  {
    hide Inv, Finished;
    ReachableInv(s);
    ConsumerEnds(s, t, 6);
  }

  lemma {:induction false} ConsumerEnds<T>(s: State<T>, t: nat, n: nat)
    requires Inv(s) && t < |s.pcs| && !s.pcs[t].Idle? && LookUpsLeft(s.pcs[t]) <= n
    ensures Finished(s, ConsumerAlone(s, t, n), t, s.pcs[t].x)
    decreases n
  {
    hide Inv, Num, Off, Ix, ConsumerStep;
    var s' := ConsumerStep(s, t);
    if !s.pcs[t].SetEmpty? {
      ConsumerCloser(s, t);
      ConsumerEnds(s', t, n - 1);
      assert s'.pcs[t := Idle] == s.pcs[t := Idle];
    } else {
      LastStep(s, t);
    }
  }

  lemma ConsumerCloser<T>(s: State<T>, t: nat)
    requires Inv(s) && t < |s.pcs| && !s.pcs[t].Idle? && !s.pcs[t].SetEmpty?
    ensures var s' := ConsumerStep(s, t);
            && Inv(s') && |s'.pcs| == |s.pcs| && s'.pcs == s.pcs[t := s'.pcs[t]] && !s'.pcs[t].Idle?
            && s'.pcs[t].x == s.pcs[t].x && LookUpsLeft(s'.pcs[t]) < LookUpsLeft(s.pcs[t])
            && s'.flying == s.flying && s'.waiting - {s.pcs[t].x} == s.waiting - {s.pcs[t].x}
            && s'.ring == s.ring && s'.head == s.head && s'.bs == s.bs
  {
    hide Inv, Num, Off, Ix;
    StepInv(s, Consume(t));
  }

  lemma LastStep<T>(s: State<T>, t: nat)
    requires Inv(s) && t < |s.pcs| && s.pcs[t].SetEmpty?
    ensures Finished(s, ConsumerStep(s, t), t, s.pcs[t].x)
  {
    hide Num, Ix, Off, HeadersOk, RecordsOk;
    var x := s.pcs[t].x;
    ClaimedBlock(s, t);
    assert PcOk(s, s.pcs[t]);
    Parts(x, s.bs);
    assert SlotOk(s, Num(x, s.bs), Off(x, s.bs));
  }
}
