/** The reference-counted CAS free list: every atomic instruction of `add`, `try_get` and
    `add_knowing_refcount_is_zero` is one step of one thread, threads interleave freely, and
    memory is sequentially consistent. */
module FreeList {
  import Runs
  import opened Sums

  type Tid = nat
  type Node = nat
  datatype Ptr = Null | At(node: Node)

  const SHOULD: nat := 0x8000_0000       // SHOULD_BE_ON_FREELIST; the lower 31 bits are the count
  const WORD: nat := 0x1_0000_0000

  /** What a thread does after re-inserting a node: return from `add`, or go on with `try_get`. */
  datatype Cont = Return | Resume(head: Ptr)

  /** The atomic instruction a thread is about to execute, with the locals it still needs. */
  datatype Pc =
    | Idle
    | AddFetch(n: Node)                          // add: refs += SHOULD
    | InsLoadHead(n: Node, k: Cont)              // add_knowing_refcount_is_zero from here
    | InsStoreNext(n: Node, h: Ptr, k: Cont)
    | InsStoreRefs(n: Node, h: Ptr, k: Cont)
    | InsCas(n: Node, h: Ptr, k: Cont)
    | InsFetch(n: Node, h: Ptr, k: Cont)
    | GetLoadHead                                // try_get from here
    | GetLoadRefs(n: Node)
    | GetCasRefs(n: Node, r: nat)
    | GetLoadNext(n: Node)
    | GetCasHead(n: Node, nx: Ptr)
    | GetSub2(n: Node)
    | GetSub1(n: Node, h: Ptr)

  /** `head`, `refs` and `next` are the shared memory; `chain` and `client` are auxiliary: the
      nodes linked from `head`, and the nodes in the hands of callers. */
  datatype State = State(head: Ptr, refs: seq<nat>, next: seq<Ptr>, pcs: seq<Pc>,
                         chain: seq<Node>, client: set<Node>)

  /** What thread `t` does next: a caller's choice while it is idle, else its own instruction. */
  datatype Action = NewNode | BeginAdd(n: Node) | BeginGet | Go

  // ---- the transitions ----

  /** Wrap-around of the 32-bit counter word: `w` is the sum of two words. */
  function At32(w: nat): nat { if w < WORD then w else w - WORD }

  function Continue(k: Cont): Pc {
    match k
    case Return => Idle
    case Resume(h) => GetLoop(h)
  }

  /** The test at the top of the `while (head != nullptr)` loop of `try_get`. */
  function GetLoop(h: Ptr): Pc {
    if h.Null? then Idle else GetLoadRefs(h.node)
  }

  /** The node a thread is working on. */
  function Subject(pc: Pc): Ptr {
    if pc.Idle? || pc.GetLoadHead? then Null else At(pc.n)
  }

  /** The head or next pointer in a thread's locals. */
  function Saved(pc: Pc): Ptr {
    if pc.InsStoreNext? || pc.InsStoreRefs? || pc.InsCas? || pc.InsFetch? || pc.GetSub1? then pc.h
    else if pc.GetCasHead? then pc.nx
    else Null
  }

  /** The list head that an interrupted `try_get` goes on with. */
  function Later(pc: Pc): Ptr {
    if (pc.InsLoadHead? || pc.InsStoreNext? || pc.InsStoreRefs? || pc.InsCas? || pc.InsFetch?) && pc.k.Resume?
    then pc.k.head
    else Null
  }

  predicate PcInRange(pc: Pc, n: nat) {
    PtrInRange(Subject(pc), n) && PtrInRange(Saved(pc), n) && PtrInRange(Later(pc), n)
  }

  predicate PtrInRange(p: Ptr, n: nat) { p.At? ==> p.node < n }

  /** Every pointer held anywhere refers to an existing node. */
  predicate InRange(s: State) {
    && |s.refs| == |s.next|
    && PtrInRange(s.head, |s.refs|)
    && (forall i :: 0 <= i < |s.next| ==> PtrInRange(s.next[i], |s.refs|))
    && (forall t :: 0 <= t < |s.pcs| ==> PcInRange(s.pcs[t], |s.refs|))
  }

  predicate Enabled(s: State, t: Tid, a: Action) {
    && t < |s.pcs|
    && match a
       case NewNode => true
       case BeginAdd(n) => s.pcs[t].Idle? && n in s.client
       case BeginGet => s.pcs[t].Idle?
       case Go => !s.pcs[t].Idle?
  }

  /** One atomic step of thread `t`. */
  function Step(s: State, t: Tid, a: Action): State
    requires InRange(s) && Enabled(s, t, a)
  {
    match a
    case NewNode => s.(refs := s.refs + [0], next := s.next + [Null], client := s.client + {|s.refs|})
    case BeginAdd(n) => s.(client := s.client - {n}, pcs := s.pcs[t := AddFetch(n)])
    case BeginGet => s.(pcs := s.pcs[t := GetLoadHead])
    case Go => Exec(s, t)
  }

  function Exec(s: State, t: Tid): State
    requires InRange(s) && t < |s.pcs|
  {
    match s.pcs[t]
    case Idle => s
    case AddFetch(n) =>
      s.(refs := s.refs[n := At32(s.refs[n] + SHOULD)],
         pcs := s.pcs[t := if s.refs[n] == 0 then InsLoadHead(n, Return) else Idle])
    case InsLoadHead(n, k) =>
      s.(pcs := s.pcs[t := InsStoreNext(n, s.head, k)])
    case InsStoreNext(n, h, k) =>
      s.(next := s.next[n := h], pcs := s.pcs[t := InsStoreRefs(n, h, k)])
    case InsStoreRefs(n, h, k) =>
      s.(refs := s.refs[n := 1], pcs := s.pcs[t := InsCas(n, h, k)])
    case InsCas(n, h, k) =>
      if s.head == h then
        s.(head := At(n), pcs := s.pcs[t := Continue(k)], chain := [n] + s.chain)
      else
        s.(pcs := s.pcs[t := InsFetch(n, s.head, k)])
    case InsFetch(n, h, k) =>
      s.(refs := s.refs[n := At32(s.refs[n] + SHOULD - 1)],
         pcs := s.pcs[t := if s.refs[n] == 1 then InsStoreNext(n, h, k) else Continue(k)])
    case GetLoadHead =>
      s.(pcs := s.pcs[t := GetLoop(s.head)])
    case GetLoadRefs(n) =>
      s.(pcs := s.pcs[t := if s.refs[n] % SHOULD == 0 then GetLoadHead else GetCasRefs(n, s.refs[n])])
    case GetCasRefs(n, r) =>
      if s.refs[n] == r then
        s.(refs := s.refs[n := At32(r + 1)], pcs := s.pcs[t := GetLoadNext(n)])
      else
        s.(pcs := s.pcs[t := GetLoadHead])
    case GetLoadNext(n) =>
      s.(pcs := s.pcs[t := GetCasHead(n, s.next[n])])
    case GetCasHead(n, nx) =>
      if s.head == At(n) then
        s.(head := nx, pcs := s.pcs[t := GetSub2(n)], chain := if s.chain == [] then [] else s.chain[1..])
      else
        s.(pcs := s.pcs[t := GetSub1(n, s.head)])
    case GetSub2(n) =>
      s.(refs := s.refs[n := At32(s.refs[n] + WORD - 2)], pcs := s.pcs[t := Idle], client := s.client + {n})
    case GetSub1(n, h) =>
      s.(refs := s.refs[n := At32(s.refs[n] + WORD - 1)],
         pcs := s.pcs[t := if s.refs[n] == SHOULD + 1 then InsLoadHead(n, Resume(h)) else GetLoop(h)])
  }

  // ---- who refers to a node ----

  /** Thread pc holds one of the counted references on `n`. */
  predicate Holds(pc: Pc, n: Node) {
    (pc.GetLoadNext? || pc.GetCasHead? || pc.GetSub2? || pc.GetSub1?) && pc.n == n
  }

  /** Thread pc is responsible for `n`: it is putting `n` on the list, or has just taken it off. */
  predicate Carries(pc: Pc, n: Node) {
    (pc.AddFetch? || pc.InsLoadHead? || pc.InsStoreNext? || pc.InsStoreRefs? || pc.InsCas? || pc.InsFetch? || pc.GetSub2?)
    && pc.n == n
  }

  function HoldFn(n: Node): Pc -> nat { pc => if Holds(pc, n) then 1 else 0 }
  function CarryFn(n: Node): Pc -> nat { pc => if Carries(pc, n) then 1 else 0 }

  /** The number of threads that hold a counted reference on `n`. */
  function Holders(s: State, n: Node): nat { Sum(s.pcs, HoldFn(n)) }

  /** The number of threads responsible for `n`. */
  function Carriers(s: State, n: Node): nat { Sum(s.pcs, CarryFn(n)) }

  /** `n` must go back on the list, and the last thread to drop its reference will see to it. */
  predicate Waiting(s: State, n: Node)
    requires n < |s.refs|
  {
    s.refs[n] >= SHOULD && Carriers(s, n) == 0
  }

  function Bit(b: bool): nat { if b then 1 else 0 }

  // ---- the invariant ----

  /** `chain` is what a walk from `head` along `next` finds, and it visits no node twice. */
  predicate ChainOk(head: Ptr, next: seq<Ptr>, chain: seq<Node>) {
    && (forall i :: 0 <= i < |chain| ==> chain[i] < |next|)
    && (forall i, j :: 0 <= i < j < |chain| ==> chain[i] != chain[j])
    && head == Link(chain, 0)
    && (forall i :: 0 <= i < |chain| ==> next[chain[i]] == Link(chain, i + 1))
  }

  function Link(chain: seq<Node>, i: nat): Ptr {
    if i < |chain| then At(chain[i]) else Null
  }

  /** A node with counter word `w`, `c` responsible threads and `h` reference holders is in exactly
      one place - on the list, at a caller's, carried, or flagged and waiting - and `w` says so. */
  predicate NodeGood(w: nat, linked: bool, owned: bool, c: nat, h: nat) {
    && Bit(linked) + Bit(owned) + c + Bit(w >= SHOULD && c == 0) == 1
    && (linked ==> w == 1 + h)
    && (owned ==> w == h)
    && (w >= SHOULD && c == 0 ==> w == SHOULD + h && h >= 1)
  }

  predicate NodeOk(s: State, n: Node)
    requires n < |s.refs|
  {
    NodeGood(s.refs[n], n in s.chain, n in s.client, Carriers(s, n), Holders(s, n))
  }

  /** The insertion has not given the node its first reference yet. */
  predicate Early(pc: Pc) { pc.InsLoadHead? || pc.InsStoreNext? || pc.InsStoreRefs? }

  /** The thread relies on its node's `next` being what it saved. */
  predicate KnowsNext(pc: Pc) { pc.InsStoreRefs? || pc.InsCas? || pc.GetCasHead? }

  /** What a carried node's word holds besides the counted references. */
  function Base(pc: Pc): nat {
    if pc.AddFetch? then 0 else if Early(pc) then SHOULD else 1
  }

  /** What a thread's position promises about its node's word `w`, its `next` and its holders. */
  predicate PcGood(pc: Pc, w: nat, nx: Ptr, h: nat) {
    && (Subject(pc).At? && Carries(pc, Subject(pc).node) ==> w == Base(pc) + h)
    && (Early(pc) ==> h == 0)
    && (KnowsNext(pc) ==> nx == Saved(pc))
    && (pc.GetCasRefs? ==> pc.r % SHOULD != 0)
  }

  predicate PcOk(s: State, pc: Pc)
    requires |s.refs| == |s.next| && PcInRange(pc, |s.refs|)
  {
    match Subject(pc)
    case Null => true
    case At(n) => PcGood(pc, s.refs[n], s.next[n], Holders(s, n))
  }

  /** The counter word has room for one reference per thread. */
  predicate Inv(s: State) {
    && InRange(s)
    && |s.pcs| + 1 < SHOULD
    && (forall n :: n in s.client ==> n < |s.refs|)
    && ChainOk(s.head, s.next, s.chain)
    && (forall n :: 0 <= n < |s.refs| ==> NodeOk(s, n))
    && (forall t :: 0 <= t < |s.pcs| ==> PcOk(s, s.pcs[t]))
  }

  predicate Init(s: State) {
    && s.head == Null && s.refs == [] && s.next == [] && s.chain == [] && s.client == {}
    && |s.pcs| + 1 < SHOULD
    && (forall t :: 0 <= t < |s.pcs| ==> s.pcs[t] == Idle)
  }

  lemma InitInv(s: State)
    requires Init(s)
    ensures Inv(s)
  {
  }

  // ---- preservation ----

  /** Only the stepping thread's contribution to the counts changes. */
  lemma CountsAfter(s: State, t: Tid, pc: Pc, s': State, n: Node)
    requires t < |s.pcs| && s'.pcs == s.pcs[t := pc]
    ensures Holders(s', n) + Bit(Holds(s.pcs[t], n)) == Holders(s, n) + Bit(Holds(pc, n))
    ensures Carriers(s', n) + Bit(Carries(s.pcs[t], n)) == Carriers(s, n) + Bit(Carries(pc, n))
  {
    SumUpdate(s.pcs, t, pc, HoldFn(n));
    SumUpdate(s.pcs, t, pc, CarryFn(n));
  }

  /** A thread's own contribution is part of the counts; the counts stay below the flag bit. */
  lemma CountsAt(s: State, t: Tid, n: Node)
    requires t < |s.pcs|
    ensures Bit(Holds(s.pcs[t], n)) <= Holders(s, n) <= |s.pcs|
    ensures Bit(Carries(s.pcs[t], n)) <= Carriers(s, n)
  {
    SumAtLeast(s.pcs, t, HoldFn(n));
    SumBound(s.pcs, HoldFn(n), 1);
    SumAtLeast(s.pcs, t, CarryFn(n));
  }

  /** A node's carrier is the only one, and the node is then neither linked nor at a caller's. */
  lemma OnlyCarrier(s: State, t: Tid, n: Node)
    requires Inv(s) && t < |s.pcs| && n < |s.refs| && Carries(s.pcs[t], n)
    ensures n !in s.chain && n !in s.client && Carriers(s, n) == 1
    ensures forall u :: 0 <= u < |s.pcs| && u != t ==> !Carries(s.pcs[u], n)
  {
    CountsAt(s, t, n);
    assert NodeOk(s, n);
    forall u | 0 <= u < |s.pcs| && u != t ensures !Carries(s.pcs[u], n) {
      if u < t { SumTwo(s.pcs, u, t, CarryFn(n)); } else { SumTwo(s.pcs, t, u, CarryFn(n)); }
    }
  }

  /** Thread `t` moves to `pc`, writing `w` and `nx` into node `n`. */
  function Write(s: State, t: Tid, pc: Pc, n: Node, w: nat, nx: Ptr): State
    requires t < |s.pcs| && n < |s.refs| == |s.next|
  {
    s.(pcs := s.pcs[t := pc], refs := s.refs[n := w], next := s.next[n := nx])
  }

  /** A step of `t` that touches at most node `n`: it is enough to look at `n`, at `t`, and at
      whether another thread may be carrying `n`. */
  lemma Touch(s: State, t: Tid, pc: Pc, n: Node, w: nat, nx: Ptr, s': State)
    requires Inv(s) && t < |s.pcs| && n < |s.refs|
    requires s' == Write(s, t, pc, n, w, nx).(head := s'.head, chain := s'.chain, client := s'.client)
    requires PtrInRange(s'.head, |s.refs|) && PtrInRange(nx, |s.refs|) && PcInRange(pc, |s.refs|)
    requires ChainOk(s'.head, s'.next, s'.chain)
    requires forall m :: m != n ==> (m in s'.chain <==> m in s.chain) && (m in s'.client <==> m in s.client)
    requires Subject(s.pcs[t]) in {Null, At(n)} && (Subject(pc) in {Null, At(n)} || pc.GetLoadRefs?)
    requires NodeOk(s', n) && PcGood(pc, w, nx, Holders(s', n))
    requires Carriers(s, n) == Bit(Carries(s.pcs[t], n)) || (
               && w + Holders(s, n) == s.refs[n] + Holders(s', n)
               && (s.refs[n] % SHOULD != 0 || Holders(s, n) > 0)
               && nx == s.next[n])
    requires nx == s.next[n] || Holders(s, n) == 0
    ensures Inv(s')
  {
    hide Holders, Carriers, ChainOk;
    forall m | 0 <= m < |s.refs| && m != n
      ensures NodeOk(s', m) && Holders(s', m) == Holders(s, m)
    {
      CountsAfter(s, t, pc, s', m);
      assert NodeOk(s, m);
    }
    forall u | 0 <= u < |s.pcs| ensures PcInRange(s'.pcs[u], |s.refs|) && PcOk(s', s'.pcs[u]) {
      if u != t {
        assert PcOk(s, s.pcs[u]);
        if Subject(s.pcs[u]) == At(n) { OtherThread(s, t, n, u); }
      }
    }
  }

  /** Another thread working on `n` neither carries it, if `t` accounts for all carriers, nor holds
      a reference, if there is none. */
  lemma OtherThread(s: State, t: Tid, n: Node, u: Tid)
    requires t < |s.pcs| && u < |s.pcs| && u != t
    ensures Carriers(s, n) == Bit(Carries(s.pcs[t], n)) ==> !Carries(s.pcs[u], n)
    ensures Holders(s, n) == 0 ==> !Holds(s.pcs[u], n)
  {
    CountsAt(s, u, n);
    if u < t { SumTwo(s.pcs, u, t, CarryFn(n)); } else { SumTwo(s.pcs, t, u, CarryFn(n)); }
  }

  /** A word above the flag bit means that nobody is responsible for the node yet. */
  lemma FlaggedWaits(s: State, n: Node)
    requires Inv(s) && n < |s.refs| && s.refs[n] > SHOULD
    ensures Carriers(s, n) == 0
  {
    assert NodeOk(s, n);
    if Carriers(s, n) > 0 {
      var u := SumWitness(s.pcs, CarryFn(n));
      assert PcOk(s, s.pcs[u]);
      CountsAt(s, u, n);
    }
  }

  lemma StepInv(s: State, t: Tid, a: Action)
    requires Inv(s) && Enabled(s, t, a)
    ensures Inv(Step(s, t, a))
  {
    match a
    case NewNode => NewNodeInv(s, t);
    case BeginAdd(n) => BeginAddInv(s, t, n);
    case BeginGet => LocalInv(s, t, GetLoadHead);
    case Go =>
      var pc := s.pcs[t];
      if Early(pc) {
        InsertInv(s, t);
      } else if pc.InsCas? && s.head == pc.h {
        LinkInv(s, t);
      } else if pc.InsCas? {
        assert PcInRange(pc, |s.refs|) && PcOk(s, pc);
        LocalInv(s, t, InsFetch(pc.n, s.head, pc.k));
      } else if pc.InsFetch? {
        InsFetchInv(s, t);
      } else if pc.AddFetch? {
        AddFetchInv(s, t);
      } else {
        TryGetInv(s, t);
      }
  }

  lemma TryGetInv(s: State, t: Tid)
    requires Inv(s) && t < |s.pcs|
    requires s.pcs[t].GetLoadHead? || s.pcs[t].GetLoadRefs? || s.pcs[t].GetCasRefs? || s.pcs[t].GetLoadNext?
             || s.pcs[t].GetCasHead? || s.pcs[t].GetSub1? || s.pcs[t].GetSub2?
    ensures Inv(Exec(s, t))
  {
    hide Holders, Carriers, NodeOk, ChainOk;
    match s.pcs[t]
    case GetLoadHead => LocalInv(s, t, GetLoop(s.head));
    case GetLoadRefs(n) => LocalInv(s, t, if s.refs[n] % SHOULD == 0 then GetLoadHead else GetCasRefs(n, s.refs[n]));
    case GetCasRefs(n, r) => if s.refs[n] == r { AcquireInv(s, t); } else { LocalInv(s, t, GetLoadHead); }
    case GetLoadNext(n) => LocalInv(s, t, GetCasHead(n, s.next[n]));
    case GetCasHead(n, _) => if s.head == At(n) { UnlinkInv(s, t); } else { LocalInv(s, t, GetSub1(n, s.head)); }
    case GetSub2(_) => Sub2Inv(s, t);
    case GetSub1(_, _) => Sub1Inv(s, t);
  }

  /** Steps that write no memory and neither take nor drop a reference or a responsibility. */
  lemma LocalInv(s: State, t: Tid, pc: Pc)
    requires Inv(s) && t < |s.pcs| && PcInRange(pc, |s.refs|)
    requires forall n :: Holds(s.pcs[t], n) == Holds(pc, n) && Carries(s.pcs[t], n) == Carries(pc, n)
    requires PcOk(s, pc)
    ensures Inv(s.(pcs := s.pcs[t := pc]))
  {
    var s' := s.(pcs := s.pcs[t := pc]);
    forall n | 0 <= n < |s.refs| ensures NodeOk(s', n) && Holders(s', n) == Holders(s, n) {
      CountsAfter(s, t, pc, s', n);
      assert NodeOk(s, n);
    }
    forall u | 0 <= u < |s.pcs| ensures PcInRange(s'.pcs[u], |s.refs|) && PcOk(s', s'.pcs[u]) {
      assert u != t ==> PcOk(s, s.pcs[u]);
    }
  }

  lemma BeginAddInv(s: State, t: Tid, n: Node)
    requires Inv(s) && Enabled(s, t, BeginAdd(n))
    ensures Inv(Step(s, t, BeginAdd(n)))
  {
    var s' := Step(s, t, BeginAdd(n));
    CountsAfter(s, t, AddFetch(n), s', n);
    assert NodeOk(s, n);
    Touch(s, t, AddFetch(n), n, s.refs[n], s.next[n], s');
  }

  /** `add` sets the flag; with no reference left it inserts the node itself. */
  lemma AddFetchInv(s: State, t: Tid)
    requires Inv(s) && t < |s.pcs| && s.pcs[t].AddFetch?
    ensures Inv(Exec(s, t))
  {
    hide Holders, Carriers, ChainOk;
    var n := s.pcs[t].n;
    var w, pc := s.refs[n] + SHOULD, if s.refs[n] == 0 then InsLoadHead(n, Return) else Idle;
    var s' := s.(refs := s.refs[n := w], pcs := s.pcs[t := pc]);
    OnlyCarrier(s, t, n);
    CountsAfter(s, t, pc, s', n);
    CountsAt(s, t, n);
    assert PcOk(s, s.pcs[t]) && NodeOk(s, n);
    assert Exec(s, t) == s';
    Touch(s, t, pc, n, w, s.next[n], s');
  }

  lemma LongerChain(head: Ptr, next: seq<Ptr>, chain: seq<Node>, n: Node)
    requires ChainOk(head, next, chain) && n < |next| && n !in chain && next[n] == head
    ensures ChainOk(At(n), next, [n] + chain)
  {
    var c := [n] + chain;
    forall i | 0 <= i < |c| ensures next[c[i]] == Link(c, i + 1) {
      assert i > 0 ==> c[i] == chain[i - 1] && Link(c, i + 1) == Link(chain, i);
    }
  }

  /** The insertion's CAS on the head succeeds: the node is linked. */
  lemma LinkInv(s: State, t: Tid)
    requires Inv(s) && t < |s.pcs| && s.pcs[t].InsCas? && s.head == s.pcs[t].h
    ensures Inv(Exec(s, t))
  {
    hide Holders, Carriers, ChainOk;
    var n := s.pcs[t].n;
    var s' := Exec(s, t);
    OnlyCarrier(s, t, n);
    CountsAfter(s, t, s'.pcs[t], s', n);
    CountsAt(s, t, n);
    assert PcInRange(s.pcs[t], |s.refs|) && PcOk(s, s.pcs[t]) && NodeOk(s, n);
    LongerChain(s.head, s.next, s.chain, n);
    Touch(s, t, s'.pcs[t], n, s.refs[n], s.next[n], s');
  }

  /** The steps of the insertion before its CAS. `next` is written while nobody holds a
      reference, so nobody remembers the old value. */
  lemma InsertInv(s: State, t: Tid)
    requires Inv(s) && t < |s.pcs| && Early(s.pcs[t])
    ensures Inv(Exec(s, t))
  {
    hide Holders, Carriers;
    var n := s.pcs[t].n;
    var s' := Exec(s, t);
    OnlyCarrier(s, t, n);
    CountsAfter(s, t, s'.pcs[t], s', n);
    assert PcInRange(s.pcs[t], |s.refs|) && PcOk(s, s.pcs[t]) && NodeOk(s, n);
    Touch(s, t, s'.pcs[t], n, s'.refs[n], s'.next[n], s');
  }

  /** The insertion failed: hand the node to the last reference holder, or try again. */
  lemma InsFetchInv(s: State, t: Tid)
    requires Inv(s) && t < |s.pcs| && s.pcs[t].InsFetch?
    ensures Inv(Exec(s, t))
  {
    hide Holders, Carriers, ChainOk;
    var n := s.pcs[t].n;
    var w, pc := s.refs[n] + SHOULD - 1, if s.refs[n] == 1 then InsStoreNext(n, s.pcs[t].h, s.pcs[t].k) else Continue(s.pcs[t].k);
    var s' := s.(refs := s.refs[n := w], pcs := s.pcs[t := pc]);
    OnlyCarrier(s, t, n);
    CountsAfter(s, t, pc, s', n);
    CountsAt(s, t, n);
    assert PcInRange(s.pcs[t], |s.refs|) && PcOk(s, s.pcs[t]) && NodeOk(s, n);
    assert Exec(s, t) == s';
    Touch(s, t, pc, n, w, s.next[n], s');
  }

  /** `try_get` counts itself in; the count was not zero, so nobody is rewriting the node. */
  lemma AcquireInv(s: State, t: Tid)
    requires Inv(s) && t < |s.pcs| && s.pcs[t].GetCasRefs? && s.refs[s.pcs[t].n] == s.pcs[t].r
    ensures Inv(Exec(s, t))
  {
    hide Holders, Carriers, ChainOk;
    var n := s.pcs[t].n;
    var s', w := Exec(s, t), s.refs[n] + 1;
    CountsAfter(s, t, s'.pcs[t], s', n);
    CountsAt(s', t, n);
    WordBound(s, n);
    assert PcOk(s, s.pcs[t]) && NodeOk(s, n);
    Touch(s, t, s'.pcs[t], n, w, s.next[n], s');
  }

  /** `try_get` takes the head off the list. */
  lemma UnlinkInv(s: State, t: Tid)
    requires Inv(s) && t < |s.pcs| && s.pcs[t].GetCasHead? && s.head == At(s.pcs[t].n)
    ensures Inv(Exec(s, t))
  {
    hide Holders, Carriers;
    var n := s.pcs[t].n;
    var s' := Exec(s, t);
    assert n == s.chain[0];
    CountsAfter(s, t, s'.pcs[t], s', n);
    assert PcOk(s, s.pcs[t]) && NodeOk(s, n);
    Touch(s, t, s'.pcs[t], n, s.refs[n], s.next[n], s');
  }

  /** `try_get` drops its own and the list's reference and returns the node. */
  lemma Sub2Inv(s: State, t: Tid)
    requires Inv(s) && t < |s.pcs| && s.pcs[t].GetSub2?
    ensures Inv(Exec(s, t))
  {
    hide Holders, Carriers, ChainOk;
    var n := s.pcs[t].n;
    var s' := Exec(s, t);
    OnlyCarrier(s, t, n);
    CountsAfter(s, t, Idle, s', n);
    CountsAt(s, t, n);
    assert PcOk(s, s.pcs[t]) && NodeOk(s, n);
    Touch(s, t, Idle, n, s.refs[n] - 2, s.next[n], s');
  }

  /** A `try_get` that lost the race drops its reference; the last one re-inserts a flagged node. */
  lemma Sub1Inv(s: State, t: Tid)
    requires Inv(s) && t < |s.pcs| && s.pcs[t].GetSub1?
    ensures Inv(Exec(s, t))
  {
    hide Holders, Carriers, ChainOk;
    var n, h := s.pcs[t].n, s.pcs[t].h;
    CountsAt(s, t, n);
    WordBound(s, n);
    var w, pc := s.refs[n] - 1, if s.refs[n] == SHOULD + 1 then InsLoadHead(n, Resume(h)) else GetLoop(h);
    var s' := s.(refs := s.refs[n := w], pcs := s.pcs[t := pc]);
    CountsAfter(s, t, pc, s', n);
    if s.refs[n] > SHOULD { FlaggedWaits(s, n); }
    assert PcInRange(s.pcs[t], |s.refs|) && NodeOk(s, n);
    assert Exec(s, t) == s';
    Touch(s, t, pc, n, w, s.next[n], s');
  }

  /** A word is its counted references, and one more if the list or a carrier has one, or the flag. */
  lemma WordBound(s: State, n: Node)
    requires Inv(s) && n < |s.refs|
    ensures Holders(s, n) <= |s.pcs| && s.refs[n] - Holders(s, n) in {0, 1, SHOULD}
  {
    SumBound(s.pcs, HoldFn(n), 1);
    assert NodeOk(s, n);
    if Carriers(s, n) > 0 {
      var u := SumWitness(s.pcs, CarryFn(n));
      assert PcOk(s, s.pcs[u]);
    }
  }

  /** So the count stays below the flag bit. */
  lemma CountBits(w: nat, h: nat)
    requires h + 1 < SHOULD && (w == h || w == h + 1 || w == SHOULD + h)
    ensures w < WORD && h <= w % SHOULD <= h + 1
  {
  }

  lemma NewNodeInv(s: State, t: Tid)
    requires Inv(s) && Enabled(s, t, NewNode)
    ensures Inv(Step(s, t, NewNode))
  {
    var s' := Step(s, t, NewNode);
    var m := |s.refs|;
    SumZero(s.pcs, HoldFn(m));
    SumZero(s.pcs, CarryFn(m));
    forall n | 0 <= n < |s'.refs| ensures NodeOk(s', n) {
      if n < m { assert NodeOk(s, n); }
    }
    forall u | 0 <= u < |s.pcs| ensures PcOk(s', s'.pcs[u]) {
      assert PcOk(s, s.pcs[u]);
    }
  }

  // ---- every run ----

  /** Some thread makes a step. */
  ghost predicate Next(s: State, s': State) {
    InRange(s) && exists t: Tid, a: Action :: Enabled(s, t, a) && s' == Step(s, t, a)
  }

  /** Some run of some number of threads, from an empty list, leads to `s`. */
  ghost predicate Reachable(s: State) {
    Runs.Reachable<State>(Init, Next, s)
  }

  /** Every step of every thread keeps the invariant, so it holds whatever run led to a state. */
  lemma ReachableInv(s: State)
    requires Reachable(s)
    ensures Inv(s)
  {
    forall a: State | Init(a) ensures Inv(a) {
      InitInv(a);
    }
    forall a: State, b: State | Inv(a) && Next(a, b) ensures Inv(b) {
      var t: Tid, x: Action :| Enabled(a, t, x) && b == Step(a, t, x);
      StepInv(a, t, x);
    }
    Runs.Invariant<State>(Init, Next, Inv, s);
  }

  /** `n` is found `k` links behind the head. */
  predicate LinkedAt(s: State, n: Node, k: nat) {
    k < |s.chain| && s.chain[k] == n
  }

  /** In every interleaving each node is in exactly one place: linked at one position of an acyclic
      list, owned by one caller, in the hands of exactly one thread, or flagged while some thread
      still holds a reference that it must give back. */
  lemma EachNodeInOnePlace(s: State, n: Node)
    requires Reachable(s) && n < |s.refs|
    ensures |s.next| == |s.refs|
    ensures Bit(n in s.chain) + Bit(n in s.client) + Carriers(s, n) + Bit(Waiting(s, n)) == 1
    ensures forall i, j :: LinkedAt(s, n, i) && LinkedAt(s, n, j) ==> i == j
    ensures s.head == Link(s.chain, 0)
    ensures forall k: nat :: LinkedAt(s, n, k) ==> s.next[n] == Link(s.chain, k + 1)
    ensures Waiting(s, n) ==> exists t :: 0 <= t < |s.pcs| && Holds(s.pcs[t], n) && !s.pcs[t].GetSub2?
  {
    ReachableInv(s);
    assert NodeOk(s, n);
    if Waiting(s, n) {
      var t := SumWitness(s.pcs, HoldFn(n));
      CountsAt(s, t, n);
      assert Holds(s.pcs[t], n) && !s.pcs[t].GetSub2?;
    }
  }

  /** No ABA: when the head CAS of `try_get` succeeds, the `next` it read earlier is still the
      node's `next`, the flag is clear, and the word counts the list's reference and the holders'. */
  lemma NoAba(s: State, t: Tid)
    requires Reachable(s) && t < |s.pcs| && s.pcs[t].GetCasHead? && s.head == At(s.pcs[t].n)
    ensures var n := s.pcs[t].n;
            && n < |s.refs| == |s.next|
            && s.pcs[t].nx == s.next[n]
            && s.refs[n] == 1 + Holders(s, n) < SHOULD
            && s.chain != [] && s.chain[0] == n
            && s.pcs[t].nx == Link(s.chain, 1)
  {
    ReachableInv(s);
    var n := s.pcs[t].n;
    assert PcOk(s, s.pcs[t]) && NodeOk(s, n);
    assert s.chain[0] == n;
    CountsAt(s, t, n);
  }

  /** `try_get` hands out a node that is nobody else's: not linked, not owned by a caller, and in no
      other thread's hands. The flag is clear, and afterwards the caller owns the node. */
  lemma HandedOutOnce(s: State, t: Tid)
    requires Reachable(s) && t < |s.pcs| && s.pcs[t].GetSub2?
    ensures InRange(s)
    ensures var n, s' := s.pcs[t].n, Exec(s, t);
            && n !in s.chain && n !in s.client
            && s.refs[n] < SHOULD
            && (forall u :: 0 <= u < |s.pcs| && u != t ==> !Carries(s.pcs[u], n))
            && s'.client == s.client + {n} && Carriers(s', n) == 0 && n !in s'.chain
            && s'.refs[n] == Holders(s', n)
  {
    ReachableInv(s);
    var n, s' := s.pcs[t].n, Exec(s, t);
    OnlyCarrier(s, t, n);
    CountsAt(s, t, n);
    CountsAfter(s, t, Idle, s', n);
    assert PcOk(s, s.pcs[t]);
  }

  /** A flagged node is never forgotten: the reference holder that drops the last reference takes
      it over, any other leaves it to the rest. */
  lemma LastHolderReinserts(s: State, t: Tid)
    requires Reachable(s) && t < |s.pcs| && s.pcs[t].GetSub1? && s.pcs[t].n < |s.refs| && Waiting(s, s.pcs[t].n)
    ensures InRange(s)
    ensures var n, s' := s.pcs[t].n, Exec(s, t);
            if Holders(s, n) == 1 then s'.pcs[t] == InsLoadHead(n, Resume(s.pcs[t].h)) && Carriers(s', n) == 1
            else |s'.refs| == |s.refs| && Waiting(s', n) && Holders(s', n) == Holders(s, n) - 1
  {
    ReachableInv(s);
    var n, s' := s.pcs[t].n, Exec(s, t);
    CountsAfter(s, t, s'.pcs[t], s', n);
    CountsAt(s, t, n);
    assert NodeOk(s, n);
  }

  /** What the atomic instruction of a thread adds to its node's word. */
  function Change(s: State, t: Tid): int
    requires InRange(s) && t < |s.pcs| && Subject(s.pcs[t]).At?
  {
    match s.pcs[t]
    case AddFetch(_) => SHOULD
    case InsStoreRefs(n, _, _) => 1 - (s.refs[n] as int)
    case InsFetch(_, _, _) => SHOULD - 1
    case GetCasRefs(n, r) => if s.refs[n] == r then 1 else 0
    case GetSub2(_) => -2
    case GetSub1(_, _) => -1
    case _ => 0
  }

  /** The count never reaches the flag bit, from below or from above: in every reachable state there is
      room for a reference per thread, and no addition or subtraction wraps around or carries a
      count over into the flag. */
  lemma NeverOverflows(s: State, t: Tid)
    requires Reachable(s) && t < |s.pcs| && Subject(s.pcs[t]).At?
    ensures InRange(s) && |s.pcs| + 1 < SHOULD
    ensures forall n :: 0 <= n < |s.refs| ==> s.refs[n] < WORD && s.refs[n] % SHOULD <= |s.pcs| + 1
    ensures var n := s.pcs[t].n;
            && Exec(s, t).refs[n] == s.refs[n] + Change(s, t)
            && (s.pcs[t].GetCasRefs? || s.pcs[t].GetSub2? || s.pcs[t].GetSub1? ==>
                  0 <= s.refs[n] % SHOULD + Change(s, t) < SHOULD)
            && (s.pcs[t].AddFetch? || s.pcs[t].InsFetch? ==> s.refs[n] < SHOULD)
  {
    ReachableInv(s);
    var n := s.pcs[t].n;
    forall m | 0 <= m < |s.refs| ensures s.refs[m] < WORD && s.refs[m] % SHOULD <= |s.pcs| + 1 {
      WordBound(s, m);
      CountBits(s.refs[m], Holders(s, m));
    }
    ChangeExact(s, t);
  }

  lemma ChangeExact(s: State, t: Tid)
    requires Inv(s) && t < |s.pcs| && Subject(s.pcs[t]).At?
    ensures var n := s.pcs[t].n;
            && Exec(s, t).refs[n] == s.refs[n] + Change(s, t)
            && (s.pcs[t].GetCasRefs? || s.pcs[t].GetSub2? || s.pcs[t].GetSub1? ==>
                  0 <= s.refs[n] % SHOULD + Change(s, t) < SHOULD)
            && (s.pcs[t].AddFetch? || s.pcs[t].InsFetch? ==> s.refs[n] < SHOULD)
  {
    hide Holders, Carriers, ChainOk;
    var n := s.pcs[t].n;
    WordBound(s, n);
    CountBits(s.refs[n], Holders(s, n));
    CountsAt(s, t, n);
    assert PcInRange(s.pcs[t], |s.refs|) && PcOk(s, s.pcs[t]);
    if s.pcs[t].GetCasRefs? && s.refs[n] == s.pcs[t].r {
      var s' := Exec(s, t);
      AcquireInv(s, t);
      WordBound(s', n);
      CountsAt(s', t, n);
    }
  }

  /** When no call is running, every node is linked or owned, with an exact count. */
  lemma Quiescent(s: State, n: Node)
    requires Reachable(s) && n < |s.refs|
    requires forall t :: 0 <= t < |s.pcs| ==> s.pcs[t].Idle?
    ensures (n in s.chain) != (n in s.client)
    ensures s.refs[n] == if n in s.chain then 1 else 0
  {
    ReachableInv(s);
    SumZero(s.pcs, HoldFn(n));
    SumZero(s.pcs, CarryFn(n));
    assert NodeOk(s, n);
  }

  /** `k` steps of thread `t` alone. */
  function Alone(s: State, t: Tid, k: nat): State
    requires Inv(s) && t < |s.pcs|
    ensures Inv(Alone(s, t, k)) && |Alone(s, t, k).pcs| == |s.pcs|
    decreases k
  {
    if k == 0 || s.pcs[t].Idle? then s
    else
      ExecInv(s, t);
      Alone(Exec(s, t), t, k - 1)
  }

  lemma ExecInv(s: State, t: Tid)
    requires Inv(s) && t < |s.pcs| && !s.pcs[t].Idle?
    ensures InRange(s) && Inv(Exec(s, t)) && |Exec(s, t).pcs| == |s.pcs|
  {
    hide NodeOk, PcOk, ChainOk;
    StepInv(s, t, Go);
  }

  /** One step of `Alone`: what memory and the thread look like afterwards. */
  lemma AloneStep(s: State, t: Tid, k: nat)
    requires Inv(s) && t < |s.pcs| && k > 0 && !s.pcs[t].Idle?
    ensures Inv(Exec(s, t)) && Alone(s, t, k) == Alone(Exec(s, t), t, k - 1)
  {
    hide NodeOk, PcOk, ChainOk;
    ExecInv(s, t);
  }

  /** Whatever the other threads were interrupted in, a `try_get` that runs undisturbed takes the
      head of the list within six steps, and returns nothing only if the list is empty. */
  lemma UndisturbedGet(s: State, t: Tid)
    requires Inv(s) && t < |s.pcs| && s.pcs[t].GetLoadHead?
    ensures var s' := Alone(s, t, 6);
            && s'.pcs[t].Idle?
            && (s.chain == [] ==> s'.client == s.client && s'.chain == [])
            && (s.chain != [] ==> s'.client == s.client + {s.chain[0]} && s'.chain == s.chain[1..])
  {
    hide NodeOk;
    var s1 := Exec(s, t);
    AloneStep(s, t, 6);
    if s.chain != [] {
      var n := s.chain[0];
      var s2 := Exec(s1, t);
      HeadCounted(s, t);
      AloneStep(s1, t, 5);
      TakeHead(s2, t);
    }
  }

  /** The head of the list has a positive count. */
  lemma HeadCounted(s: State, t: Tid)
    requires Inv(s) && t < |s.pcs| && s.chain != []
    ensures s.chain[0] < |s.refs| && s.refs[s.chain[0]] % SHOULD == s.refs[s.chain[0]] > 0
  {
    assert NodeOk(s, s.chain[0]);
    CountsAt(s, t, s.chain[0]);
  }

  lemma TakeHead(s: State, t: Tid)
    requires Inv(s) && t < |s.pcs| && s.chain != [] && s.pcs[t] == GetCasRefs(s.chain[0], s.refs[s.chain[0]])
    ensures var s' := Alone(s, t, 4);
            s'.pcs[t].Idle? && s'.client == s.client + {s.chain[0]} && s'.chain == s.chain[1..]
  {
    hide NodeOk;
    var s1 := Exec(s, t);
    AloneStep(s, t, 4);
    var s2 := Exec(s1, t);
    AloneStep(s1, t, 3);
    Unlink(s2, t);
  }

  /** The last steps are done. */
  lemma AloneDone(s: State, t: Tid)
    requires Inv(s) && t < |s.pcs|
    ensures Alone(s, t, 0) == s
  {
  }

  /** With the list's head in its hands, the CAS succeeds. */
  lemma TakenOff(s: State, t: Tid)
    requires Inv(s) && t < |s.pcs| && s.chain != [] && s.pcs[t].GetCasHead? && s.pcs[t].n == s.chain[0]
    ensures var s' := Exec(s, t);
            s'.pcs[t] == GetSub2(s.chain[0]) && s'.pcs == s.pcs[t := s'.pcs[t]] && s'.chain == s.chain[1..] && s'.client == s.client
  {
    hide NodeOk, PcOk;
  }

  lemma Unlink(s: State, t: Tid)
    requires Inv(s) && t < |s.pcs| && s.chain != [] && s.pcs[t].GetCasHead? && s.pcs[t].n == s.chain[0]
    ensures var s' := Alone(s, t, 2);
            s'.pcs[t].Idle? && s'.client == s.client + {s.chain[0]} && s'.chain == s.chain[1..]
  {
    hide Alone, NodeOk, PcOk, ChainOk;
    var s1 := Exec(s, t);
    TakenOff(s, t);
    AloneStep(s, t, 2);
    var s2 := Exec(s1, t);
    AloneStep(s1, t, 1);
    AloneDone(s2, t);
  }

  /** An `add` of a node that nobody else refers to, run undisturbed, puts it at the head. */
  lemma UndisturbedAdd(s: State, t: Tid)
    requires Inv(s) && t < |s.pcs| && s.pcs[t].AddFetch? && Holders(s, s.pcs[t].n) == 0
    ensures var s' := Alone(s, t, 5);
            s'.pcs[t].Idle? && s'.chain == [s.pcs[t].n] + s.chain && s'.client == s.client
  {
    hide NodeOk;
    assert PcOk(s, s.pcs[t]);
    var s1 := Exec(s, t);
    AloneStep(s, t, 5);
    var s2 := Exec(s1, t);
    AloneStep(s1, t, 4);
    InsertUndisturbed(s2, t);
  }

  lemma InsertUndisturbed(s: State, t: Tid)
    requires Inv(s) && t < |s.pcs| && s.pcs[t].InsStoreNext? && s.pcs[t].h == s.head && s.pcs[t].k.Return?
    ensures var s' := Alone(s, t, 3);
            s'.pcs[t].Idle? && s'.chain == [s.pcs[t].n] + s.chain && s'.client == s.client
  {
    hide Alone, NodeOk, PcOk, ChainOk;
    var s1 := Exec(s, t);
    AloneStep(s, t, 3);
    var s2 := Exec(s1, t);
    AloneStep(s1, t, 2);
    var s3 := Exec(s2, t);
    AloneStep(s2, t, 1);
    AloneDone(s3, t);
  }

  // ---- calls that were interrupted ----

  /** The insertion that a thread is in the middle of. */
  predicate Inserting(pc: Pc) { pc.InsLoadHead? || pc.InsStoreNext? || pc.InsStoreRefs? || pc.InsCas? || pc.InsFetch? }

  /** Inside `try_get`. */
  predicate InGet(pc: Pc) {
    || pc.GetLoadHead? || pc.GetLoadRefs? || pc.GetCasRefs? || pc.GetLoadNext? || pc.GetCasHead? || pc.GetSub2? || pc.GetSub1?
    || (Inserting(pc) && pc.k.Resume?)
  }

  /** It is going to return nothing. */
  predicate WillReturnNothing(pc: Pc) {
    (pc.GetSub1? && pc.h.Null?) || (Inserting(pc) && pc.k.Resume? && pc.k.head.Null?)
  }

  /** How a step of any thread moves a thread that is inside `try_get`. */
  lemma GetMoves(s: State, s': State, t: Tid)
    requires Next(s, s') && t < |s.pcs| && InGet(s.pcs[t])
    ensures |s'.pcs| == |s.pcs| && (InGet(s'.pcs[t]) || s'.pcs[t].Idle?)
    ensures WillReturnNothing(s'.pcs[t]) ==> WillReturnNothing(s.pcs[t]) || s.head.Null?
    ensures s'.pcs[t].Idle? ==> s.pcs[t].GetSub2? || WillReturnNothing(s.pcs[t]) || s.head.Null?
  {
    hide InGet, WillReturnNothing, Exec, Step;
    var u: Tid, a: Action :| Enabled(s, u, a) && s' == Step(s, u, a);
    StepMoves(s, u, a, t);
    if u == t && a.Go? {
      OwnMove(s, t);
    }
  }

  /** A step moves at most the thread that makes it, and that one by its own instruction. */
  lemma StepMoves(s: State, u: Tid, a: Action, t: Tid)
    requires InRange(s) && Enabled(s, u, a) && t < |s.pcs| && InGet(s.pcs[t])
    ensures |Step(s, u, a).pcs| == |s.pcs|
    ensures u == t && a.Go? ==> Step(s, u, a) == Exec(s, t)
    ensures u != t || !a.Go? ==> Step(s, u, a).pcs[t] == s.pcs[t]
    ensures !s.pcs[t].Idle?
  {
    hide At32;
  }

  lemma OwnMove(s: State, t: Tid)
    requires InRange(s) && t < |s.pcs| && InGet(s.pcs[t])
    ensures var pc := Exec(s, t).pcs[t];
            && (InGet(pc) || pc.Idle?)
            && (WillReturnNothing(pc) ==> WillReturnNothing(s.pcs[t]) || s.head.Null?)
            && (pc.Idle? ==> s.pcs[t].GetSub2? || WillReturnNothing(s.pcs[t]) || s.head.Null?)
  {
    hide At32;
  }

  /** From state `i` of a run on, thread `t` is inside `try_get`, up to state `j`, where it has returned. */
  ghost predicate GetCall(run: seq<State>, t: Tid, i: nat, j: nat) {
    && i < j < |run| && (forall k :: i <= k <= j ==> t < |run[k].pcs|)
    && run[i].pcs[t].GetLoadHead? && (forall k :: i <= k < j ==> !run[k].pcs[t].Idle?) && run[j].pcs[t].Idle?
  }

  /** The list was empty in some state from `i` up to `k`. */
  ghost predicate SawEmpty(run: seq<State>, i: nat, k: nat)
    requires k <= |run|
  {
    exists m :: i <= m < k && run[m].head.Null?
  }

  /** `try_get` returns nothing only if the list was empty at some moment of the call. */
  lemma NothingOnlyIfEmpty(run: seq<State>, t: Tid, i: nat, j: nat)
    requires Runs.IsRun(Next, run) && GetCall(run, t, i, j) && !run[j - 1].pcs[t].GetSub2?
    ensures SawEmpty(run, i, j)
  {
    GetSoFar(run, t, i, j, j - 1);
    assert Next(run[j - 1], run[j]);
    GetMoves(run[j - 1], run[j], t);
  }

  lemma {:induction false} GetSoFar(run: seq<State>, t: Tid, i: nat, j: nat, k: nat)
    requires Runs.IsRun(Next, run) && GetCall(run, t, i, j) && i <= k < j
    ensures InGet(run[k].pcs[t]) && (WillReturnNothing(run[k].pcs[t]) ==> SawEmpty(run, i, k))
    decreases k
  {
    if k > i {
      GetSoFar(run, t, i, j, k - 1);
      assert Next(run[k - 1], run[k]);
      GetMoves(run[k - 1], run[k], t);
    }
  }

  /** The number of instructions until the thread's insertion is over, if nobody else moves. */
  function InsertRank(s: State, pc: Pc): nat
    requires Inserting(pc)
  {
    var late := if pc.InsLoadHead? || pc.h == s.head then 0 else 4;
    if pc.InsStoreNext? then 3 + late else if pc.InsStoreRefs? then 2 + late else if pc.InsCas? then 1 + late else 4 + late
  }

  /** The same for taking the head of the list, when the thread is about to look at `z`. */
  function LookRank(s: State, z: Node): nat { if s.head == At(z) then 5 else if z in s.chain then 10 else 19 }

  function GetRank(s: State, pc: Pc): nat
    requires InGet(pc) && !WillReturnNothing(pc) && PcInRange(pc, |s.refs|)
  {
    if pc.GetLoadHead? then 6
    else if pc.GetLoadRefs? then LookRank(s, pc.n)
    else if pc.GetCasRefs? then (if s.refs[pc.n] == pc.r then LookRank(s, pc.n) - 1 else 7)
    else if pc.GetLoadNext? then LookRank(s, pc.n) - 2
    else if pc.GetCasHead? then LookRank(s, pc.n) - 3
    else if pc.GetSub2? then 1
    else if pc.GetSub1? then
      (if s.refs[pc.n] == SHOULD + 1 then 5 + AfterInsert(s, pc.h.node) else 1 + LookRank(s, pc.h.node))
    else InsertRank(s, pc) + AfterInsert(s, pc.k.head.node)
  }

  /** And once the insertion in hand is over. */
  function AfterInsert(s: State, z: Node): nat { if z in s.chain then 10 else 19 }

  /** A linked node has a count and no flag. */
  lemma LinkedCount(s: State, t: Tid, z: Node)
    requires Inv(s) && t < |s.pcs| && z in s.chain
    ensures z < |s.refs| && 0 < s.refs[z] < SHOULD && s.refs[z] % SHOULD == s.refs[z]
  {
    hide Holders, Carriers, PcOk;
    LinkedIn(s, z);
    CountsAt(s, t, z);
    NoFlag(s.refs[z]);
  }

  lemma LinkedIn(s: State, z: Node)
    requires Inv(s) && z in s.chain
    ensures z < |s.refs| && s.refs[z] == 1 + Holders(s, z)
  {
    hide Holders, Carriers, PcOk;
    assert z < |s.refs|;
    assert NodeOk(s, z);
  }

  lemma NoFlag(w: nat)
    requires w < SHOULD
    ensures w % SHOULD == w
  {
  }

  lemma HeadIsFirst(s: State)
    requires Inv(s)
    ensures s.chain == [] <==> s.head.Null?
    ensures s.head.At? ==> s.head.node in s.chain
  {
    hide Holders, Carriers, NodeOk, PcOk;
    assert s.chain != [] ==> s.chain[0] in s.chain;
  }

  /** A step of a `try_get` that runs alone leads on, and nearer to a node. */
  predicate Closer(s: State, s': State, t: Tid)
    requires t < |s.pcs|
  {
    && t < |s'.pcs| && s'.client == s.client
    && InGet(s.pcs[t]) && !WillReturnNothing(s.pcs[t]) && PcInRange(s.pcs[t], |s.refs|)
    && InGet(s'.pcs[t]) && !WillReturnNothing(s'.pcs[t]) && PcInRange(s'.pcs[t], |s'.refs|)
    && (s'.chain != [] || s'.pcs[t].GetSub2?)
    && GetRank(s', s'.pcs[t]) < GetRank(s, s.pcs[t])
  }

  /** It looks for the head of the list. */
  predicate Looking(pc: Pc) { pc.GetLoadHead? || pc.GetLoadRefs? || pc.GetCasRefs? || pc.GetLoadNext? }

  lemma LookCloser(s: State, t: Tid)
    requires Inv(s) && t < |s.pcs| && s.chain != [] && Looking(s.pcs[t])
    ensures Closer(s, Exec(s, t), t)
  {
    hide Holders, Carriers, NodeOk, PcOk, ChainOk;
    HeadIsFirst(s);
    var pc := s.pcs[t];
    assert PcInRange(pc, |s.refs|);
    if Subject(pc).At? && pc.n in s.chain {
      LinkedCount(s, t, pc.n);
    }
  }

  lemma CasHeadCloser(s: State, t: Tid)
    requires Inv(s) && t < |s.pcs| && s.chain != [] && s.pcs[t].GetCasHead?
    ensures Closer(s, Exec(s, t), t)
  {
    hide Holders, Carriers, NodeOk, PcOk, ChainOk, At32;
    HeadIsFirst(s);
    var n := s.pcs[t].n;
    assert PcInRange(s.pcs[t], |s.refs|);
    if n in s.chain {
      LinkedCount(s, t, n);
    }
  }

  lemma Sub1Closer(s: State, t: Tid)
    requires Inv(s) && t < |s.pcs| && s.chain != [] && s.pcs[t].GetSub1? && s.pcs[t].h.At?
    ensures Closer(s, Exec(s, t), t)
  {
    hide Holders, Carriers, NodeOk, PcOk, ChainOk;
    HeadIsFirst(s);
    assert PcInRange(s.pcs[t], |s.refs|);
  }

  lemma InsertingCloser(s: State, t: Tid)
    requires Inv(s) && t < |s.pcs| && s.chain != [] && Inserting(s.pcs[t]) && s.pcs[t].k.Resume? && s.pcs[t].k.head.At?
    ensures Closer(s, Exec(s, t), t)
  {
    hide Holders, Carriers, NodeOk, PcOk, ChainOk;
    HeadIsFirst(s);
    assert PcInRange(s.pcs[t], |s.refs|);
    var n, s' := s.pcs[t].n, Exec(s, t);
    assert forall z :: z in [n] + s.chain <==> z == n || z in s.chain;
  }

  lemma GetCloser(s: State, t: Tid)
    requires Inv(s) && t < |s.pcs| && s.chain != [] && InGet(s.pcs[t]) && !WillReturnNothing(s.pcs[t]) && !s.pcs[t].GetSub2?
    ensures Inv(Exec(s, t)) && Closer(s, Exec(s, t), t)
  {
    hide Holders, Carriers, NodeOk, PcOk, ChainOk, Closer;
    ExecInv(s, t);
    if Looking(s.pcs[t]) {
      LookCloser(s, t);
    } else if s.pcs[t].GetCasHead? {
      CasHeadCloser(s, t);
    } else if s.pcs[t].GetSub1? {
      Sub1Closer(s, t);
    } else {
      InsertingCloser(s, t);
    }
  }

  /** The call has returned a node that no caller had. */
  ghost predicate TookOne(s: State, s': State, t: Tid)
    requires t < |s'.pcs|
  {
    s'.pcs[t].Idle? && exists x :: x !in s.client && s'.client == s.client + {x}
  }

  lemma {:induction false} GetEnds(s: State, t: Tid, k: nat)
    requires Inv(s) && t < |s.pcs| && InGet(s.pcs[t]) && !WillReturnNothing(s.pcs[t]) && (s.chain != [] || s.pcs[t].GetSub2?)
    requires PcInRange(s.pcs[t], |s.refs|) && k >= GetRank(s, s.pcs[t])
    ensures TookOne(s, Alone(s, t, k), t)
    decreases k
  {
    hide NodeOk, PcOk, ChainOk, Holders, Carriers, Alone, GetRank;
    GetRankPositive(s, s.pcs[t]);
    AloneStep(s, t, k);
    if s.pcs[t].GetSub2? {
      Given(s, t, k);
    } else {
      GetCloser(s, t);
      GetEnds(Exec(s, t), t, k - 1);
    }
  }

  lemma GetRankPositive(s: State, pc: Pc)
    requires InGet(pc) && !WillReturnNothing(pc) && PcInRange(pc, |s.refs|)
    ensures GetRank(s, pc) > 0
  {
  }

  lemma Given(s: State, t: Tid, k: nat)
    requires Inv(s) && t < |s.pcs| && s.pcs[t].GetSub2? && k > 0
    ensures TookOne(s, Alone(s, t, k), t)
  {
    hide NodeOk, PcOk, ChainOk, Holders, Carriers;
    var n := s.pcs[t].n;
    AloneStep(s, t, k);
    OnlyCarrier(s, t, n);
    assert n !in s.client && Exec(s, t).client == s.client + {n};
  }

  lemma GetRankBound(s: State, pc: Pc)
    requires InGet(pc) && !WillReturnNothing(pc) && PcInRange(pc, |s.refs|)
    ensures GetRank(s, pc) <= 27
  {
  }

  /** Wherever a `try_get` was interrupted, running on alone it returns a node, unless it saw an empty list
      before or finds one now. */
  lemma ResumedGet(s: State, t: Tid)
    requires Reachable(s) && t < |s.pcs| && InGet(s.pcs[t]) && !WillReturnNothing(s.pcs[t])
    requires s.chain != [] || s.pcs[t].GetSub2?
    ensures Inv(s) && TookOne(s, Alone(s, t, 30), t)
  {
    hide NodeOk, PcOk, ChainOk, Alone, TookOne, Reachable;
    ReachableInv(s);
    GetRankBound(s, s.pcs[t]);
    GetEnds(s, t, 30);
  }

  /** Every step of an insertion that runs alone brings it nearer to its end. */
  lemma InsertCloser(s: State, t: Tid)
    requires Inv(s) && t < |s.pcs| && Inserting(s.pcs[t]) && s.pcs[t].k.Return?
    ensures var s', n := Exec(s, t), s.pcs[t].n;
            && Inv(s') && t < |s'.pcs| && s'.client == s.client && n < |s'.refs|
            && if s'.pcs[t].Idle? then n in s'.chain || Waiting(s', n)
               else Inserting(s'.pcs[t]) && s'.pcs[t].k.Return? && s'.pcs[t].n == n
                    && InsertRank(s', s'.pcs[t]) < InsertRank(s, s.pcs[t])
  {
    hide Holders, Carriers;
    ExecInv(s, t);
    var n, s' := s.pcs[t].n, Exec(s, t);
    OnlyCarrier(s, t, n);
    CountsAfter(s, t, s'.pcs[t], s', n);
    ChangeExact(s, t);
  }

  lemma {:induction false} InsertEnds(s: State, t: Tid, k: nat)
    requires Inv(s) && t < |s.pcs| && Inserting(s.pcs[t]) && s.pcs[t].k.Return? && k >= InsertRank(s, s.pcs[t])
    ensures var s', n := Alone(s, t, k), s.pcs[t].n;
            s'.pcs[t].Idle? && s'.client == s.client && n < |s'.refs| && (n in s'.chain || Waiting(s', n))
    decreases k
  {
    hide NodeOk, PcOk, ChainOk, Holders, Carriers, Alone;
    AloneStep(s, t, k);
    InsertCloser(s, t);
    if Exec(s, t).pcs[t].Idle? {
      AloneIdle(Exec(s, t), t, k - 1);
    } else {
      InsertEnds(Exec(s, t), t, k - 1);
    }
  }

  lemma AloneIdle(s: State, t: Tid, k: nat)
    requires Inv(s) && t < |s.pcs| && s.pcs[t].Idle?
    ensures Alone(s, t, k) == s
  {
  }

  /** Wherever an `add` was interrupted, running on alone it returns, with the node on the list or left to
      those who still hold a reference. */
  lemma ResumedAdd(s: State, t: Tid)
    requires Reachable(s) && t < |s.pcs| && (s.pcs[t].AddFetch? || (Inserting(s.pcs[t]) && s.pcs[t].k.Return?))
    ensures Inv(s)
    ensures var s', n := Alone(s, t, 10), s.pcs[t].n;
            s'.pcs[t].Idle? && s'.client == s.client && n < |s'.refs| && (n in s'.chain || Waiting(s', n))
  {
    hide NodeOk, PcOk, ChainOk, Holders, Carriers, Alone, Exec, Reachable, InsertRank;
    ReachableInv(s);
    InsertRankBound(s, s.pcs[t]);
    if s.pcs[t].AddFetch? {
      AddStarts(s, t);
      AloneStep(s, t, 10);
      if Exec(s, t).pcs[t].Idle? {
        AloneIdle(Exec(s, t), t, 9);
      } else {
        InsertRankBound(Exec(s, t), Exec(s, t).pcs[t]);
        InsertEnds(Exec(s, t), t, 9);
      }
    } else {
      InsertEnds(s, t, 10);
    }
  }

  lemma InsertRankBound(s: State, pc: Pc)
    ensures Inserting(pc) ==> InsertRank(s, pc) <= 8
  {
  }

  lemma AddStarts(s: State, t: Tid)
    requires Inv(s) && t < |s.pcs| && s.pcs[t].AddFetch?
    ensures var s', n := Exec(s, t), s.pcs[t].n;
            && Inv(s') && t < |s'.pcs| && s'.client == s.client && n < |s'.refs|
            && if s'.pcs[t].Idle? then Waiting(s', n) else s'.pcs[t] == InsLoadHead(n, Return)
  {
    hide Holders, Carriers;
    var s', n := Exec(s, t), s.pcs[t].n;
    ExecInv(s, t);
    OnlyCarrier(s, t, n);
    CountsAfter(s, t, s'.pcs[t], s', n);
    ChangeExact(s, t);
  }
}
