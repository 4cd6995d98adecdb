/** The optimistic dequeue counters of a sub-queue: one producer, any number of consumers doing
    single and bulk dequeues, every atomic instruction one step, sequentially consistent.
    The counters are unbounded here; `WrappedGuard` relates them to the wrapping ones. */
module DequeueCounters {
  import Runs
  import opened Sums

  type Tid = nat

  /** A consumer's next atomic instruction. A single dequeue is a bulk dequeue with `max == 1`. */
  datatype Pc =
    | Idle
    | LoadTail(max: nat)
    | LoadOver(max: nat, tail: nat)
    | LoadOpt(max: nat, tail: nat, v: nat)
    | AddOpt(d: nat, v: nat)               // take tickets my .. my + d
    | ReloadTail(d: nat, v: nat, my: nat)
    | AddOverThenHead(f: nat, a: nat)      // give up f tickets, keep a
    | AddOverOnly(f: nat)                  // give up all f tickets
    | AddHead(a: nat)                      // turn a tickets into indices

  /** What became of a ticket: held by a thread that has not decided yet, good for an element, or
      given up. */
  datatype Fate = Held(t: Tid) | Good | Void

  /** A successful dequeue of elements first .. first + count. */
  datatype Claim = Claim(t: Tid, first: nat, count: nat)

  /** `fates` (one per ticket ever taken) and `claims` are auxiliary. */
  datatype State = State(tail: nat, head: nat, opt: nat, over: nat, pcs: seq<Pc>,
                         fates: seq<Fate>, claims: seq<Claim>)

  datatype Action = Produce(k: nat) | Begin(max: nat) | Go

  function Min(a: int, b: int): int { if a < b then a else b }

  predicate Enabled(s: State, t: Tid, a: Action) {
    match a
    case Produce(_) => true
    case Begin(_) => t < |s.pcs| && s.pcs[t].Idle?
    case Go => t < |s.pcs|
  }

  function Step(s: State, t: Tid, a: Action): State
    requires Enabled(s, t, a)
  {
    match a
    case Produce(k) => s.(tail := s.tail + k)
    case Begin(max) => s.(pcs := s.pcs[t := LoadTail(max)])
    case Go => Exec(s, t)
  }

  function Repeat(x: Fate, n: nat): seq<Fate> { seq(n, _ => x) }

  /** The fate of tickets my .. my + d becomes `mid`. */
  function Decide(s: State, my: nat, mid: seq<Fate>): seq<Fate> {
    if my + |mid| <= |s.fates| then s.fates[..my] + mid + s.fates[my + |mid|..] else s.fates
  }

  function Exec(s: State, t: Tid): State
    requires t < |s.pcs|
  {
    match s.pcs[t]
    case Idle => s
    case LoadTail(max) => s.(pcs := s.pcs[t := LoadOver(max, s.tail)])
    case LoadOver(max, tail) => s.(pcs := s.pcs[t := LoadOpt(max, tail, s.over)])
    case LoadOpt(max, tail, v) =>
      var desired: int := tail - (s.opt - v);
      s.(pcs := s.pcs[t := if desired > 0 then AddOpt(Min(desired, max), v) else Idle])
    case AddOpt(d, v) =>
      s.(opt := s.opt + d, pcs := s.pcs[t := ReloadTail(d, v, s.opt)], fates := s.fates + Repeat(Held(t), d))
    case ReloadTail(d, v, my) =>
      var actual: int := s.tail - (my - v);
      if actual > 0 then
        var a: nat := Min(d, actual);
        s.(pcs := s.pcs[t := if a < d then AddOverThenHead(d - a, a) else AddHead(a)],
           fates := Decide(s, my, Repeat(Good, a) + Repeat(Void, d - a)))
      else
        s.(pcs := s.pcs[t := AddOverOnly(d)], fates := Decide(s, my, Repeat(Void, d)))
    case AddOverThenHead(f, a) => s.(over := s.over + f, pcs := s.pcs[t := AddHead(a)])
    case AddOverOnly(f) => s.(over := s.over + f, pcs := s.pcs[t := Idle])
    case AddHead(a) =>
      s.(head := s.head + a, pcs := s.pcs[t := Idle], claims := s.claims + [Claim(t, s.head, a)])
  }

  predicate Init(s: State) {
    && s.tail == s.head == s.opt == s.over == 0 && s.fates == [] && s.claims == []
    && (forall t :: 0 <= t < |s.pcs| ==> s.pcs[t].Idle?)
  }

  // ---- counting tickets ----

  function Is(x: Fate, y: Fate): nat { if x == y then 1 else 0 }

  /** How many of `f` are `x`. */
  function Count(f: seq<Fate>, x: Fate): nat {
    if f == [] then 0 else Count(f[..|f| - 1], x) + Is(f[|f| - 1], x)
  }

  lemma {:induction false} CountConcat(f: seq<Fate>, g: seq<Fate>, x: Fate)
    ensures Count(f + g, x) == Count(f, x) + Count(g, x)
  {
    if g == [] {
      assert f + g == f;
    } else {
      assert (f + g)[..|f + g| - 1] == f + g[..|g| - 1];
      CountConcat(f, g[..|g| - 1], x);
    }
  }

  lemma {:induction false} CountRepeat(y: Fate, n: nat, x: Fate)
    ensures Count(Repeat(y, n), x) == if y == x then n else 0
  {
    if n > 0 {
      assert Repeat(y, n)[..n - 1] == Repeat(y, n - 1);
      CountRepeat(y, n - 1, x);
    }
  }

  /** Deciding tickets only adds to the given-up ones. */
  lemma {:induction false} CountMonotone(f: seq<Fate>, g: seq<Fate>, x: Fate)
    requires |f| <= |g| && forall i :: 0 <= i < |f| && f[i] == x ==> g[i] == x
    ensures Count(f, x) <= Count(g, x)
  {
    if f != [] {
      if |f| == |g| {
        CountMonotone(f[..|f| - 1], g[..|g| - 1], x);
      } else {
        CountMonotone(f, g[..|g| - 1], x);
      }
    }
  }

  lemma {:induction false} CountDisjoint(f: seq<Fate>, x: Fate, y: Fate)
    requires x != y
    ensures Count(f, x) + Count(f, y) <= |f|
  {
    if f != [] {
      CountDisjoint(f[..|f| - 1], x, y);
    }
  }

  // ---- the invariant ----

  /** A thread's share of the three sums below. */
  function HeadPart(pc: Pc): nat { if pc.AddHead? || pc.AddOverThenHead? then pc.a else 0 }
  function OverPart(pc: Pc): nat { if pc.AddOverOnly? || pc.AddOverThenHead? then pc.f else 0 }
  function HeldPart(pc: Pc): nat { if pc.ReloadTail? then pc.d else 0 }

  function HeadFn(): Pc -> nat { (pc: Pc) => HeadPart(pc) }
  function OverFn(): Pc -> nat { (pc: Pc) => OverPart(pc) }
  function HeldFn(): Pc -> nat { (pc: Pc) => HeldPart(pc) }

  /** Tickets decided for an element but not yet added to `head`; tickets given up but not yet
      added to `over`; tickets not decided. */
  function ToHead(s: State): nat { Sum(s.pcs, HeadFn()) }
  function ToOver(s: State): nat { Sum(s.pcs, OverFn()) }
  function Undecided(s: State): nat { Sum(s.pcs, HeldFn()) }

  /** All tickets of operations that have not finished. */
  function InFlight(s: State): nat { ToHead(s) + ToOver(s) + Undecided(s) }

  /** A good ticket is justified by the elements and by the smaller tickets given up. */
  predicate Justified(f: seq<Fate>, tail: nat) {
    forall i :: 0 <= i < |f| && f[i].Good? ==> i < tail + Count(f[..i], Void)
  }

  /** The tickets given up that the thread knows of are smaller than its own. */
  predicate PcOk(s: State, t: Tid, pc: Pc) {
    match pc
    case LoadOver(_, tail) => tail <= s.tail
    case LoadOpt(_, tail, v) => tail <= s.tail && v <= Count(s.fates, Void)
    case AddOpt(_, v) => v <= Count(s.fates, Void)
    case ReloadTail(d, v, my) =>
      && my + d <= |s.fates|
      && v <= Count(s.fates[..my], Void)
      && (forall i :: my <= i < my + d ==> s.fates[i] == Held(t))
    case _ => true
  }

  /** Where the first `k` claims end. */
  function End(claims: seq<Claim>, k: nat): nat
    requires k <= |claims|
  {
    if k == 0 then 0 else claims[k - 1].first + claims[k - 1].count
  }

  predicate Adjacent(claims: seq<Claim>, i: nat)
    requires i < |claims|
  {
    claims[i].first == End(claims, i)
  }

  /** Each claim starts where the one before it ends, and the last ends at `head`. */
  predicate ClaimsOk(claims: seq<Claim>, head: nat) {
    && (forall i :: 0 <= i < |claims| ==> Adjacent(claims, i))
    && head == End(claims, |claims|)
  }

  predicate Inv(s: State) {
    && |s.fates| == s.opt
    && s.opt == s.head + s.over + InFlight(s)
    && s.head + ToHead(s) == Count(s.fates, Good)
    && s.over + ToOver(s) == Count(s.fates, Void)
    && Justified(s.fates, s.tail)
    && ClaimsOk(s.claims, s.head)
    && (forall t :: 0 <= t < |s.pcs| ==> PcOk(s, t, s.pcs[t]))
  }

  lemma InitInv(s: State)
    requires Init(s)
    ensures Inv(s)
  {
    SumZero(s.pcs, HeadFn());
    SumZero(s.pcs, OverFn());
    SumZero(s.pcs, HeldFn());
  }

  /** How thread `t`'s step moves the three sums. */
  lemma SumsAfter(s: State, t: Tid, pc: Pc, s': State)
    requires t < |s.pcs| && s'.pcs == s.pcs[t := pc]
    ensures ToHead(s') + HeadPart(s.pcs[t]) == ToHead(s) + HeadPart(pc)
    ensures ToOver(s') + OverPart(s.pcs[t]) == ToOver(s) + OverPart(pc)
    ensures Undecided(s') + HeldPart(s.pcs[t]) == Undecided(s) + HeldPart(pc)
  {
    SumUpdate(s.pcs, t, pc, HeadFn());
    SumUpdate(s.pcs, t, pc, OverFn());
    SumUpdate(s.pcs, t, pc, HeldFn());
  }

  lemma StepInv(s: State, t: Tid, a: Action)
    requires Inv(s) && Enabled(s, t, a)
    ensures Inv(Step(s, t, a))
  {
    match a
    case Produce(_) => assert forall u :: 0 <= u < |s.pcs| ==> PcOk(s, u, s.pcs[u]);
    case Begin(max) => CounterInv(s, t, LoadTail(max), s.over, s.head, s.claims);
    case Go =>
      var pc := s.pcs[t];
      if pc.AddOpt? {
        TakeTicketsInv(s, t);
      } else if pc.ReloadTail? {
        DecideInv(s, t);
      } else if pc.LoadTail? || pc.LoadOver? || pc.LoadOpt? {
        LoadInv(s, t);
      } else if !pc.Idle? {
        AddInv(s, t);
      }
  }

  lemma LoadInv(s: State, t: Tid)
    requires Inv(s) && t < |s.pcs| && (s.pcs[t].LoadTail? || s.pcs[t].LoadOver? || s.pcs[t].LoadOpt?)
    ensures Inv(Exec(s, t))
  {
    assert PcOk(s, t, s.pcs[t]);
    CounterInv(s, t, Exec(s, t).pcs[t], s.over, s.head, s.claims);
  }

  lemma AddInv(s: State, t: Tid)
    requires Inv(s) && t < |s.pcs| && (s.pcs[t].AddOverThenHead? || s.pcs[t].AddOverOnly? || s.pcs[t].AddHead?)
    ensures Inv(Exec(s, t))
  {
    match s.pcs[t]
    case AddOverThenHead(f, a) => CounterInv(s, t, AddHead(a), s.over + f, s.head, s.claims);
    case AddOverOnly(f) => CounterInv(s, t, Idle, s.over + f, s.head, s.claims);
    case AddHead(a) =>
      var claims := s.claims + [Claim(t, s.head, a)];
      forall i | 0 <= i < |claims| ensures Adjacent(claims, i) {
        assert i < |s.claims| ==> Adjacent(s.claims, i);
      }
      CounterInv(s, t, Idle, s.over, s.head + a, claims);
  }

  /** Steps that take and decide no tickets: what leaves a sum arrives at a counter. */
  lemma CounterInv(s: State, t: Tid, pc: Pc, over: nat, head: nat, claims: seq<Claim>)
    requires Inv(s) && t < |s.pcs| && PcOk(s, t, pc) && ClaimsOk(claims, head)
    requires HeldPart(s.pcs[t]) == HeldPart(pc)
    requires s.over + OverPart(s.pcs[t]) == over + OverPart(pc)
    requires s.head + HeadPart(s.pcs[t]) == head + HeadPart(pc)
    ensures Inv(s.(pcs := s.pcs[t := pc], over := over, head := head, claims := claims))
  {
    var s' := s.(pcs := s.pcs[t := pc], over := over, head := head, claims := claims);
    SumsAfter(s, t, pc, s');
    forall u | 0 <= u < |s.pcs| ensures PcOk(s', u, s'.pcs[u]) {
      assert PcOk(s, u, s.pcs[u]);
    }
  }

  lemma TakeTicketsInv(s: State, t: Tid)
    requires Inv(s) && t < |s.pcs| && s.pcs[t].AddOpt?
    ensures Inv(Exec(s, t))
  {
    var s', d := Exec(s, t), s.pcs[t].d;
    SumsAfter(s, t, s'.pcs[t], s');
    TakeCounts(s.fates, t, d, Good);
    TakeCounts(s.fates, t, d, Void);
    forall i | 0 <= i < |s'.fates| && s'.fates[i].Good? ensures i < s.tail + Count(s'.fates[..i], Void) {
      assert s'.fates[..i] == s.fates[..i];
    }
    TakeOthers(s, t);
  }

  lemma TakeCounts(f: seq<Fate>, t: Tid, d: nat, x: Fate)
    requires !x.Held?
    ensures Count(f + Repeat(Held(t), d), x) == Count(f, x)
  {
    CountConcat(f, Repeat(Held(t), d), x);
    CountRepeat(Held(t), d, x);
  }

  lemma TakeOthers(s: State, t: Tid)
    requires Inv(s) && t < |s.pcs| && s.pcs[t].AddOpt?
    ensures forall u :: 0 <= u < |s.pcs| ==> PcOk(Exec(s, t), u, Exec(s, t).pcs[u])
  {
    var s', d := Exec(s, t), s.pcs[t].d;
    TakeCounts(s.fates, t, d, Void);
    forall u | 0 <= u < |s.pcs| ensures PcOk(s', u, s'.pcs[u]) {
      assert PcOk(s, u, s.pcs[u]);
      if u == t {
        assert s'.fates[..s.opt] == s.fates;
      } else if s.pcs[u].ReloadTail? {
        assert s'.fates[..s.pcs[u].my] == s.fates[..s.pcs[u].my];
      }
    }
  }

  /** After the reload of the tail, `a` of the thread's `d` tickets are good and the rest void. */
  function Verdict(s: State, t: Tid): nat
    requires t < |s.pcs| && s.pcs[t].ReloadTail?
  {
    var actual: int := s.tail - (s.pcs[t].my - s.pcs[t].v);
    if actual > 0 then Min(s.pcs[t].d, actual) else 0
  }

  lemma DecideInv(s: State, t: Tid)
    requires Inv(s) && t < |s.pcs| && s.pcs[t].ReloadTail?
    ensures Inv(Exec(s, t))
  {
    hide Count, Decided, Justified;
    var s' := Exec(s, t);
    var d, my, a := s.pcs[t].d, s.pcs[t].my, Verdict(s, t);
    assert PcOk(s, t, s.pcs[t]);
    DecideFates(s, t);
    SumsAfter(s, t, s'.pcs[t], s');
    DecideCounts(s.fates, my, Held(t), d, a, Good);
    DecideCounts(s.fates, my, Held(t), d, a, Void);
    DecideJustified(s.fates, s.tail, my, t, d, a);
    DecideOthers(s, t, s');
  }

  lemma DecideFates(s: State, t: Tid)
    requires t < |s.pcs| && s.pcs[t].ReloadTail? && s.pcs[t].my + s.pcs[t].d <= |s.fates|
    ensures Exec(s, t).fates == Decided(s.fates, s.pcs[t].my, s.pcs[t].d, Verdict(s, t))
  {
    assert Repeat(Good, 0) + Repeat(Void, s.pcs[t].d) == Repeat(Void, s.pcs[t].d);
  }

  /** Of the tickets my .. my + d, the first `a` become good and the rest void. */
  function Decided(f: seq<Fate>, my: nat, d: nat, a: nat): (g: seq<Fate>)
    requires a <= d && my + d <= |f|
    ensures |g| == |f|
    ensures forall i :: 0 <= i < |f| ==>
      g[i] == if i < my || my + d <= i then f[i] else if i < my + a then Good else Void
  {
    f[..my] + (Repeat(Good, a) + Repeat(Void, d - a)) + f[my + d..]
  }

  lemma DecideOthers(s: State, t: Tid, s': State)
    requires Inv(s) && t < |s.pcs| && s.pcs[t].ReloadTail?
    requires |s'.pcs| == |s.pcs| && s'.pcs == s.pcs[t := s'.pcs[t]] && !s'.pcs[t].ReloadTail? && !s'.pcs[t].AddOpt? && !s'.pcs[t].LoadOpt? && !s'.pcs[t].LoadOver? && s'.tail == s.tail
    requires s.pcs[t].my + s.pcs[t].d <= |s.fates|
    requires s'.fates == Decided(s.fates, s.pcs[t].my, s.pcs[t].d, Verdict(s, t))
    ensures forall u :: 0 <= u < |s.pcs| ==> PcOk(s', u, s'.pcs[u])
  {
    assert PcOk(s, t, s.pcs[t]);
    CountMonotone(s.fates, s'.fates, Void);
    forall u | 0 <= u < |s.pcs| ensures PcOk(s', u, s'.pcs[u]) {
      assert PcOk(s, u, s.pcs[u]);
      if u != t && s.pcs[u].ReloadTail? {
        CountMonotone(s.fates[..s.pcs[u].my], s'.fates[..s.pcs[u].my], Void);
      }
    }
  }

  lemma DecideCounts(f: seq<Fate>, my: nat, held: Fate, d: nat, a: nat, x: Fate)
    requires held.Held? && !x.Held? && a <= d && my + d <= |f|
    requires forall i :: my <= i < my + d ==> f[i] == held
    ensures Count(Decided(f, my, d, a), x) == Count(f, x) + (if x.Good? then a else d - a)
  {
    hide Count;
    var mid := Repeat(Good, a) + Repeat(Void, d - a);
    assert f == f[..my] + Repeat(held, d) + f[my + d..];
    CountThree(f[..my], Repeat(held, d), f[my + d..], x);
    CountThree(f[..my], mid, f[my + d..], x);
    CountConcat(Repeat(Good, a), Repeat(Void, d - a), x);
    CountRepeat(held, d, x);
    CountRepeat(Good, a, x);
    CountRepeat(Void, d - a, x);
  }

  lemma CountThree(f: seq<Fate>, g: seq<Fate>, h: seq<Fate>, x: Fate)
    ensures Count(f + g + h, x) == Count(f, x) + Count(g, x) + Count(h, x)
  {
    CountConcat(f + g, h, x);
    CountConcat(f, g, x);
  }

  lemma DecideJustified(f: seq<Fate>, tail: nat, my: nat, t: Tid, d: nat, a: nat)
    requires Justified(f, tail) && a <= d && my + d <= |f|
    requires forall i :: my <= i < my + d ==> f[i] == Held(t)
    requires a > 0 ==> my + a <= tail + Count(f[..my], Void)
    ensures Justified(Decided(f, my, d, a), tail)
  {
    var g := Decided(f, my, d, a);
    forall i | 0 <= i < |g| && g[i].Good? ensures i < tail + Count(g[..i], Void) {
      if my <= i < my + d {
        CountMonotone(f[..my], g[..i], Void);
      } else {
        CountMonotone(f[..i], g[..i], Void);
      }
    }
  }

  // ---- every run ----

  /** Some thread makes a step. */
  ghost predicate Next(s: State, s': State) {
    exists t: Tid, a: Action :: Enabled(s, t, a) && s' == Step(s, t, a)
  }

  /** Some run of some number of consumers and one producer, from an empty sub-queue, leads to `s`. */
  ghost predicate Reachable(s: State) {
    Runs.Reachable<State>(Init, Next, s)
  }

  /** Every step of every thread keeps the invariant, so it holds whatever run led to a state. */
  lemma ReachableInv(s: State)
    requires Reachable(s)
    ensures Inv(s)
  {
    forall a: State | Init(a) ensures Inv(a) {
      InitInv(a);
    }
    forall a: State, b: State | Inv(a) && Next(a, b) ensures Inv(b) {
      var t: Tid, x: Action :| Enabled(a, t, x) && b == Step(a, t, x);
      StepInv(a, t, x);
    }
    Runs.Invariant<State>(Init, Next, Inv, s);
  }

  /** The heart of the matter: the largest good ticket has room below it for all the good ones and
      for the void ones that justify it, so there are at most `tail` good tickets. */
  lemma {:induction false} GoodTicketsBounded(f: seq<Fate>, tail: nat)
    requires Justified(f, tail)
    ensures Count(f, Good) <= tail
  {
    if f != [] {
      var g := f[..|f| - 1];
      if f[|f| - 1].Good? {
        CountDisjoint(f, Good, Void);
      } else {
        forall i | 0 <= i < |g| && g[i].Good? ensures i < tail + Count(g[..i], Void) {
          assert g[..i] == f[..i];
        }
        GoodTicketsBounded(g, tail);
      }
    }
  }

  /** `head`, even counting the claims still to be made, never passes `tail`; so the index that a
      decided consumer gets from `head` is that of an element already written. */
  lemma HeadNeverPassesTail(s: State)
    requires Reachable(s)
    ensures s.head + ToHead(s) <= s.tail
    ensures forall t :: 0 <= t < |s.pcs| && s.pcs[t].AddHead? ==> s.head + s.pcs[t].a <= s.tail
  {
    ReachableInv(s);
    GoodTicketsBounded(s.fates, s.tail);
    forall t | 0 <= t < |s.pcs| && s.pcs[t].AddHead? ensures s.head + s.pcs[t].a <= s.tail {
      SumAtLeast(s.pcs, t, HeadFn());
    }
  }

  predicate Covers(c: Claim, index: nat) { c.first <= index < c.first + c.count }

  /** Every index below `head` was claimed by exactly one dequeue, and every claimed index is below
      `tail`: no unwritten slot is read, no element is delivered twice or skipped. */
  lemma ClaimedOnce(s: State, index: nat)
    requires Reachable(s)
    ensures index < s.head <==> exists i :: 0 <= i < |s.claims| && Covers(s.claims[i], index)
    ensures forall i, j :: 0 <= i < |s.claims| && 0 <= j < |s.claims| && Covers(s.claims[i], index) && Covers(s.claims[j], index) ==> i == j
    ensures index < s.head ==> index < s.tail
  {
    ReachableInv(s);
    HeadNeverPassesTail(s);
    forall i, j | 0 <= i < j < |s.claims| ensures s.claims[i].first + s.claims[i].count <= s.claims[j].first {
      assert Adjacent(s.claims, j);
      EndMonotone(s.claims, s.head, i + 1, j);
    }
    forall i | 0 <= i < |s.claims| ensures s.claims[i].first + s.claims[i].count <= s.head {
      EndMonotone(s.claims, s.head, i + 1, |s.claims|);
    }
    if index < s.head {
      var i := FindClaim(s.claims, s.head, index, |s.claims|);
      assert Covers(s.claims[i], index);
    }
  }

  lemma {:induction false} EndMonotone(claims: seq<Claim>, head: nat, i: nat, j: nat)
    requires ClaimsOk(claims, head) && i <= j <= |claims|
    ensures End(claims, i) <= End(claims, j)
  {
    if i < j {
      assert Adjacent(claims, j - 1);
      EndMonotone(claims, head, i, j - 1);
    }
  }

  lemma {:induction false} FindClaim(claims: seq<Claim>, head: nat, index: nat, k: nat) returns (i: nat)
    requires ClaimsOk(claims, head) && k <= |claims| && index < End(claims, k)
    ensures i < k && Covers(claims[i], index)
  {
    assert Adjacent(claims, k - 1);
    if Covers(claims[k - 1], index) {
      i := k - 1;
    } else {
      i := FindClaim(claims, head, index, k - 1);
    }
  }

  /** In every reachable state the tickets taken are the indices claimed, the tickets given up, and
      those of unfinished operations; with no operation running, count = head + overcommit. */
  lemma TicketsConserved(s: State)
    requires Reachable(s)
    ensures s.opt == s.head + s.over + InFlight(s)
    ensures (forall t :: 0 <= t < |s.pcs| ==> s.pcs[t].Idle?) ==> s.opt == s.head + s.over
  {
    ReachableInv(s);
    if forall t :: 0 <= t < |s.pcs| ==> s.pcs[t].Idle? {
      SumZero(s.pcs, HeadFn());
      SumZero(s.pcs, OverFn());
      SumZero(s.pcs, HeldFn());
    }
  }

  /** `k` steps of thread `t` alone. */
  function Alone(s: State, t: Tid, k: nat): State
    requires t < |s.pcs|
    decreases k
  {
    if k == 0 then s else Alone(Exec(s, t), t, k - 1)
  }

  /** How many elements a dequeue of up to `max` delivers if nobody else moves: those that no
      unfinished operation may still claim. */
  function Share(s: State, max: nat): nat {
    var free: int := s.tail - s.head - InFlight(s);
    if free <= 0 then 0 else Min(max, free)
  }

  /** A dequeue that runs undisturbed delivers exactly its share, whatever operations were
      interrupted before it. */
  lemma UndisturbedDequeue(s: State, t: Tid, max: nat)
    requires Reachable(s) && t < |s.pcs| && s.pcs[t] == LoadTail(max)
    ensures var s' := Alone(s, t, 8);
            && s'.pcs == s.pcs[t := Idle] && s'.tail == s.tail
            && s'.head == s.head + Share(s, max)
            && (Share(s, max) > 0 ==> s'.claims == s.claims + [Claim(t, s.head, Share(s, max))])
            && s'.opt - s'.over - s'.head == s.opt - s.over - s.head
  {
    ReachableInv(s);
    var s3 := Alone(s, t, 3);
    LoadsAlone(s, t, max);
    AloneSplit(s, t, 3, 5);
    if s.tail - (s.opt - s.over) > 0 {
      ClaimAlone(s3, t);
    } else {
      IdleAlone(s3, t, 5);
    }
  }

  /** When no other operation is running, the share is min(max, tail - head): a dequeue fails only
      on an empty sub-queue, and a bulk dequeue is never short. */
  lemma QuiescentShare(s: State, t: Tid, max: nat)
    requires Reachable(s) && t < |s.pcs| && s.pcs[t] == LoadTail(max)
    requires forall u :: 0 <= u < |s.pcs| && u != t ==> s.pcs[u].Idle?
    ensures Share(s, max) == Min(max, s.tail - s.head)
  {
    HeadNeverPassesTail(s);
    SumZero(s.pcs, HeadFn());
    SumZero(s.pcs, OverFn());
    SumZero(s.pcs, HeldFn());
  }

  lemma {:induction false} AloneSplit(s: State, t: Tid, i: nat, j: nat)
    requires t < |s.pcs|
    ensures |Alone(s, t, i).pcs| == |s.pcs|
    ensures Alone(s, t, i + j) == Alone(Alone(s, t, i), t, j)
    decreases i
  {
    if i > 0 {
      AloneSplit(Exec(s, t), t, i - 1, j);
    }
  }

  lemma {:induction false} IdleAlone(s: State, t: Tid, k: nat)
    requires t < |s.pcs| && s.pcs[t].Idle?
    ensures Alone(s, t, k) == s
  {
    if k > 0 {
      IdleAlone(s, t, k - 1);
    }
  }

  /** The three loads of an undisturbed dequeue. */
  lemma LoadsAlone(s: State, t: Tid, max: nat)
    requires t < |s.pcs| && s.pcs[t] == LoadTail(max)
    ensures var desired: int := s.tail - (s.opt - s.over);
            Alone(s, t, 3) == s.(pcs := s.pcs[t := if desired > 0 then AddOpt(Min(desired, max), s.over) else Idle])
  {
    var s1 := Exec(s, t);
    var s2 := Exec(s1, t);
    var s3 := Exec(s2, t);
    assert Alone(s, t, 3) == Alone(s1, t, 2) == Alone(s2, t, 1) == Alone(s3, t, 0);
    assert s3.pcs == s.pcs[t := s3.pcs[t]];
  }

  /** From the ticket on, an undisturbed dequeue gets everything it asks for. */
  lemma ClaimAlone(s: State, t: Tid)
    requires t < |s.pcs| && s.pcs[t].AddOpt? && s.pcs[t].v == s.over && |s.fates| == s.opt
    requires s.pcs[t].d <= s.tail - (s.opt - s.over) && s.tail - (s.opt - s.over) > 0
    ensures var s' := Alone(s, t, 5);
            && s'.pcs == s.pcs[t := Idle] && s'.tail == s.tail && s'.over == s.over
            && s'.head == s.head + s.pcs[t].d && s'.opt == s.opt + s.pcs[t].d
            && s'.claims == s.claims + [Claim(t, s.head, s.pcs[t].d)]
  {
    var d := s.pcs[t].d;
    var s1 := Exec(s, t);
    var s2 := Exec(s1, t);
    assert s2.pcs == s.pcs[t := AddHead(d)];
    var s3 := Exec(s2, t);
    assert s3.pcs == s.pcs[t := Idle];
    IdleAlone(s3, t, 2);
    assert Alone(s, t, 5) == Alone(s1, t, 4) == Alone(s2, t, 3) == Alone(s3, t, 2);
  }

  /** A ticket is given up only if there is no element for it: of the smaller tickets only `v` are known
      to have been given up, and the elements so far all go to the others. So no consumer gives up a
      ticket, of one or of many, for which the tail it reloads has room. */
  lemma GivenUpOnlyBeyondTail(s: State, t: Tid, a: Action, i: nat)
    requires Reachable(s) && Enabled(s, t, a) && i < |s.fates| && !s.fates[i].Void?
    requires i < |Step(s, t, a).fates| && Step(s, t, a).fates[i].Void?
    ensures a.Go? && s.pcs[t].ReloadTail? && s.fates[i] == Held(t)
    ensures i >= s.tail + s.pcs[t].v && s.pcs[t].v <= Count(s.fates[..s.pcs[t].my], Void)
  {
    ReachableInv(s);
    if a.Go? {
      assert PcOk(s, t, s.pcs[t]);
      if s.pcs[t].ReloadTail? {
        DecideFates(s, t);
      }
    }
  }

  function AtMost(max: nat, room: int): nat { if room <= 0 then 0 else Min(max, room) }

  /** What a dequeue that has been interrupted delivers if nobody else moves: up to the number it wants,
      or has taken tickets for, the elements that there are for its tickets. */
  function Due(s: State, pc: Pc): nat {
    match pc
    case Idle => 0
    case LoadTail(max) => AtMost(max, s.tail - (s.opt - s.over))
    case LoadOver(max, tail) => AtMost(max, tail - (s.opt - s.over))
    case LoadOpt(max, tail, v) => AtMost(max, tail - (s.opt - v))
    case AddOpt(d, v) => AtMost(d, s.tail - (s.opt - v))
    case ReloadTail(d, v, my) => AtMost(d, s.tail - (my - v))
    case AddOverThenHead(_, a) => a
    case AddOverOnly(_) => 0
    case AddHead(a) => a
  }

  /** What `s'` has come to when a dequeue that was at `pc` in `s` has delivered `n` elements and returned:
      it keeps no ticket. */
  predicate Delivered(s: State, s': State, t: Tid, n: nat)
    requires t < |s.pcs|
  {
    && s'.pcs == s.pcs[t := Idle] && s'.tail == s.tail && s'.head == s.head + n
    && (n > 0 ==> s'.claims == s.claims + [Claim(t, s.head, n)])
    && s'.opt - s'.over - s'.head == s.opt - s.over - s.head - HeadPart(s.pcs[t]) - OverPart(s.pcs[t]) - HeldPart(s.pcs[t])
  }

  /** Wherever a dequeue was interrupted, running on alone it delivers exactly what is due to it. */
  lemma ResumedDequeue(s: State, t: Tid)
    requires Reachable(s) && t < |s.pcs| && !s.pcs[t].Idle?
    ensures Delivered(s, Alone(s, t, 8), t, Due(s, s.pcs[t]))
  {
    hide Inv, Due, Delivered, Exec;
    ReachableInv(s);
    ResumedFrom(s, t, 8);
  }

  /** The number of instructions a dequeue still has to execute, at most. */
  function ToGo(pc: Pc): nat {
    match pc
    case Idle => 0
    case LoadTail(_) => 7
    case LoadOver(_, _) => 6
    case LoadOpt(_, _, _) => 5
    case AddOpt(_, _) => 4
    case ReloadTail(_, _, _) => 3
    case AddOverThenHead(_, _) => 2
    case AddOverOnly(_) => 1
    case AddHead(_) => 1
  }

  lemma {:induction false} ResumedFrom(s: State, t: Tid, k: nat)
    requires Inv(s) && t < |s.pcs| && ToGo(s.pcs[t]) <= k
    ensures Delivered(s, Alone(s, t, k), t, Due(s, s.pcs[t]))
    decreases k
  {
    hide Count, Justified, InFlight, ClaimsOk, Due, Exec;
    if s.pcs[t].Idle? {
      IdleAlone(s, t, k);
      IdleDelivered(s, t);
    } else {
      var s1 := Exec(s, t);
      StepInv(s, t, Go);
      OneStepCloser(s, t);
      if s.pcs[t].AddHead? {
        IdleAlone(s1, t, k - 1);
      } else {
        ResumedFrom(s1, t, k - 1);
      }
    }
  }

  lemma IdleDelivered(s: State, t: Tid)
    requires t < |s.pcs| && s.pcs[t].Idle?
    ensures Delivered(s, s, t, Due(s, s.pcs[t]))
  {
    assert s.pcs == s.pcs[t := Idle];
  }

  /** A step of a dequeue does not change what is due to it, but for a claim made. */
  lemma OneStepCloser(s: State, t: Tid)
    requires Inv(s) && t < |s.pcs| && !s.pcs[t].Idle?
    ensures var s1 := Exec(s, t);
            && |s1.pcs| == |s.pcs| && ToGo(s1.pcs[t]) < ToGo(s.pcs[t])
            && s1.pcs[t := Idle] == s.pcs[t := Idle] && s1.tail == s.tail
            && s1.head + Due(s1, s1.pcs[t]) == s.head + Due(s, s.pcs[t])
            && (if s.pcs[t].AddHead? then s1.pcs == s.pcs[t := Idle] && s1.claims == s.claims + [Claim(t, s.head, Due(s, s.pcs[t]))]
                                          && Due(s1, s1.pcs[t]) == 0
                else s1.claims == s.claims && s1.head == s.head)
            && (s1.opt - s1.over - s1.head) - (HeadPart(s1.pcs[t]) + OverPart(s1.pcs[t]) + HeldPart(s1.pcs[t]))
               == (s.opt - s.over - s.head) - (HeadPart(s.pcs[t]) + OverPart(s.pcs[t]) + HeldPart(s.pcs[t]))
  {
    hide Count, Justified, InFlight, ClaimsOk, Decide, Repeat, ToHead, ToOver, Undecided;
    assert PcOk(s, t, s.pcs[t]);
    var s1 := Exec(s, t);
    assert s1.pcs == s.pcs[t := s1.pcs[t]];
  }

  // ---- wrapping counters ----

  const W: int := 0x1_0000_0000_0000_0000      // a 64-bit index_t
  const HALF: int := 0x8000_0000_0000_0000

  /** `circular_less_than` on wrapped counters. */
  predicate CircularLess(a: nat, b: nat) { (a - b) % W > HALF }

  /** `circular_less_than` orders the counters rightly as long as they are less than half the index
      range apart, and at half the range it is wrong in one direction. */
  lemma CircularLessExact(a: nat, b: nat)
    requires -HALF <= a - b <= HALF
    ensures CircularLess(a % W, b % W) <==> a < b && b - a != HALF
  {
    WrapDifference(a, b);
  }

  lemma WrapDifference(a: int, b: int)
    ensures (a % W - b % W) % W == (a - b) % W
  {
    assert a % W - b % W == a - b + W * (b / W - a / W);
    ModAdd(a - b, b / W - a / W);
  }

  lemma {:induction false} ModAdd(x: int, k: int)
    ensures (x + W * k) % W == x % W
    decreases if k < 0 then -k else k
  {
    if k > 0 {
      ModAdd(x + W, k - 1);
    } else if k < 0 {
      ModAdd(x - W, k + 1);
    }
  }

  /** The tests the code does on wrapped counters - `opt - over < tail` for one element,
      `0 < tail - (opt - over)` for many - agree with the model's while the three counters are
      less than half the index range apart, and the wrapped count wanted is the true one. */
  lemma WrappedGuard(tail: nat, opt: nat, over: nat)
    requires -HALF < tail - (opt - over) < HALF
    ensures var wanted := (tail % W - (opt % W - over % W) % W) % W;
            && (CircularLess(0, wanted) <==> tail - (opt - over) > 0)
            && (tail - (opt - over) > 0 ==> wanted == tail - (opt - over))
    ensures CircularLess((opt % W - over % W) % W, tail % W) <==> tail - (opt - over) > 0
  {
    var a: int := opt - over;
    WrapDifference(opt, over);
    WantedWrap(tail, a);
  }

  lemma WantedWrap(tail: int, a: int)
    requires -HALF < tail - a < HALF
    ensures var wanted := (tail % W - a % W) % W;
            && ((0 - wanted) % W > HALF <==> tail - a > 0)
            && (tail - a > 0 ==> wanted == tail - a)
    ensures (a % W - tail % W) % W > HALF <==> tail - a > 0
  {
    WrapDifference(tail, a);
    WrapDifference(a, tail);
    WrapSign(tail - a);
  }

  lemma WrapSign(x: int)
    requires -HALF < x < HALF
    ensures (0 - x % W) % W > HALF <==> x > 0
    ensures (-x) % W > HALF <==> x > 0
    ensures x > 0 ==> x % W == x
  {
    SmallWrap(x);
    if x < 0 {
      SmallWrap(-x);
      ModAdd(-x, -1);
    }
  }

  /** How a difference of less than half the range looks when wrapped. */
  lemma SmallWrap(x: int)
    requires -HALF < x < HALF
    ensures x >= 0 ==> x % W == x && (x > 0 ==> (-x) % W == W - x)
    ensures x < 0 ==> x % W == W + x && (-x) % W == -x
  {
  }
}
