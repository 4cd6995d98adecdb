/** The lightweight semaphore over an abstract kernel semaphore: every atomic instruction, and every
    kernel call, is one step of one thread. The single-permit calls are the many-permit ones with
    `max == 1`, instruction for instruction. */
module Semaphore {
  import Runs
  import opened Sums

  type Tid = nat
  datatype Timeout = Forever | Poll | Timed

  /** What follows a `tryWaitMany` that got nothing. */
  datatype Else = GiveUp | ThenWait(timeout: Timeout)

  datatype Pc =
    | Idle(result: nat)                                        // what the last wait returned
    | TryLoad(max: nat, els: Else, base: nat)                  // tryWaitMany; base permits are already ours
    | TryCas(max: nat, els: Else, base: nat, seen: int)
    | SpinLoad(max: nat, timeout: Timeout, spin: nat)          // waitManyWithPartialSpinning
    | SpinCas(max: nat, timeout: Timeout, spin: nat, seen: int)
    | Sub(max: nat, timeout: Timeout)
    | Sleep(max: nat, timeout: Timeout)                        // m_sema.wait / timed_wait
    | RecLoad(max: nat)                                        // the recovery loop
    | RecTry(max: nat)
    | RecCas(max: nat, seen: int)
    | SigAdd(count: nat)                                       // signal
    | SigPost(k: nat)

  /** `count` is m_count, `kernel` the kernel semaphore. Auxiliary: permits ever signalled (the
      initial ones included), acquired, and reported to callers. */
  datatype State = State(count: int, kernel: nat, maxSpins: nat, pcs: seq<Pc>,
                         signalled: nat, acquired: nat, reported: nat)

  /** `fails` stands for a spurious failure of the weak CAS, and for a kernel wait that times out or
      is interrupted. */
  datatype Action = BeginSignal(n: nat) | BeginTry(max: nat) | BeginWait(max: nat, timeout: Timeout) | Go(fails: bool)

  predicate Enabled(s: State, t: Tid, a: Action) {
    && t < |s.pcs|
    && match a
       case Go(fails) => !s.pcs[t].Idle? && (s.pcs[t].Sleep? && !fails ==> s.kernel > 0)
       case _ => s.pcs[t].Idle?
  }

  function Step(s: State, t: Tid, a: Action): State
    requires Enabled(s, t, a)
  {
    match a
    case BeginSignal(n) => s.(pcs := s.pcs[t := SigAdd(n)])
    case BeginTry(max) => s.(pcs := s.pcs[t := TryLoad(max, GiveUp, 0)])
    case BeginWait(max, timeout) => s.(pcs := s.pcs[t := TryLoad(max, ThenWait(timeout), 0)])
    case Go(fails) => Exec(s, t, fails)
  }

  function Plus(x: int): nat { if x > 0 then x else 0 }

  /** What is left of `seen` permits after taking up to `max`. */
  function Left(seen: int, max: nat): int { if seen > max then seen - max else 0 }

  /** How many that took: `seen - Left(seen, max)`, as `seen` is positive when it is asked. */
  function Taken(seen: int, max: nat): nat { if seen > max then max else Plus(seen) }

  /** The loop test of `tryWaitMany`, and what its caller does when it got nothing. */
  function TryLoop(maxSpins: nat, max: nat, els: Else, base: nat, seen: int): Pc {
    if seen > 0 then TryCas(max, els, base, seen)
    else if els.ThenWait? && max > 0 then SpinLoad(max, els.timeout, maxSpins)
    else Idle(base)
  }

  function Return(s: State, t: Tid, r: nat): State
    requires t < |s.pcs|
  {
    s.(pcs := s.pcs[t := Idle(r)], reported := s.reported + r)
  }

  /** One permit is ours; a bulk wait goes on to try for the rest. */
  function GotOne(s: State, t: Tid, max: nat): State
    requires t < |s.pcs|
  {
    var s' := s.(acquired := s.acquired + 1);
    if max > 1 then s'.(pcs := s.pcs[t := TryLoad(max - 1, GiveUp, 1)]) else Return(s', t, 1)
  }

  function Exec(s: State, t: Tid, fails: bool): State
    requires Enabled(s, t, Go(fails))
  {
    match s.pcs[t]
    case Idle(_) => s
    case TryLoad(max, els, base) => Enter(s, t, TryLoop(s.maxSpins, max, els, base, s.count))
    case TryCas(max, els, base, seen) =>
      if s.count == seen && !fails then
        var got := Taken(seen, max);
        Return(s.(count := Left(seen, max), acquired := s.acquired + got), t, base + got)
      else Enter(s, t, TryLoop(s.maxSpins, max, els, base, s.count))
    case SpinLoad(max, timeout, spin) =>
      Enter(s, t, if spin == 0 then Sub(max, timeout)
                  else if s.count > 0 then SpinCas(max, timeout, spin, s.count)
                  else SpinLoad(max, timeout, spin - 1))
    case SpinCas(max, timeout, spin, seen) =>
      if s.count == seen then
        var got := Taken(seen, max);
        Return(s.(count := Left(seen, max), acquired := s.acquired + got), t, got)
      else Enter(s, t, SpinLoad(max, timeout, if spin == 0 then 0 else spin - 1))
    case Sub(max, timeout) =>
      var s' := s.(count := s.count - 1);
      if s.count > 0 then GotOne(s', t, max)
      else Enter(s', t, if timeout.Poll? then RecLoad(max) else Sleep(max, timeout))
    case Sleep(max, _) =>
      if fails then Enter(s, t, RecLoad(max)) else GotOne(s.(kernel := s.kernel - 1), t, max)
    case RecLoad(max) => Enter(s, t, if s.count >= 0 then RecTry(max) else RecCas(max, s.count))
    case RecTry(max) =>
      if s.kernel > 0 then GotOne(s.(kernel := s.kernel - 1), t, max) else Enter(s, t, RecLoad(max))
    case RecCas(max, seen) =>
      if s.count == seen then Return(s.(count := seen + 1), t, 0) else Enter(s, t, RecLoad(max))
    case SigAdd(n) =>
      var toRelease: int := if -s.count < n then -s.count else n;
      var s' := s.(count := s.count + n, signalled := s.signalled + n);
      Enter(s', t, if toRelease > 0 then SigPost(toRelease) else Idle(0))
    case SigPost(k) => Enter(s.(kernel := s.kernel + k), t, Idle(0))
  }

  /** As `Return`, for a step that does not end a wait with permits. */
  function Enter(s: State, t: Tid, pc: Pc): State
    requires t < |s.pcs|
  {
    s.(pcs := s.pcs[t := pc], reported := s.reported + (if pc.Idle? then pc.result else 0))
  }

  predicate Init(s: State) {
    && s.count >= 0 && s.kernel == 0
    && s.signalled == s.count && s.acquired == 0 && s.reported == 0
    && (forall t :: 0 <= t < |s.pcs| ==> s.pcs[t] == Idle(0))
  }

  // ---- the invariant ----

  /** The thread has decremented the count below zero and not been served or backed out yet. */
  predicate Waits(pc: Pc) { pc.Sleep? || pc.RecLoad? || pc.RecTry? || pc.RecCas? }

  function WaitPart(pc: Pc): nat { if Waits(pc) then 1 else 0 }
  function PostPart(pc: Pc): nat { if pc.SigPost? then pc.k else 0 }
  function BasePart(pc: Pc): nat { if pc.TryLoad? || pc.TryCas? then pc.base else 0 }
  function AddPart(pc: Pc): nat { if pc.SigAdd? then pc.count else 0 }

  function WaitFn(): Pc -> nat { (pc: Pc) => WaitPart(pc) }
  function PostFn(): Pc -> nat { (pc: Pc) => PostPart(pc) }
  function BaseFn(): Pc -> nat { (pc: Pc) => BasePart(pc) }
  function AddFn(): Pc -> nat { (pc: Pc) => AddPart(pc) }

  /** Threads waiting; kernel posts that a `signal` still owes; permits that a bulk wait has and has
      not reported yet; permits of signals that have not reached the count. */
  function Waiters(s: State): nat { Sum(s.pcs, WaitFn()) }
  function Posts(s: State): nat { Sum(s.pcs, PostFn()) }
  function Unreported(s: State): nat { Sum(s.pcs, BaseFn()) }
  function Signals(s: State): nat { Sum(s.pcs, AddFn()) }

  predicate PcOk(pc: Pc) {
    && (pc.TryCas? ==> pc.seen > 0)
    && (pc.TryLoad? || pc.TryCas? ==> pc.base == 0 || pc.els.GiveUp?)
    && (pc.SpinCas? ==> pc.seen > 0 && pc.max > 0 && pc.spin > 0)
    && ((pc.SpinLoad? || pc.Sub? || Waits(pc)) ==> pc.max > 0)
    && (pc.RecCas? ==> pc.seen < 0)
  }

  predicate Inv(s: State) {
    && Waiters(s) == s.kernel + Posts(s) + Plus(-s.count)
    && s.acquired + s.kernel + Posts(s) + Plus(s.count) == s.signalled
    && s.acquired == s.reported + Unreported(s)
    && (forall t :: 0 <= t < |s.pcs| ==> PcOk(s.pcs[t]))
  }

  lemma InitInv(s: State)
    requires Init(s)
    ensures Inv(s)
  {
    SumZero(s.pcs, WaitFn());
    SumZero(s.pcs, PostFn());
    SumZero(s.pcs, BaseFn());
  }

  lemma SumsAfter(s: State, t: Tid, pc: Pc, s': State)
    requires t < |s.pcs| && s'.pcs == s.pcs[t := pc]
    ensures Waiters(s') + WaitPart(s.pcs[t]) == Waiters(s) + WaitPart(pc)
    ensures Posts(s') + PostPart(s.pcs[t]) == Posts(s) + PostPart(pc)
    ensures Unreported(s') + BasePart(s.pcs[t]) == Unreported(s) + BasePart(pc)
    ensures Signals(s') + AddPart(s.pcs[t]) == Signals(s) + AddPart(pc)
  {
    SumUpdate(s.pcs, t, pc, WaitFn());
    SumUpdate(s.pcs, t, pc, PostFn());
    SumUpdate(s.pcs, t, pc, BaseFn());
    SumUpdate(s.pcs, t, pc, AddFn());
  }

  lemma StepInv(s: State, t: Tid, a: Action)
    requires Inv(s) && Enabled(s, t, a)
    ensures Inv(Step(s, t, a))
  {
    var pc := s.pcs[t];
    if !a.Go? || pc.TryLoad? || pc.TryCas? || pc.SpinLoad? || pc.SpinCas? {
      FastInv(s, t, a);
    } else if pc.SigAdd? || pc.SigPost? {
      SignalInv(s, t, a.fails);
    } else if pc.Sub? || pc.Sleep? {
      SleepInv(s, t, a.fails);
    } else {
      RecoveryInv(s, t, a.fails);
    }
  }

  /** Starting a call, and the paths that take permits straight from the count. */
  lemma FastInv(s: State, t: Tid, a: Action)
    requires Inv(s) && Enabled(s, t, a)
    requires a.Go? ==> s.pcs[t].TryLoad? || s.pcs[t].TryCas? || s.pcs[t].SpinLoad? || s.pcs[t].SpinCas?
    ensures Inv(Step(s, t, a))
  {
    hide Waiters, Posts, Unreported, Signals;
    var s' := Step(s, t, a);
    assert PcOk(s.pcs[t]);
    SumsAfter(s, t, s'.pcs[t], s');
  }

  /** Going to sleep and being woken. */
  lemma SleepInv(s: State, t: Tid, fails: bool)
    requires Inv(s) && Enabled(s, t, Go(fails)) && (s.pcs[t].Sub? || s.pcs[t].Sleep?)
    ensures Inv(Exec(s, t, fails))
  {
    hide Waiters, Posts, Unreported, Signals;
    var s' := Exec(s, t, fails);
    assert PcOk(s.pcs[t]);
    SumsAfter(s, t, s'.pcs[t], s');
  }

  /** The recovery loop: take a kernel permit, or give the decrement back. */
  lemma RecoveryInv(s: State, t: Tid, fails: bool)
    requires Inv(s) && Enabled(s, t, Go(fails)) && Waits(s.pcs[t]) && !s.pcs[t].Sleep?
    ensures Inv(Exec(s, t, fails))
  {
    hide Waiters, Posts, Unreported, Signals;
    var s' := Exec(s, t, fails);
    assert PcOk(s.pcs[t]);
    SumsAfter(s, t, s'.pcs[t], s');
  }

  lemma SignalInv(s: State, t: Tid, fails: bool)
    requires Inv(s) && Enabled(s, t, Go(fails)) && (s.pcs[t].SigAdd? || s.pcs[t].SigPost?)
    ensures Inv(Exec(s, t, fails))
  {
    hide Waiters, Posts, Unreported, Signals;
    var s' := Exec(s, t, fails);
    SumsAfter(s, t, s'.pcs[t], s');
  }

  // ---- every run ----

  /** Some thread makes a step. */
  ghost predicate Next(s: State, s': State) {
    exists t: Tid, a: Action :: Enabled(s, t, a) && s' == Step(s, t, a)
  }

  /** Some run of some number of threads leads to `s`. */
  ghost predicate Reachable(s: State) {
    Runs.Reachable<State>(Init, Next, s)
  }

  /** Every step of every thread keeps the invariant, so it holds whatever run led to a state. */
  lemma ReachableInv(s: State)
    requires Reachable(s)
    ensures Inv(s)
  {
    forall a: State | Init(a) ensures Inv(a) {
      InitInv(a);
    }
    forall a: State, b: State | Inv(a) && Next(a, b) ensures Inv(b) {
      var t: Tid, x: Action :| Enabled(a, t, x) && b == Step(a, t, x);
      StepInv(a, t, x);
    }
    Runs.Invariant<State>(Init, Next, Inv, s);
  }

  /** Permits are neither invented nor lost: those signalled (with the initial ones) are acquired,
      in the kernel, about to be posted, or in a positive count; and callers have been told of all
      those acquired, but for the first permit of a bulk wait that is still trying for more. */
  lemma PermitsConserved(s: State)
    requires Reachable(s)
    ensures s.acquired + s.kernel + Posts(s) + Plus(s.count) == s.signalled
    ensures s.acquired == s.reported + Unreported(s)
    ensures (forall t :: 0 <= t < |s.pcs| ==> s.pcs[t].Idle?) ==> s.reported + s.count == s.signalled && s.kernel == 0
  {
    ReachableInv(s);
    if forall t :: 0 <= t < |s.pcs| ==> s.pcs[t].Idle? {
      SumZero(s.pcs, WaitFn());
      SumZero(s.pcs, PostFn());
      SumZero(s.pcs, BaseFn());
    }
  }

  /** Everyone who waits is accounted for by a kernel permit, a pending post or a negative count; so
      once the count is back at zero, every waiting thread has a permit to come. */
  lemma WaitersServed(s: State)
    requires Reachable(s)
    ensures Waiters(s) == s.kernel + Posts(s) + Plus(-s.count)
    ensures s.count >= 0 && Waiters(s) > 0 ==>
      s.kernel > 0 || exists t :: 0 <= t < |s.pcs| && s.pcs[t].SigPost? && s.pcs[t].k > 0
  {
    ReachableInv(s);
    if s.count >= 0 && Waiters(s) > 0 && s.kernel == 0 {
      var t := SumWitness(s.pcs, PostFn());
      assert s.pcs[t].SigPost? && s.pcs[t].k > 0;
    }
  }

  predicate IsWait(pc: Pc) { !pc.Idle? && !pc.SigAdd? && !pc.SigPost? }

  /** The most permits that a call may still return. */
  function Goal(pc: Pc): nat
    requires IsWait(pc)
  {
    if pc.TryLoad? || pc.TryCas? then pc.base + pc.max else pc.max
  }

  /** A wait returns exactly the permits it has acquired, and no more than it was asked for. */
  lemma ReturnsWhatItAcquired(s: State, t: Tid, fails: bool)
    requires Reachable(s) && Enabled(s, t, Go(fails)) && IsWait(s.pcs[t])
    ensures var s' := Exec(s, t, fails);
            var has := BasePart(s.pcs[t]) + (s'.acquired - s.acquired);
            if s'.pcs[t].Idle? then s'.pcs[t].result == has <= Goal(s.pcs[t])
            else IsWait(s'.pcs[t]) && Goal(s'.pcs[t]) == Goal(s.pcs[t]) && BasePart(s'.pcs[t]) == has
  {
    hide Waiters, Posts, Unreported, Signals;
    ReachableInv(s);
    assert PcOk(s.pcs[t]);
  }

  /** A waiting thread returns without a permit only by giving its decrement back: the count goes
      up by one, there is one waiter less, and no permit moves. */
  lemma FalseReturnUndoes(s: State, t: Tid, fails: bool)
    requires Reachable(s) && Enabled(s, t, Go(fails)) && Waits(s.pcs[t])
    requires Exec(s, t, fails).pcs[t] == Idle(0)
    ensures var s' := Exec(s, t, fails);
            && s.count < 0 && s'.count == s.count + 1 && Waiters(s') == Waiters(s) - 1
            && s'.kernel == s.kernel && s'.acquired == s.acquired && Posts(s') == Posts(s)
  {
    hide Waiters, Posts, Unreported, Signals;
    ReachableInv(s);
    var s' := Exec(s, t, fails);
    assert PcOk(s.pcs[t]);
    SumsAfter(s, t, s'.pcs[t], s');
  }

  /** Run undisturbed, `tryWaitMany` takes as many permits as there are, up to `max`. */
  lemma UndisturbedTry(s: State, t: Tid, max: nat)
    requires t < |s.pcs| && s.pcs[t] == TryLoad(max, GiveUp, 0)
    ensures var s1 := Exec(s, t, false);
            var s' := if s1.pcs[t].Idle? then s1 else Exec(s1, t, false);
            && s'.pcs[t] == Idle(Taken(s.count, max)) && s'.count == s.count - Taken(s.count, max)
            && s'.reported == s.reported + Taken(s.count, max)
            && Taken(s.count, max) == if s.count <= 0 then 0 else if s.count < max then s.count else max
  {
    var s1 := Exec(s, t, false);
    if s.count > 0 {
      assert s1.pcs[t] == TryCas(max, GiveUp, 0, s.count);
    }
  }

  // ---- a wait waits ----

  /** The thread is in `wait` or `waitMany` for up to `max` permits, and has not decremented the count yet. */
  predicate Before(pc: Pc, max: nat, timeout: Timeout) {
    || ((pc.TryLoad? || pc.TryCas?) && pc.els == ThenWait(timeout) && pc.base == 0 && pc.max == max > 0)
    || ((pc.SpinLoad? || pc.SpinCas? || pc.Sub?) && pc.max == max > 0 && pc.timeout == timeout)
  }

  /** It has decremented the count, found nothing, and neither been served nor given up. */
  predicate Recovering(pc: Pc, max: nat) { (pc.RecLoad? || pc.RecTry? || pc.RecCas?) && pc.max == max > 0 }

  predicate Asleep(pc: Pc, max: nat, timeout: Timeout) { pc == Sleep(max, timeout) && max > 0 && !timeout.Poll? }

  /** It has its first permit and tries for more. */
  predicate TakingRest(pc: Pc, max: nat) { (pc.TryLoad? || pc.TryCas?) && pc.els.GiveUp? && pc.base == 1 && pc.max + 1 == max }

  /** What a step can make of a wait. Before it has decremented the count it returns only with permits;
      it backs out only after its kernel wait has failed, or, if it polls, after its decrement found no
      permit. */
  predicate Course(count: int, pc: Pc, pc': Pc, max: nat, timeout: Timeout) {
    && (Before(pc, max, timeout) ==>
          || Before(pc', max, timeout) || Asleep(pc', max, timeout) || TakingRest(pc', max)
          || (pc'.Idle? && 0 < pc'.result <= max)
          || (timeout.Poll? && pc.Sub? && count <= 0 && Recovering(pc', max)))
    && (Asleep(pc, max, timeout) ==>
          Asleep(pc', max, timeout) || (pc'.RecLoad? && Recovering(pc', max)) || TakingRest(pc', max) || pc' == Idle(1))
    && (Recovering(pc, max) ==> Recovering(pc', max) || TakingRest(pc', max) || pc' == Idle(1) || (pc' == Idle(0) && count < 0))
    && (TakingRest(pc, max) ==> TakingRest(pc', max) || (pc'.Idle? && 0 < pc'.result <= max))
  }

  lemma WaitStep(s: State, t: Tid, fails: bool, max: nat, timeout: Timeout)
    requires Enabled(s, t, Go(fails)) && PcOk(s.pcs[t])
    ensures Course(s.count, s.pcs[t], Exec(s, t, fails).pcs[t], max, timeout)
  {
  }

  lemma WaitCourse(s: State, s': State, t: Tid, max: nat, timeout: Timeout)
    requires Inv(s) && Moves(s, s') && t < |s.pcs| && !s.pcs[t].Idle?
    ensures |s'.pcs| == |s.pcs| && Course(s.count, s.pcs[t], s'.pcs[t], max, timeout)
  {
    hide Waiters, Posts, Unreported, Signals, Course, Exec, Step;
    assert PcOk(s.pcs[t]);
    if s' != s {
      var u: Tid, a: Action :| Enabled(s, u, a) && s' == Step(s, u, a);
      StepMoves(s, u, a, t);
      if u == t {
        WaitStep(s, t, a.fails, max, timeout);
      } else {
        Unmoved(s.count, s.pcs[t], max, timeout);
      }
    } else {
      Unmoved(s.count, s.pcs[t], max, timeout);
    }
  }

  /** A try only tries. */
  lemma TryStays(s: State, t: Tid, fails: bool)
    requires Enabled(s, t, Go(fails)) && (s.pcs[t].TryLoad? || s.pcs[t].TryCas?) && s.pcs[t].els.GiveUp?
    ensures var pc := Exec(s, t, fails).pcs[t]; pc.Idle? || ((pc.TryLoad? || pc.TryCas?) && pc.els.GiveUp?)
  {
  }

  lemma Unmoved(count: int, pc: Pc, max: nat, timeout: Timeout)
    ensures Course(count, pc, pc, max, timeout) || pc.Idle?
  {
  }

  /** A step moves only the thread that makes it, and one that is in a call only by its own instruction. */
  lemma StepMoves(s: State, u: Tid, a: Action, t: Tid)
    requires Enabled(s, u, a) && t < |s.pcs| && !s.pcs[t].Idle?
    ensures |Step(s, u, a).pcs| == |s.pcs|
    ensures if u == t then a.Go? && Step(s, u, a) == Exec(s, t, a.fails) else Step(s, u, a).pcs[t] == s.pcs[t]
  {
  }

  /** Some thread makes a step, or none does. */
  ghost predicate Moves(s: State, s': State) { Next(s, s') || s' == s }

  /** From state `i` on, thread `t` is in one call that waits for up to `max` permits; in state `j` it has
      returned. */
  ghost predicate WaitCall(run: seq<State>, t: Tid, i: nat, j: nat, max: nat, timeout: Timeout) {
    && i < j < |run| && (forall k :: i <= k <= j ==> t < |run[k].pcs|)
    && max > 0 && run[i].pcs[t] == TryLoad(max, ThenWait(timeout), 0)
    && (forall k :: i <= k < j ==> !run[k].pcs[t].Idle?) && run[j].pcs[t].Idle?
  }

  /** Between states `i` and `j` the thread's own kernel wait failed. */
  ghost predicate KernelWaitFailed(run: seq<State>, t: Tid, i: nat, j: nat)
    requires j < |run| && forall k :: i <= k <= j ==> t < |run[k].pcs|
  {
    exists k :: i <= k < j && run[k].pcs[t].Sleep? && run[k + 1].pcs[t].RecLoad?
  }

  /** Between states `i` and `j` the thread's decrement found no permit. */
  ghost predicate FoundNone(run: seq<State>, t: Tid, i: nat, j: nat)
    requires j < |run| && forall k :: i <= k <= j ==> t < |run[k].pcs|
  {
    exists k :: i <= k < j && run[k].pcs[t].Sub? && run[k].count <= 0
  }

  /** Why the call may return nothing. */
  ghost predicate Excused(run: seq<State>, t: Tid, i: nat, j: nat, timeout: Timeout)
    requires j < |run| && forall k :: i <= k <= j ==> t < |run[k].pcs|
  {
    if timeout.Poll? then FoundNone(run, t, i, j) else KernelWaitFailed(run, t, i, j)
  }

  /** A wait returns without a permit only if its own kernel wait failed - with a timeout, by timing out;
      without one, because the kernel reported an error - or, if it was only to poll, if its decrement
      found none. */
  lemma ZeroOnlyIfExcused(run: seq<State>, t: Tid, i: nat, j: nat, max: nat, timeout: Timeout)
    requires Runs.IsRun(Moves, run) && Inv(run[0]) && WaitCall(run, t, i, j, max, timeout)
    ensures run[j].pcs[t].result <= max
    ensures run[j].pcs[t].result == 0 ==> Excused(run, t, i, j, timeout)
  {
    hide Inv, Moves, Excused;
    AllInv(run, j - 1);
    WaitSoFar(run, t, i, j, j - 1, max, timeout);
    assert Moves(run[j - 1], run[j]);
    WaitCourse(run[j - 1], run[j], t, max, timeout);
    ExcusedLater(run, t, i, j - 1, j, timeout);
  }

  lemma AllInv(run: seq<State>, k: nat)
    requires Runs.IsRun(Moves, run) && Inv(run[0]) && k < |run|
    ensures Inv(run[k])
  {
    hide Inv;
    forall a: State, b: State | Inv(a) && Moves(a, b) ensures Inv(b) {
      if a != b {
        var t: Tid, x: Action :| Enabled(a, t, x) && b == Step(a, t, x);
        StepInv(a, t, x);
      }
    }
    Runs.RunKeeps(Moves, Inv, run, k);
  }

  lemma {:induction false} WaitSoFar(run: seq<State>, t: Tid, i: nat, j: nat, k: nat, max: nat, timeout: Timeout)
    requires Runs.IsRun(Moves, run) && Inv(run[0]) && WaitCall(run, t, i, j, max, timeout) && i <= k < j
    ensures var pc := run[k].pcs[t];
            || Before(pc, max, timeout) || Asleep(pc, max, timeout) || TakingRest(pc, max)
            || (Recovering(pc, max) && Excused(run, t, i, k, timeout))
    decreases k
  {
    hide Inv, Moves, Excused;
    if k > i {
      WaitSoFar(run, t, i, j, k - 1, max, timeout);
      AllInv(run, k - 1);
      assert Moves(run[k - 1], run[k]);
      WaitCourse(run[k - 1], run[k], t, max, timeout);
      ExcusedLater(run, t, i, k - 1, k, timeout);
      ExcusedNow(run, t, i, k, timeout);
    }
  }

  lemma ExcusedLater(run: seq<State>, t: Tid, i: nat, j: nat, k: nat, timeout: Timeout)
    requires j <= k < |run| && forall m :: i <= m <= k ==> t < |run[m].pcs|
    ensures Excused(run, t, i, j, timeout) ==> Excused(run, t, i, k, timeout)
  {
  }

  lemma ExcusedNow(run: seq<State>, t: Tid, i: nat, k: nat, timeout: Timeout)
    requires i < k < |run| && forall m :: i <= m <= k ==> t < |run[m].pcs|
    ensures timeout.Poll? && run[k - 1].pcs[t].Sub? && run[k - 1].count <= 0 ==> Excused(run, t, i, k, timeout)
    ensures !timeout.Poll? && run[k - 1].pcs[t].Sleep? && run[k].pcs[t].RecLoad? ==> Excused(run, t, i, k, timeout)
  {
    var m := k - 1;
    assert m + 1 == k;
    assert timeout.Poll? && run[m].pcs[t].Sub? && run[m].count <= 0 ==> FoundNone(run, t, i, k);
    assert run[m].pcs[t].Sleep? && run[m + 1].pcs[t].RecLoad? ==> KernelWaitFailed(run, t, i, k);
  }

  // ---- calls that run on alone ----

  /** `k` steps of thread `t` alone, or as many as it can make before it sleeps for want of a permit. */
  function Alone(s: State, t: Tid, k: nat): State
    requires t < |s.pcs|
    decreases k
  {
    if k == 0 || !Enabled(s, t, Go(false)) then s else Alone(Exec(s, t, false), t, k - 1)
  }

  /** The permits that a count holds for somebody who wants up to `max`. */
  function Available(count: int, max: nat): nat { if count <= 0 then 0 else if count < max then count else max }

  /** The call has returned `r` permits: `fromCount` of them, or what it gave back, from the count, the rest
      from the kernel. */
  predicate Returned(s: State, s': State, t: Tid, r: nat, fromCount: int, fromKernel: nat)
    requires t < |s.pcs|
  {
    && s'.pcs == s.pcs[t := Idle(r)] && s'.count == s.count - fromCount && s'.kernel + fromKernel == s.kernel
    && s'.reported == s.reported + r && s'.signalled == s.signalled
  }

  /** A try, or the rest of a bulk wait, that was interrupted: it takes what there is. */
  lemma ResumedTry(s: State, t: Tid)
    requires Reachable(s) && t < |s.pcs| && (s.pcs[t].TryLoad? || s.pcs[t].TryCas?) && s.pcs[t].els.GiveUp?
    ensures var got := Available(s.count, s.pcs[t].max);
            Returned(s, Alone(s, t, 3), t, s.pcs[t].base + got, got, 0)
  {
    ReachableInv(s);
    assert PcOk(s.pcs[t]);
    TryEnds(s, t, 3);
  }

  lemma TryEnds(s: State, t: Tid, k: nat)
    requires t < |s.pcs| && (s.pcs[t].TryLoad? || s.pcs[t].TryCas?) && s.pcs[t].els.GiveUp? && k >= 3
    requires s.pcs[t].TryCas? ==> s.pcs[t].seen > 0
    ensures var got := Available(s.count, s.pcs[t].max);
            Returned(s, Alone(s, t, k), t, s.pcs[t].base + got, got, 0)
  {
    var s1 := Exec(s, t, false);
    assert Alone(s, t, k) == Alone(s1, t, k - 1);
    if s1.pcs[t].Idle? {
      Settled(s1, t, k - 1);
      assert s1.pcs == s.pcs[t := s1.pcs[t]];
    } else {
      TryFresh(s1, t, k - 1);
      assert s1.pcs[t := Idle(0)] == s.pcs[t := Idle(0)];
      SamePcs(s, s1, t);
    }
  }

  lemma SamePcs(s: State, s1: State, t: Tid)
    requires t < |s.pcs| && |s1.pcs| == |s.pcs| && s1.pcs == s.pcs[t := s1.pcs[t]]
    ensures forall r :: s1.pcs[t := Idle(r)] == s.pcs[t := Idle(r)]
  {
  }

  lemma Settled(s: State, t: Tid, k: nat)
    requires t < |s.pcs| && s.pcs[t].Idle?
    ensures Alone(s, t, k) == s
  {
  }

  /** With what it has seen still true, the CAS succeeds. */
  lemma TryFresh(s: State, t: Tid, k: nat)
    requires t < |s.pcs| && s.pcs[t].TryCas? && s.pcs[t].seen == s.count > 0 && k >= 1
    ensures var got := Available(s.count, s.pcs[t].max);
            Returned(s, Alone(s, t, k), t, s.pcs[t].base + got, got, 0)
  {
    var s1 := Exec(s, t, false);
    assert Alone(s, t, k) == Alone(s1, t, k - 1);
    Settled(s1, t, k - 1);
  }

  /** The steps that a wait still makes before it decrements the count, if it finds none to take. */
  function SpinsLeft(s: State, pc: Pc): nat {
    if pc.TryLoad? || pc.TryCas? then s.maxSpins + 3 else if pc.SpinLoad? || pc.SpinCas? then pc.spin + 2 else 1
  }

  /** With permits in the count, a wait that was interrupted before it began to sleep takes as many as it
      wants and there are. */
  lemma {:induction false} ResumedWait(s: State, t: Tid, max: nat, timeout: Timeout, k: nat)
    requires t < |s.pcs| && Before(s.pcs[t], max, timeout) && PcOk(s.pcs[t]) && s.count > 0 && k >= 8
    ensures var got := Available(s.count, max); Returned(s, Alone(s, t, k), t, got, got, 0)
  {
    var s1, pc := Exec(s, t, false), s.pcs[t];
    assert Alone(s, t, k) == Alone(s1, t, k - 1);
    if s1.pcs[t].Idle? {
      Settled(s1, t, k - 1);
    } else if s1.pcs[t].TryCas? {
      TryFresh(s1, t, k - 1);
      SamePcs(s, s1, t);
    } else if pc.Sub? {
      TryEnds(s1, t, k - 1);
      SamePcs(s, s1, t);
    } else {
      Spinning(s1, t, max, timeout, k - 1);
      SamePcs(s, s1, t);
    }
  }

  /** The same from inside the spinning loop. */
  lemma Spinning(s: State, t: Tid, max: nat, timeout: Timeout, k: nat)
    requires t < |s.pcs| && Before(s.pcs[t], max, timeout) && PcOk(s.pcs[t]) && s.count > 0 && k >= 7
    requires s.pcs[t].SpinLoad? || s.pcs[t].Sub? || (s.pcs[t].SpinCas? && s.pcs[t].seen == s.count)
    ensures var got := Available(s.count, max); Returned(s, Alone(s, t, k), t, got, got, 0)
  {
    var s1 := Exec(s, t, false);
    assert Alone(s, t, k) == Alone(s1, t, k - 1);
    if s1.pcs[t].Idle? {
      Settled(s1, t, k - 1);
    } else if s1.pcs[t].TryLoad? {
      TryEnds(s1, t, k - 1);
    } else {
      var s2 := Exec(s1, t, false);
      assert Alone(s1, t, k - 1) == Alone(s2, t, k - 2);
      if s2.pcs[t].Idle? {
        Settled(s2, t, k - 2);
      } else {
        TryEnds(s2, t, k - 2);
      }
      SamePcs(s1, s2, t);
    }
    SamePcs(s, s1, t);
  }

  /** With none in the count, it spins, decrements the count, and - unless it only polls - sleeps. */
  lemma {:induction false} EmptyWaitSleeps(s: State, t: Tid, max: nat, timeout: Timeout)
    requires t < |s.pcs| && Before(s.pcs[t], max, timeout) && PcOk(s.pcs[t]) && s.count <= 0 && !timeout.Poll? && s.kernel == 0
    ensures Alone(s, t, SpinsLeft(s, s.pcs[t])) == s.(count := s.count - 1, pcs := s.pcs[t := Sleep(max, timeout)])
    decreases SpinsLeft(s, s.pcs[t])
  {
    var s1, k := Exec(s, t, false), SpinsLeft(s, s.pcs[t]);
    assert Alone(s, t, k) == Alone(s1, t, k - 1);
    if !s.pcs[t].Sub? {
      EmptyWaitSleeps(s1, t, max, timeout);
    }
  }

  /** Woken, it takes the permit it was woken for, and up to `max - 1` more as far as there are any. */
  lemma Woken(s: State, t: Tid, k: nat)
    requires t < |s.pcs| && (s.pcs[t].Sleep? || s.pcs[t].RecTry?) && s.pcs[t].max > 0 && s.kernel > 0 && k >= 4
    ensures var more := Available(s.count, s.pcs[t].max - 1);
            Returned(s, Alone(s, t, k), t, 1 + more, more, 1)
  {
    var s1 := Exec(s, t, false);
    assert Alone(s, t, k) == Alone(s1, t, k - 1);
    if s1.pcs[t].Idle? {
      Settled(s1, t, k - 1);
    } else {
      TryEnds(s1, t, k - 1);
      SamePcs(s, s1, t);
    }
  }

  /** Backing out on its own, with no permit to come, it gives its decrement back and returns nothing. */
  lemma BacksOut(s: State, t: Tid, k: nat)
    requires t < |s.pcs| && (s.pcs[t].RecLoad? || s.pcs[t].RecTry? || s.pcs[t].RecCas?) && PcOk(s.pcs[t])
    requires s.count < 0 && s.kernel == 0 && k >= 4
    ensures Returned(s, Alone(s, t, k), t, 0, -1, 0)
  {
    var s1 := Exec(s, t, false);
    assert Alone(s, t, k) == Alone(s1, t, k - 1);
    if s1.pcs[t].Idle? {
      Settled(s1, t, k - 1);
    } else {
      var s2 := Exec(s1, t, false);
      assert Alone(s1, t, k - 1) == Alone(s2, t, k - 2);
      if s2.pcs[t].Idle? {
        Settled(s2, t, k - 2);
      } else {
        var s3 := Exec(s2, t, false);
        assert Alone(s2, t, k - 2) == Alone(s3, t, k - 3);
        Settled(s3, t, k - 3);
        SamePcs(s2, s3, t);
      }
      SamePcs(s1, s2, t);
    }
    SamePcs(s, s1, t);
  }

  /** A signal that runs on alone adds its permits to the count, and posts one to the kernel for each
      thread that it finds waiting, as far as they go. */
  lemma ResumedSignal(s: State, t: Tid, n: nat, k: nat)
    requires t < |s.pcs| && s.pcs[t] == SigAdd(n) && k >= 2
    ensures var s' := Alone(s, t, k);
            && s'.pcs == s.pcs[t := Idle(0)] && s'.count == s.count + n && s'.signalled == s.signalled + n
            && s'.kernel == s.kernel + Available(-s.count, n)
            && s'.acquired == s.acquired && s'.reported == s.reported
  {
    var s1 := Exec(s, t, false);
    assert Alone(s, t, k) == Alone(s1, t, k - 1);
    if s1.pcs[t].Idle? {
      Settled(s1, t, k - 1);
    } else {
      var s2 := Exec(s1, t, false);
      assert Alone(s1, t, k - 1) == Alone(s2, t, k - 2);
      Settled(s2, t, k - 2);
      SamePcs(s1, s2, t);
    }
    SamePcs(s, s1, t);
  }
}
