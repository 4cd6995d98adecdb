/** The blocking queue: enqueue into the inner queue and then signal; wait and then retry the inner
    dequeue until every permit has become an element. The inner queue is a bag whose enqueue may
    fail and whose dequeue may come back short for no reason; the semaphore is `Semaphore`. */
module BlockingQueue {
  import Runs
  import opened Sums
  import S = Semaphore

  type Tid = nat

  /** Per thread: `owed` permits for which it has no element yet, and `unsent` elements that it has
      put into the queue but not signalled yet. `entered` and `left` are auxiliary. */
  datatype State<T> = State(sem: S.State, items: multiset<T>, owed: seq<nat>, unsent: seq<nat>,
                            entered: multiset<T>, left: multiset<T>)

  datatype Action<T> =
    | Enqueue(xs: multiset<T>)            // inner.enqueue / enqueue_bulk succeeded; a failure changes nothing
    | Signal                              // sema->signal(count) starts
    | Try(max: nat)                       // sema->tryWait / tryWaitMany starts
    | Wait(max: nat, timeout: S.Timeout)  // sema->wait / waitMany starts
    | SemGo(fails: bool)                  // a step inside the semaphore
    | Dequeue(got: multiset<T>)           // one inner try_dequeue(_bulk), possibly empty-handed

  /** Between calls: the thread owes nobody anything. */
  predicate Free<T>(s: State<T>, t: Tid)
    requires t < |s.sem.pcs| == |s.owed| == |s.unsent|
  {
    s.sem.pcs[t].Idle? && s.owed[t] == 0 && s.unsent[t] == 0
  }

  predicate Shape<T>(s: State<T>) { |s.sem.pcs| == |s.owed| == |s.unsent| }

  predicate Enabled<T>(s: State<T>, t: Tid, a: Action<T>) {
    && Shape(s) && t < |s.owed|
    && match a
       case Enqueue(_) => Free(s, t)
       case Signal => s.unsent[t] > 0 && s.sem.pcs[t].Idle?
       case Try(_) => Free(s, t)
       case Wait(_, _) => Free(s, t)
       case SemGo(fails) => S.Enabled(s.sem, t, S.Go(fails))
       case Dequeue(got) => s.sem.pcs[t].Idle? && |got| <= s.owed[t] && got <= s.items
  }

  function Step<T>(s: State<T>, t: Tid, a: Action<T>): State<T>
    requires Enabled(s, t, a)
  {
    match a
    case Enqueue(xs) => s.(items := s.items + xs, entered := s.entered + xs, unsent := s.unsent[t := |xs|])
    case Signal => s.(sem := S.Step(s.sem, t, S.BeginSignal(s.unsent[t])), unsent := s.unsent[t := 0])
    case Try(max) => s.(sem := S.Step(s.sem, t, S.BeginTry(max)))
    case Wait(max, timeout) => s.(sem := S.Step(s.sem, t, S.BeginWait(max, timeout)))
    case SemGo(fails) => Admit(s, t, S.Exec(s.sem, t, fails))
    case Dequeue(got) => s.(items := s.items - got, left := s.left + got, owed := s.owed[t := s.owed[t] - |got|])
  }

  /** When a wait returns, its result is what the retry loop must deliver. */
  function Admit<T>(s: State<T>, t: Tid, sem: S.State): State<T>
    requires t < |s.owed| && t < |sem.pcs|
  {
    s.(sem := sem, owed := s.owed[t := s.owed[t] + if sem.pcs[t].Idle? then sem.pcs[t].result else 0])
  }

  predicate Init<T>(s: State<T>) {
    && Shape(s) && S.Init(s.sem) && s.sem.count == 0
    && s.items == s.entered == s.left == multiset{}
    && (forall t :: 0 <= t < |s.owed| ==> s.owed[t] == 0)
    && (forall t :: 0 <= t < |s.unsent| ==> s.unsent[t] == 0)
  }

  function Id(): nat -> nat { (x: nat) => x }

  /** Permits that consumers hold inside their retry loops; elements not signalled yet. */
  function Owed<T>(s: State<T>): nat { Sum(s.owed, Id()) }
  function Unsent<T>(s: State<T>): nat { Sum(s.unsent, Id()) }

  predicate Inv<T>(s: State<T>) {
    && Shape(s) && S.Inv(s.sem)
    && s.entered == s.items + s.left
    && |s.entered| == s.sem.signalled + S.Signals(s.sem) + Unsent(s)
    && s.sem.reported == |s.left| + Owed(s)
  }

  lemma InitInv<T>(s: State<T>)
    requires Init(s)
    ensures Inv(s)
  {
    S.InitInv(s.sem);
    SumZero<nat>(s.owed, Id());
    SumZero<nat>(s.unsent, Id());
    SumZero(s.sem.pcs, S.AddFn());
  }

  lemma StepInv<T>(s: State<T>, t: Tid, a: Action<T>)
    requires Inv(s) && Enabled(s, t, a)
    ensures Inv(Step(s, t, a))
  {
    var s' := Step(s, t, a);
    match a
    case Enqueue(xs) =>
      SumUpdate<nat>(s.unsent, t, |xs|, Id());
    case Signal =>
      S.StepInv(s.sem, t, S.BeginSignal(s.unsent[t]));
      S.SumsAfter(s.sem, t, s'.sem.pcs[t], s'.sem);
      SumUpdate<nat>(s.unsent, t, 0, Id());
    case Try(max) =>
      S.StepInv(s.sem, t, S.BeginTry(max));
      S.SumsAfter(s.sem, t, s'.sem.pcs[t], s'.sem);
    case Wait(max, timeout) =>
      S.StepInv(s.sem, t, S.BeginWait(max, timeout));
      S.SumsAfter(s.sem, t, s'.sem.pcs[t], s'.sem);
    case SemGo(fails) =>
      SemInv(s, t, fails);
    case Dequeue(got) =>
      SumUpdate<nat>(s.owed, t, s.owed[t] - |got|, Id());
      assert s.items == (s.items - got) + got;
      assert |s.left + got| == |s.left| + |got|;
  }

  lemma SemInv<T>(s: State<T>, t: Tid, fails: bool)
    requires Inv(s) && Enabled(s, t, SemGo(fails))
    ensures Inv(Step(s, t, SemGo(fails)))
  {
    var sem := S.Exec(s.sem, t, fails);
    S.StepInv(s.sem, t, S.Go(fails));
    SemReports(s.sem, t, fails);
    AdmitInv(s, t, sem);
  }

  lemma AdmitInv<T>(s: State<T>, t: Tid, sem: S.State)
    requires Inv(s) && t < |s.owed| && S.Inv(sem) && |sem.pcs| == |s.sem.pcs| && sem.pcs == s.sem.pcs[t := sem.pcs[t]]
    requires sem.signalled + S.AddPart(sem.pcs[t]) == s.sem.signalled + S.AddPart(s.sem.pcs[t])
    requires sem.reported == s.sem.reported + (if sem.pcs[t].Idle? then sem.pcs[t].result else 0)
    ensures Inv(Admit(s, t, sem))
  {
    S.SumsAfter(s.sem, t, sem.pcs[t], sem);
    SumUpdate<nat>(s.owed, t, s.owed[t] + (if sem.pcs[t].Idle? then sem.pcs[t].result else 0), Id());
  }

  /** What a semaphore step signals and reports. */
  lemma SemReports(sem: S.State, t: Tid, fails: bool)
    requires S.Enabled(sem, t, S.Go(fails))
    ensures var sem' := S.Exec(sem, t, fails);
            && t < |sem'.pcs| == |sem.pcs| && sem'.pcs == sem.pcs[t := sem'.pcs[t]]
            && sem'.signalled + S.AddPart(sem'.pcs[t]) == sem.signalled + S.AddPart(sem.pcs[t])
            && sem'.reported == sem.reported + (if sem'.pcs[t].Idle? then sem'.pcs[t].result else 0)
  {
  }

  // ---- every run ----

  /** Some thread makes a step. */
  ghost predicate Next<T(!new)>(s: State<T>, s': State<T>) {
    exists t: Tid, a: Action<T> :: Enabled(s, t, a) && s' == Step(s, t, a)
  }

  /** Some run of some number of threads, from an empty queue, leads to `s`. */
  ghost predicate Reachable<T(!new)>(s: State<T>) {
    Runs.Reachable<State<T>>(Init, Next, s)
  }

  /** Every step of every thread keeps the invariant, so it holds whatever run led to a state. */
  lemma ReachableInv<T(!new)>(s: State<T>)
    requires Reachable(s)
    ensures Inv(s)
  {
    forall a: State<T> | Init(a) ensures Inv(a) {
      InitInv(a);
    }
    forall a: State<T>, b: State<T> | Inv(a) && Next(a, b) ensures Inv(b) {
      var t: Tid, x: Action<T> :| Enabled(a, t, x) && b == Step(a, t, x);
      StepInv(a, t, x);
    }
    Runs.Invariant<State<T>>(Init, Next, Inv, s);
  }

  /** In every reachable state: every element in the queue is backed by exactly one of a permit in
      the count or the kernel, a pending post, a permit of an unfinished wait or retry loop, or a
      signal still to come. */
  lemma ElementsMatchPermits<T(!new)>(s: State<T>)
    requires Reachable(s)
    ensures |s.items| == S.Plus(s.sem.count) + s.sem.kernel + S.Posts(s.sem) + S.Unreported(s.sem)
                         + Owed(s) + Unsent(s) + S.Signals(s.sem)
    ensures s.entered == s.items + s.left
  {
    ReachableInv(s);
    assert |s.entered| == |s.items| + |s.left|;
  }

  /** A consumer that passed the semaphore always has an element left to find: the queue holds at
      least as many elements as all retry loops together still have to deliver. */
  lemma RetryFinds<T(!new)>(s: State<T>, t: Tid)
    requires Reachable(s) && t < |s.owed|
    ensures Shape(s)
    ensures s.owed[t] <= Owed(s) <= |s.items|
    ensures s.owed[t] > 0 && s.sem.pcs[t].Idle? ==> exists x :: x in s.items && Enabled(s, t, Dequeue(multiset{x}))
  {
    ElementsMatchPermits(s);
    ReachableInv(s);
    SumAtLeast<nat>(s.owed, t, Id());
    if s.owed[t] > 0 && s.sem.pcs[t].Idle? {
      var x :| x in s.items;
      assert Enabled(s, t, Dequeue(multiset{x}));
    }
  }

  /** The thread has finished its call, or waits for a permit. */
  predicate Resting<T>(s: State<T>, t: Tid)
    requires Shape(s) && t < |s.owed|
  {
    s.owed[t] == 0 && s.unsent[t] == 0 && (s.sem.pcs[t].Idle? || S.Waits(s.sem.pcs[t]))
  }

  /** A sleeping consumer is not overlooked: if somebody waits and no permit is on its way, then
      every element in the queue is already being fetched or about to be signalled; and if the
      other calls have finished or wait too, the queue is empty. */
  lemma SleepOnlyWhenEmpty<T(!new)>(s: State<T>)
    requires Reachable(s)
    requires S.Waiters(s.sem) > 0 && s.sem.kernel == 0 && S.Posts(s.sem) == 0
    ensures |s.items| == S.Unreported(s.sem) + Owed(s) + Unsent(s) + S.Signals(s.sem)
    ensures Shape(s)
    ensures (forall t :: 0 <= t < |s.owed| ==> Resting(s, t)) ==> s.items == multiset{}
  {
    ElementsMatchPermits(s);
    ReachableInv(s);
    if forall t :: 0 <= t < |s.owed| ==> Resting(s, t) {
      forall t | 0 <= t < |s.owed| ensures s.owed[t] == 0 && s.unsent[t] == 0 {
        assert Resting(s, t);
      }
      SumZero<nat>(s.owed, Id());
      SumZero<nat>(s.unsent, Id());
      forall t | 0 <= t < |s.sem.pcs| ensures S.BaseFn()(s.sem.pcs[t]) == 0 && S.AddFn()(s.sem.pcs[t]) == 0 {
        assert Resting(s, t);
      }
      SumZero(s.sem.pcs, S.BaseFn());
      SumZero(s.sem.pcs, S.AddFn());
    }
  }

  // ---- what a wait delivers ----

  /** The semaphore's part of a run. */
  function Sems<T>(run: seq<State<T>>): seq<S.State> { seq(|run|, i requires 0 <= i < |run| => run[i].sem) }

  /** A step of the queue is a step of its semaphore, or none; and of thread `t`'s debt only its own steps
      change anything: it grows by what a wait returns. */
  lemma StepParts<T(!new)>(s: State<T>, s': State<T>, t: Tid)
    requires Next(s, s') && Shape(s) && t < |s.owed| && !s.sem.pcs[t].Idle?
    ensures S.Moves(s.sem, s'.sem) && Shape(s') && |s'.owed| == |s.owed|
    ensures s'.owed[t] == s.owed[t] + if s'.sem.pcs[t].Idle? then s'.sem.pcs[t].result else 0
  {
    hide S.Exec;
    var u: Tid, a: Action<T> :| Enabled(s, u, a) && s' == Step(s, u, a);
    OneStep(s, u, a, t);
  }

  lemma OneStep<T>(s: State<T>, u: Tid, a: Action<T>, t: Tid)
    requires Enabled(s, u, a) && t < |s.owed| && !s.sem.pcs[t].Idle?
    ensures var s' := Step(s, u, a);
            && S.Moves(s.sem, s'.sem) && Shape(s') && |s'.owed| == |s.owed|
            && s'.owed[t] == s.owed[t] + if s'.sem.pcs[t].Idle? then s'.sem.pcs[t].result else 0
  {
    var s' := Step(s, u, a);
    match a
    case Enqueue(_) =>
    case Signal => SemMoves(s.sem, u, S.BeginSignal(s.unsent[u]), t);
    case Try(max) => SemMoves(s.sem, u, S.BeginTry(max), t);
    case Wait(max, timeout) => SemMoves(s.sem, u, S.BeginWait(max, timeout), t);
    case SemGo(fails) => SemMoves(s.sem, u, S.Go(fails), t);
    case Dequeue(_) =>
  }

  lemma SemMoves(sem: S.State, u: Tid, a: S.Action, t: Tid)
    requires S.Enabled(sem, u, a) && t < |sem.pcs| && !sem.pcs[t].Idle?
    ensures S.Moves(sem, S.Step(sem, u, a)) && |S.Step(sem, u, a).pcs| == |sem.pcs|
    ensures u != t ==> S.Step(sem, u, a).pcs[t] == sem.pcs[t]
  {
    S.StepMoves(sem, u, a, t);
  }

  /** From its first step in state `i + 1` on, thread `t` is in one wait, or one try, of the semaphore; in state
      `j` that has returned. */
  ghost predicate InSemaphore<T>(run: seq<State<T>>, t: Tid, i: nat, j: nat) {
    && i + 1 < j < |run| && (forall k :: i <= k <= j ==> Shape(run[k]) && t < |run[k].owed|)
    && (forall k :: i < k < j ==> !run[k].sem.pcs[t].Idle?) && run[j].sem.pcs[t].Idle?
  }

  /** wait_dequeue and its timed and bulk forms go on to dequeue at least one element and at most `max` - which
      `RetryFinds` says are there - unless their kernel wait failed or they only polled an empty count. */
  lemma WaitDelivers<T(!new)>(run: seq<State<T>>, t: Tid, i: nat, j: nat, max: nat, timeout: S.Timeout)
    requires Runs.IsRun(Next<T>, run) && Inv(run[0]) && InSemaphore(run, t, i, j) && max > 0
    requires Enabled(run[i], t, Wait(max, timeout)) && run[i + 1] == Step(run[i], t, Wait(max, timeout))
    ensures run[j].owed[t] <= max
    ensures run[j].owed[t] > 0 || S.Excused(Sems(run), t, i + 1, j, timeout)
  {
    hide Inv, S.Inv, S.Excused, Next, Step, S.Moves;
    var sems := Sems(run);
    Begins(run[i], t, max, timeout);
    DebtSoFar(run, t, i, j, j);
    forall k | 0 < k < |sems| ensures S.Moves(sems[k - 1], sems[k]) {
      assert Next(run[k - 1], run[k]);
      SemPart(run[k - 1], run[k]);
    }
    SemInvHolds(run[0]);
    assert forall k :: i + 1 <= k < j ==> sems[k] == run[k].sem;
    S.ZeroOnlyIfExcused(sems, t, i + 1, j, max, timeout);
  }

  lemma Begins<T>(s: State<T>, t: Tid, max: nat, timeout: S.Timeout)
    requires Enabled(s, t, Wait(max, timeout))
    ensures var s' := Step(s, t, Wait(max, timeout));
            t < |s'.sem.pcs| && s'.sem.pcs[t] == S.TryLoad(max, S.ThenWait(timeout), 0) && s'.owed == s.owed && s.owed[t] == 0
  {
  }

  lemma SemInvHolds<T>(s: State<T>)
    requires Inv(s)
    ensures S.Inv(s.sem)
  {
  }

  lemma SemPart<T(!new)>(s: State<T>, s': State<T>)
    requires Next(s, s')
    ensures S.Moves(s.sem, s'.sem)
  {
    var u: Tid, a: Action<T> :| Enabled(s, u, a) && s' == Step(s, u, a);
    match a
    case Enqueue(_) =>
    case Signal => assert S.Enabled(s.sem, u, S.BeginSignal(s.unsent[u]));
    case Try(max) => assert S.Enabled(s.sem, u, S.BeginTry(max));
    case Wait(max, timeout) => assert S.Enabled(s.sem, u, S.BeginWait(max, timeout));
    case SemGo(fails) => assert S.Enabled(s.sem, u, S.Go(fails));
    case Dequeue(_) =>
  }

  lemma {:induction false} DebtSoFar<T(!new)>(run: seq<State<T>>, t: Tid, i: nat, j: nat, k: nat)
    requires Runs.IsRun(Next<T>, run) && InSemaphore(run, t, i, j) && i < k <= j && run[i + 1].owed[t] == 0
    requires !run[i + 1].sem.pcs[t].Idle?
    ensures run[k].owed[t] == if run[k].sem.pcs[t].Idle? then run[k].sem.pcs[t].result else 0
    decreases k
  {
    hide Next, S.Moves;
    if k > i + 1 {
      DebtSoFar(run, t, i, j, k - 1);
      assert Next(run[k - 1], run[k]);
      StepParts(run[k - 1], run[k], t);
    }
  }

  /** try_dequeue never sleeps: inside the semaphore it only ever tries. */
  lemma {:induction false} TryNeverSleeps<T(!new)>(run: seq<State<T>>, t: Tid, i: nat, j: nat, max: nat, k: nat)
    requires Runs.IsRun(Next<T>, run) && InSemaphore(run, t, i, j) && i < k < j
    requires Enabled(run[i], t, Try(max)) && run[i + 1] == Step(run[i], t, Try(max))
    ensures !S.Waits(run[k].sem.pcs[t]) && !run[k].sem.pcs[t].Sub?
    ensures (run[k].sem.pcs[t].TryLoad? || run[k].sem.pcs[t].TryCas?) && run[k].sem.pcs[t].els.GiveUp?
    decreases k
  {
    hide Next;
    if k > i + 1 {
      TryNeverSleeps(run, t, i, j, max, k - 1);
      assert Next(run[k - 1], run[k]);
      StillTrying(run[k - 1], run[k], t);
    }
  }

  lemma StillTrying<T(!new)>(s: State<T>, s': State<T>, t: Tid)
    requires Next(s, s') && Shape(s) && t < |s.owed| && Shape(s') && t < |s'.owed| && !s'.sem.pcs[t].Idle?
    requires (s.sem.pcs[t].TryLoad? || s.sem.pcs[t].TryCas?) && s.sem.pcs[t].els.GiveUp?
    ensures (s'.sem.pcs[t].TryLoad? || s'.sem.pcs[t].TryCas?) && s'.sem.pcs[t].els.GiveUp?
  {
    hide S.Exec, Step;
    var u: Tid, a: Action<T> :| Enabled(s, u, a) && s' == Step(s, u, a);
    PcAfter(s, u, a, t);
    if u == t {
      S.TryStays(s.sem, t, a.fails);
    }
  }

  /** What a step does to what a thread in the semaphore does next. */
  lemma PcAfter<T>(s: State<T>, u: Tid, a: Action<T>, t: Tid)
    requires Enabled(s, u, a) && t < |s.owed| && !s.sem.pcs[t].Idle? && !s.sem.pcs[t].SigAdd?
    ensures Shape(Step(s, u, a)) && |Step(s, u, a).owed| == |s.owed|
    ensures if u == t then a.SemGo? && Step(s, u, a).sem.pcs[t] == S.Exec(s.sem, t, a.fails).pcs[t]
            else Step(s, u, a).sem.pcs[t] == s.sem.pcs[t]
  {
    match a
    case Enqueue(_) =>
    case Signal => SemMoves(s.sem, u, S.BeginSignal(s.unsent[u]), t);
    case Try(max) => SemMoves(s.sem, u, S.BeginTry(max), t);
    case Wait(max, timeout) => SemMoves(s.sem, u, S.BeginWait(max, timeout), t);
    case SemGo(fails) => SemMoves(s.sem, u, S.Go(fails), t);
    case Dequeue(_) =>
  }
}
