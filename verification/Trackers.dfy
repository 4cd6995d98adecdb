/** Catch2's section trackers: the test body is run again and again, each run entering the next leaf
    section, until the test case's tracker is complete. */
module Trackers {
  import opened Sections

  // ---- what the tracker operations do to the states ----

  ghost predicate Rooted(p: Path, st: States) { forall n :: 0 <= n <= |p| ==> p[..n] in st }

  /** openChild: mark `p` and its ancestors, up to one that is marked already. */
  ghost function Opening(st: States, p: Path): States
    requires Rooted(p, st)
    decreases |p|
  {
    assert p[..|p|] == p;
    if st[p].ExecutingChildren? then st
    else if p == [] then st[p := ExecutingChildren]
    else
      RootedParent(p, st);
      Opening(st[p := ExecutingChildren], Parent(p))
  }

  lemma RootedParent(p: Path, st: States)
    requires p != [] && Rooted(p, st)
    ensures Rooted(Parent(p), st[p := ExecutingChildren])
  {
    forall n | 0 <= n < |p| ensures Parent(p)[..n] in st {
      assert Parent(p)[..n] == p[..n];
    }
  }

  /** Marking on the way up from `p` does not get past its ancestor of length `n`: that one, or one
      nearer to `p`, is marked already. */
  ghost predicate StopsBy(st: States, p: Path, n: nat)
    requires Rooted(p, st)
  {
    exists m :: n <= m <= |p| && st[p[..m]].ExecutingChildren?
  }

  /** So exactly the trackers below the first one already marked become marked, and nothing else changes. */
  lemma {:induction false} OpeningMarks(st: States, p: Path)
    requires Rooted(p, st)
    ensures Opening(st, p).Keys == st.Keys
    ensures forall n :: 0 <= n <= |p| ==> Opening(st, p)[p[..n]] == if StopsBy(st, p, n) then st[p[..n]] else ExecutingChildren
    ensures forall q :: q in st && !(q <= p) ==> Opening(st, p)[q] == st[q]
    decreases |p|
  {
    assert p[..|p|] == p;
    if st[p].ExecutingChildren? {
      forall n | 0 <= n <= |p| ensures StopsBy(st, p, n) {
        assert st[p[..|p|]].ExecutingChildren?;
      }
    } else if p != [] {
      var up, st' := Parent(p), st[p := ExecutingChildren];
      RootedParent(p, st);
      OpeningMarks(st', up);
      forall n | 0 <= n < |p| ensures up[..n] == p[..n] && (StopsBy(st', up, n) <==> StopsBy(st, p, n)) {
        StopsAbove(st, p, n);
      }
      assert !(p <= up);
    }
  }

  lemma StopsAbove(st: States, p: Path, n: nat)
    requires p != [] && n < |p| && Rooted(p, st) && p in st && !st[p].ExecutingChildren? && Rooted(Parent(p), st[p := ExecutingChildren])
    ensures Parent(p)[..n] == p[..n]
    ensures StopsBy(st[p := ExecutingChildren], Parent(p), n) <==> StopsBy(st, p, n)
  {
    var up, st' := Parent(p), st[p := ExecutingChildren];
    forall m | n <= m < |p| ensures up[..m] == p[..m] && st'[up[..m]] == st[p[..m]] {
      assert p[..m] != p;
    }
    if StopsBy(st', up, n) {
      var m :| n <= m <= |up| && st'[up[..m]].ExecutingChildren?;
      assert st[p[..m]].ExecutingChildren?;
    }
    if StopsBy(st, p, n) {
      var m :| n <= m <= |p| && st[p[..m]].ExecutingChildren?;
      assert p[..|p|] == p;
      assert st'[up[..m]].ExecutingChildren?;
    }
  }

  lemma RootedIn(p: Path, st: States)
    requires Rooted(p, st)
    ensures p in st
  {
    assert p[..|p|] == p;
  }

  lemma RootedAfter(p: Path, a: States, b: States)
    requires Rooted(p, a) && forall q :: q in a ==> q in b
    ensures Rooted(p, b)
  {
  }

  lemma RootedKid(p: Path, i: nat, st: States)
    requires Rooted(p, st) && p + [i] in st
    ensures Rooted(p + [i], st)
  {
    var q := p + [i];
    forall n | 0 <= n <= |q| ensures q[..n] in st {
      assert n < |q| ==> q[..n] == p[..n];
      assert q[..|q|] == q;
    }
  }

  /** close: what a tracker in state `r` becomes. */
  ghost function ClosedFrom(r: RunState, st: States, p: Path): RunState {
    if r.Executing? || (r.ExecutingChildren? && KidsComplete(st, p)) then CompletedSuccessfully else r
  }

  ghost function Closed(st: States, p: Path): RunState
    requires p in st
  {
    ClosedFrom(st[p], st, p)
  }

  /** The tracker is open (its isOpen). */
  predicate IsOpen(r: RunState) { !r.NotStarted? && !Complete(r) }

  ghost predicate AllOpen(p: Path, c: Path, st: States) {
    c in st && forall n :: |p| <= n <= |c| ==> c[..n] in st && IsOpen(st[c[..n]])
  }

  lemma OneOpen(p: Path, st: States)
    requires p in st && IsOpen(st[p])
    ensures AllOpen(p, p, st)
  {
    assert p[..|p|] == p;
  }

  /** Closing the current tracker `c` and those around it, down to `now`: each becomes complete exactly if
      it was executing, or waiting for children that are all complete by then. */
  ghost predicate ClosedDownTo(st: States, st': States, now: Path, c: Path) {
    && st'.Keys == st.Keys
    && (forall q :: q in st && now < q <= c ==> st'[q] == ClosedFrom(st[q], st', q))
    && (forall q :: q in st && !(now < q <= c) ==> st'[q] == st[q])
  }

  lemma ClosesOneMore(st: States, st': States, now: Path, c: Path)
    requires ClosedDownTo(st, st', now, c) && now != [] && now <= c && now in st
    ensures ClosedDownTo(st, st'[now := Closed(st', now)], Parent(now), c)
  {
    var st2 := st'[now := Closed(st', now)];
    forall q | q in st && now <= q <= c ensures st2[q] == ClosedFrom(st[q], st2, q) {
      assert q in st' && now in st';
      KidsElsewhere(st', now, Closed(st', now), q);
      assert st'[now] == st[now];
      if |q| == |now| {
        assert q == now;
      } else {
        assert now < q && st2[q] == st'[q];
      }
    }
    forall q | q in st && Parent(now) < q <= c ensures now <= q {
      assert q == c[..|q|] && now == c[..|now|];
    }
  }

  lemma ClosesNone(st: States, c: Path)
    ensures ClosedDownTo(st, st, c, c)
  {
  }

  lemma KeysKept(st: States, st': States, now: Path, c: Path)
    requires ClosedDownTo(st, st', now, c)
    ensures st'.Keys == st.Keys
  {
  }

  /** Only a tracker's own children matter for whether they are all complete. */
  lemma KidsElsewhere(st: States, now: Path, r: RunState, q: Path)
    requires now in st && now <= q
    ensures KidsComplete(st[now := r], q) <==> KidsComplete(st, q)
  {
  }

  ghost predicate KidsComplete(st: States, p: Path) {
    forall q :: q in st && p <= q && |q| == |p| + 1 ==> Complete(st[q])
  }

  // ---- one run of the body, step by step ----

  /** The tracker of `s` at `p` has just been mid, for its cycle `k`. */
  ghost predicate Ready(s: Section, p: Path, st: States, k: nat) {
    && WellFormed(s) && k < Cost(s) && p != []
    && Rooted(p, st) && p in st && st[p].Executing?
    && Parent(p) in st && st[Parent(p)].ExecutingChildren?
    && AfterOf(s, p, st, k)
  }

  /** The body of `s` has come to its section `i`; `done` if one before it has been entered. */
  ghost predicate Midway(s: Section, p: Path, st: States, k: nat, i: nat, done: bool) {
    && WellFormed(s) && k < Cost(s) && i <= |s.children| && p != []
    && Rooted(p, st) && p in st
    && Parent(p) in st && st[Parent(p)].ExecutingChildren?
    && AfterOf(s, p, st, if done then k + 1 else k)
    && (if done then k < Before(s.children, i) && st[p].ExecutingChildren? else Before(s.children, i) <= k && st[p].Executing?)
    && (forall j :: 0 <= j < i ==> p + [s.children[j].id] in st)
    && (done && k + 1 == Before(s.children, |s.children|) ==> Extra(s) == 0)
  }

  /** The body of `s` has come to its end. */
  ghost predicate Ran(s: Section, p: Path, st: States, k: nat, thrown: bool) {
    && p in st && AfterOf(s, p, st, k + 1)
    && if thrown then
         k + 1 < Cost(s) && Halfway(st[p]) && (st[p].ExecutingChildren? ==> !KidsComplete(st, p))
       else
         Midway(s, p, st, k, |s.children|, !st[p].Executing?)
  }

  /** A section that is passed by - complete, or too late in this run - is heard of but not opened. */
  lemma PassedBy(s: Section, p: Path, st: States, k: nat, i: nat, done: bool, st': States)
    requires Midway(s, p, st, k, i, done) && i < |s.children|
    requires done || Share(s.children, i, k) == Cost(s.children[i])
    requires var q := p + [s.children[i].id]; st' == if q in st then st else st[q := NotStarted]
    ensures Midway(s, p, st', k, i + 1, done)
    ensures var q := p + [s.children[i].id]; done ==> st'[q].NotStarted?
    ensures var q := p + [s.children[i].id]; !done ==> Complete(st'[q])
  {
    var q, k' := p + [s.children[i].id], if done then k + 1 else k;
    var c, d := s.children[i], Share(s.children, i, k');
    assert AfterKid(s, p, st, k', i);
    assert After(c, q, st, d);
    assert Parent(q) == p;
    if done {
      assert d == 0 && Fresh(q, st) && Fresh(q, st');
    } else {
      assert d == Cost(c) && q in st && st' == st;
    }
    assert After(c, q, st', d);
    KidMoved(s, p, st, st', k', k', i);
    RootedAfter(p, st, st');
  }

  /** A section with cycles left can be opened. */
  lemma Openable(c: Section, q: Path, st: States, st': States, d: nat)
    requires After(c, q, st, d) && d < Cost(c)
    requires forall x :: q <= x && x != q ==> (x in st <==> x in st') && (x in st ==> st[x] == st'[x])
    ensures AfterOf(c, q, st', d) && (q in st ==> !Complete(st[q]))
  {
    if d == 0 {
      FreshBelow(c, q, st');
    } else {
      AfterOfAgree(c, q, st, st', d);
    }
  }

  /** A section whose turn it is gets opened. */
  lemma Opened(s: Section, p: Path, st: States, k: nat, i: nat, st': States)
    requires Midway(s, p, st, k, i, false) && i < |s.children|
    requires Share(s.children, i, k) < Cost(s.children[i])
    requires var q := p + [s.children[i].id]; st' == st[q := Executing][p := ExecutingChildren]
    ensures Ready(s.children[i], p + [s.children[i].id], st', Share(s.children, i, k))
    ensures Before(s.children, i) <= k < Before(s.children, i + 1)
    ensures var q := p + [s.children[i].id]; q in st ==> !Complete(st[q])
  {
    var c, q, d := s.children[i], p + [s.children[i].id], Share(s.children, i, k);
    assert AfterKid(s, p, st, k, i);
    assert Parent(q) == p;
    RootedAfter(p, st, st');
    RootedKid(p, c.id, st');
    Openable(c, q, st, st', d);
  }

  lemma OpeningOne(st: States, p: Path)
    requires Rooted(p, st) && p in st && !st[p].ExecutingChildren?
    requires p == [] || (Parent(p) in st && st[Parent(p)].ExecutingChildren?)
    ensures Opening(st, p) == st[p := ExecutingChildren]
  {
    if p != [] {
      RootedParent(p, st);
    }
  }

  lemma LeafStarts(s: Section, p: Path, st: States, k: nat)
    requires Leaf(s) && Ready(s, p, st, k)
    ensures Visited(s, p, k + 1) == Visited(s, p, k) + [p]
  {
    assert k == 0;
  }

  lemma BodyStarts(s: Section, p: Path, st: States, k: nat)
    requires !Leaf(s) && Ready(s, p, st, k)
    ensures Midway(s, p, st, k, 0, false) && Within(p, st, st)
  {
  }

  /** The end of the body is reached without a throw. */
  lemma BodyEnds(s: Section, p: Path, st: States, k: nat, done: bool)
    requires !Leaf(s) && Midway(s, p, st, k, |s.children|, done)
    ensures Ran(s, p, st, k, false)
    ensures !done ==> Visited(s, p, k + 1) == Visited(s, p, k)
  {
    hide OnlyKids, Rooted, WellFormed, Extra, After, AfterKid;
    if !done {
      AllShares(s, p, st, k, k + 1);
      VisitedExtra(s.children, p, k, |s.children|);
    }
  }

  /** When all the sections are through, one more cycle makes no difference to them. */
  lemma AllShares(s: Section, p: Path, st: States, k: nat, k': nat)
    requires AfterOf(s, p, st, k) && Before(s.children, |s.children|) <= k <= k'
    ensures AfterOf(s, p, st, k')
  {
    forall i | 0 <= i < |s.children| ensures AfterKid(s, p, st, k', i) {
      assert AfterKid(s, p, st, k, i);
      BeforeMonotone(s.children, i + 1, |s.children|);
    }
  }

  /** What a section leaves behind when it has run and its tracker is closed. */
  ghost predicate Finished(c: Section, q: Path, before: States, after: States, d: nat, thrown: bool) {
    && q != [] && Outside(q, before, after) && After(c, q, after, d + 1)
    && Rooted(q, after) && q in after && Parent(q) in after
    && after[Parent(q)] == (if thrown && Leaf(c) then NeedsAnotherRun else ExecutingChildren)
    && (Leaf(c) ==> thrown == c.throws)
    && (thrown && !Leaf(c) ==> d + 1 < Cost(c))
  }

  /** The opened section has run, and the body of the outer one goes on. */
  lemma KidRan(s: Section, p: Path, st: States, mid: States, k: nat, i: nat, st': States)
    requires Midway(s, p, st, k, i, false) && i < |s.children|
    requires Before(s.children, i) <= k < Before(s.children, i + 1)
    requires mid == st[p + [s.children[i].id] := Executing][p := ExecutingChildren]
    requires Finished(s.children[i], p + [s.children[i].id], mid, st', Share(s.children, i, k), false)
    ensures Midway(s, p, st', k, i + 1, true)
  {
    hide OnlyKids, AfterOf, WellFormed, Outside, Rooted;
    KidAfter(s, p, st, mid, k, i, st', false);
    if k + 1 == Before(s.children, |s.children|) {
      BeforeMonotone(s.children, i + 1, |s.children|);
    }
  }

  /** The opened section has thrown, and so does the outer one. */
  lemma KidThrew(s: Section, p: Path, st: States, mid: States, k: nat, i: nat, st': States)
    requires Midway(s, p, st, k, i, false) && i < |s.children|
    requires Before(s.children, i) <= k < Before(s.children, i + 1)
    requires mid == st[p + [s.children[i].id] := Executing][p := ExecutingChildren]
    requires Finished(s.children[i], p + [s.children[i].id], mid, st', Share(s.children, i, k), true)
    ensures Ran(s, p, st', k, true)
  {
    hide OnlyKids, AfterOf, WellFormed, Outside, Rooted;
    KidAfter(s, p, st, mid, k, i, st', true);
    BeforeMonotone(s.children, i + 1, |s.children|);
  }

  lemma KidAfter(s: Section, p: Path, st: States, mid: States, k: nat, i: nat, st': States, thrown: bool)
    requires Midway(s, p, st, k, i, false) && i < |s.children|
    requires Before(s.children, i) <= k < Before(s.children, i + 1)
    requires mid == st[p + [s.children[i].id] := Executing][p := ExecutingChildren]
    requires Finished(s.children[i], p + [s.children[i].id], mid, st', Share(s.children, i, k), thrown)
    ensures AfterOf(s, p, st', k + 1) && Rooted(p, st') && Outside(p + [s.children[i].id], st, st')
    ensures Parent(p) in st' && st'[Parent(p)].ExecutingChildren?
    ensures forall j :: 0 <= j <= i ==> p + [s.children[j].id] in st'
  {
    hide OnlyKids, Before, Share, Cost, WellFormed;
    var q := p + [s.children[i].id];
    assert Parent(q) == p;
    ShareStep(s.children, i, k, i);
    assert AfterKid(s, p, st', k + 1, i);
    forall j | 0 <= j < |s.children| && j != i ensures Share(s.children, j, k + 1) == Share(s.children, j, k) {
      ShareStep(s.children, i, k, j);
    }
    KidMoved(s, p, st, st', k, k + 1, i);
    forall n | 0 <= n <= |p| ensures p[..n] in st' {
      assert p[..n] == q[..n];
    }
    forall j | 0 <= j < i ensures p + [s.children[j].id] in st' {
      var r := p + [s.children[j].id];
      if q <= r {
        assert r == q;
      }
    }
    assert |Parent(p)| < |q|;
  }

  /** Once every section has run, the tracker of the outer one is complete when it is closed; before
      that it is not. */
  lemma CloseAfter(s: Section, p: Path, st: States, k: nat, thrown: bool)
    requires !Leaf(s) && Ran(s, p, st, k, thrown) && WellFormed(s)
    ensures After(s, p, st[p := Closed(st, p)], k + 1)
    ensures Closed(st, p).CompletedSuccessfully? <==> k + 1 == Cost(s)
  {
    hide OnlyKids, AfterOf, WellFormed, Rooted, KidsComplete;
    var st' := st[p := Closed(st, p)];
    AfterOfAgree(s, p, st, st', k + 1);
    var n := Before(s.children, |s.children|);
    if thrown {
      assert Closed(st, p) == st[p];
    } else if st[p].Executing? {
      assert k + 1 == Cost(s);
    } else if k + 1 == n {
      AllDone(s, p, st, k + 1);
      assert Cost(s) == n;
    } else {
      OneLeft(s, p, st, k + 1);
      assert k + 1 < n <= Cost(s);
    }
  }

  lemma AllDone(s: Section, p: Path, st: States, k: nat)
    requires AfterOf(s, p, st, k) && k >= Before(s.children, |s.children|)
    ensures KidsComplete(st, p)
  {
    forall q | q in st && p <= q && |q| == |p| + 1 ensures Complete(st[q]) {
      var i :| 0 <= i < |s.children| && q[|p|] == s.children[i].id;
      assert q == p + [s.children[i].id];
      BeforeMonotone(s.children, i + 1, |s.children|);
      assert AfterKid(s, p, st, k, i);
      assert After(s.children[i], q, st, Cost(s.children[i]));
    }
  }

  lemma OneLeft(s: Section, p: Path, st: States, k: nat)
    requires AfterOf(s, p, st, k) && k < Before(s.children, |s.children|)
    requires forall j :: 0 <= j < |s.children| ==> p + [s.children[j].id] in st
    ensures !KidsComplete(st, p)
  {
    var i := Turn(s.children, k, |s.children|);
    assert AfterKid(s, p, st, k, i);
    var q := p + [s.children[i].id];
    assert After(s.children[i], q, st, Share(s.children, i, k));
    assert !Complete(st[q]);
  }

  /** The tracker of a leaf is complete when it is closed, and when it has failed. */
  lemma LeafAfter(s: Section, p: Path, st: States, k: nat, st': States)
    requires Leaf(s) && Ready(s, p, st, k)
    requires if s.throws then st' == st[p := Failed][Parent(p) := NeedsAnotherRun] else st' == st[p := Closed(st, p)]
    ensures Finished(s, p, st, st', k, s.throws)
  {
    assert k == 0;
    RootedAfter(p, st, st');
  }

  lemma OuterAfter(s: Section, p: Path, before: States, st: States, k: nat, thrown: bool)
    requires !Leaf(s) && Ready(s, p, before, k) && Ran(s, p, st, k, thrown) && Within(p, before, st)
    ensures Finished(s, p, before, st[p := Closed(st, p)], k, thrown)
  {
    hide AfterOf, OnlyKids, WellFormed, KidsComplete;
    CloseAfter(s, p, st, k, thrown);
    forall n | 0 <= n <= |p| ensures p[..n] in st {
      if n < |p| {
        assert !(p <= p[..n]);
      } else {
        assert p[..n] == p;
      }
    }
    assert !(p <= Parent(p));
  }

  /** Outside what lies below `p` the two agree. */
  ghost predicate Within(p: Path, a: States, b: States) {
    forall q :: !(p <= q) ==> (q in a <==> q in b) && (q in a ==> a[q] == b[q])
  }

  lemma WithinTwice(p: Path, a: States, b: States, c: States)
    requires Within(p, a, b) && Within(p, b, c)
    ensures Within(p, a, c)
  {
  }

  lemma WithinKid(p: Path, i: nat, a: States, mid: States, b: States)
    requires Within(p, a, mid) && Outside(p + [i], mid, b)
    ensures Within(p, a, b)
  {
    assert Parent(p + [i]) == p;
    forall q | !(p <= q) ensures (q in a <==> q in b) && (q in a ==> a[q] == b[q]) {
      assert !(p + [i] <= q);
    }
  }

  ghost function Heard(st: States, q: Path): States { if q in st then st else st[q := NotStarted] }

  ghost function Entered(st: States, p: Path, q: Path): States { st[q := Executing][p := ExecutingChildren] }

  /** Acquiring section `i`: it is passed by, or opened. */
  lemma Acquiring(s: Section, p: Path, st: States, k: nat, i: nat, done: bool)
    requires Midway(s, p, st, k, i, done) && i < |s.children|
    ensures p != [] && Rooted(p, st)
    ensures var c, q := s.children[i], p + [s.children[i].id];
            var heard := Heard(st, q);
            if done || Complete(heard[q]) then
              Midway(s, p, heard, k, i + 1, done) && (done ==> heard[q].NotStarted?) && Within(p, st, heard)
            else
              && Rooted(p, heard[q := Executing]) && Opening(heard[q := Executing], p) == Entered(st, p, q)
              && Ready(c, q, Entered(st, p, q), Share(s.children, i, k)) && Parent(q) == p
              && Within(p, st, Entered(st, p, q)) && Before(s.children, i) <= k < Before(s.children, i + 1)
  {
    hide AfterOf, OnlyKids;
    var c, q := s.children[i], p + [s.children[i].id];
    var heard := Heard(st, q);
    if done || Share(s.children, i, k) == Cost(c) {
      PassedBy(s, p, st, k, i, done, heard);
    } else {
      Opened(s, p, st, k, i, Entered(st, p, q));
      RootedAfter(p, st, heard[q := Executing]);
      OpeningOne(heard[q := Executing], p);
      assert heard[q := Executing][p := ExecutingChildren] == Entered(st, p, q);
    }
  }

  /** Section `i` has run. */
  lemma AfterRun(s: Section, p: Path, st: States, k: nat, i: nat, st': States, thrown: bool, e: seq<Path>)
    requires Midway(s, p, st, k, i, false) && i < |s.children| && Before(s.children, i) <= k < Before(s.children, i + 1)
    requires var c, q, d := s.children[i], p + [s.children[i].id], Share(s.children, i, k);
             && Finished(c, q, Entered(st, p, q), st', d, thrown)
             && Visited(c, q, d + 1) == Visited(c, q, d) + e
    ensures Within(p, st, st') && Visited(s, p, k + 1) == Visited(s, p, k) + e
    ensures if thrown then Ran(s, p, st', k, true) else Midway(s, p, st', k, i + 1, true)
  {
    hide AfterOf, OnlyKids, Share, Before, Cost, WellFormed;
    var q := p + [s.children[i].id];
    if thrown {
      KidThrew(s, p, st, Entered(st, p, q), k, i, st');
    } else {
      KidRan(s, p, st, Entered(st, p, q), k, i, st');
    }
    WithinKid(p, s.children[i].id, st, Entered(st, p, q), st');
    VisitedStep(s.children, p, i, k, |s.children|, e);
  }

  /** After `c` cycles of the test case. */
  ghost predicate TestMidway(test: Section, st: States, log: seq<Path>, c: nat) {
    && WellFormed(test) && c <= Cost(test)
    && [] in st && (st[[]].NotStarted? || st[[]].ExecutingChildren?)
    && After(test, [test.id], st, c)
    && log == Visited(test, [test.id], c)
  }

  lemma TestStarts(test: Section, st: States)
    requires WellFormed(test) && st == map[[] := NotStarted]
    ensures TestMidway(test, st, [], 0)
  {
    VisitedNone(test, [test.id]);
  }

  lemma TestEnds(test: Section, st: States, log: seq<Path>, c: nat)
    requires TestMidway(test, st, log, c) && c >= Cost(test)
    ensures c == Cost(test) && log == Leaves(test, [test.id])
  {
    VisitedAll(test, [test.id]);
  }

  lemma TestOpens(test: Section, st: States, log: seq<Path>, c: nat)
    requires TestMidway(test, st, log, c) && c < Cost(test)
    ensures var q := [] + [test.id];
            var heard := Heard(st, q);
            && q == [test.id] && !Complete(heard[q]) && Rooted([], st) && Rooted([], heard[q := Executing])
            && Opening(heard[q := Executing], []) == Entered(st, [], q)
            && Ready(test, q, Entered(st, [], q), c)
  {
    var q: Path := [] + [test.id];
    var heard := Heard(st, q);
    assert q == [test.id];
    Openable(test, q, st, Entered(st, [], q), c);
    var root: Path := [];
    if st[root].ExecutingChildren? {
      assert heard[q := Executing] == Entered(st, [], q);
    } else {
      OpeningOne(heard[q := Executing], []);
    }
    assert Parent(q) == [];
    RootedKid([], test.id, Entered(st, [], q));
  }

  lemma TestRan(test: Section, mid: States, st: States, c: nat, thrown: bool)
    requires Ready(test, [test.id], mid, c)
    requires if Leaf(test) then st == mid else Ran(test, [test.id], st, c, thrown) && Within([test.id], mid, st)
    ensures [test.id] in st && !st[[test.id]].NotStarted? && !Complete(st[[test.id]])
  {
  }

  lemma TestCloses(test: Section, before: States, log: seq<Path>, mid: States, st: States, c: nat, thrown: bool, e: seq<Path>)
    requires TestMidway(test, before, log, c) && c < Cost(test)
    requires mid == Entered(before, [], [test.id]) && Ready(test, [test.id], mid, c)
    requires if Leaf(test) then st == mid else Ran(test, [test.id], st, c, thrown) && Within([test.id], mid, st)
    requires Visited(test, [test.id], c + 1) == Visited(test, [test.id], c) + e
    requires [test.id] in st
    ensures TestMidway(test, st[[test.id] := Closed(st, [test.id])], log + e, c + 1)
    ensures Closed(st, [test.id]).CompletedSuccessfully? <==> c + 1 == Cost(test)
  {
    var q := [test.id];
    var st' := st[q := Closed(st, q)];
    if Leaf(test) {
      assert c == 0;
    } else {
      CloseAfter(test, q, st, c, thrown);
      assert !(q <= []);
    }
  }

  // ---- the trackers ----

  class TrackerContext {
    var states: States              // the trackers and their m_runState
    var current: Path               // m_currentTracker
    var cycleDone: bool             // m_runState == CompletedCycle
    var unfinished: nat             // how many sections ended early in this run
    var entered: seq<Path>          // the leaves entered so far, in order (written by nothing in the original)

    /** startRun. */
    constructor ()
      ensures states == map[[] := NotStarted] && entered == [] && unfinished == 0
    {
      states := map[[] := NotStarted];
      current, cycleDone, unfinished, entered := [], false, 0, [];
    }

    /** openChild: exactly the trackers from `p` up to the first one already marked become marked. */
    method OpenChild(p: Path)
      requires Rooted(p, states)
      modifies `states
      ensures states == Opening(old(states), p) && states.Keys == old(states).Keys
      ensures forall n :: 0 <= n <= |p| ==>
                states[p[..n]] == if StopsBy(old(states), p, n) then old(states)[p[..n]] else ExecutingChildren
      ensures forall q :: q in states && !(q <= p) ==> states[q] == old(states)[q]
      decreases |p|
    {
      OpeningMarks(states, p);
      RootedIn(p, states);
      if !states[p].ExecutingChildren? {
        ghost var st := states;
        states := states[p := ExecutingChildren];
        if p != [] {
          RootedParent(p, st);
          OpenChild(Parent(p));
        }
      }
    }

    method Open(p: Path)
      requires p != [] && Rooted(p, states) && Rooted(Parent(p), states[p := Executing])
      modifies `states, `current
      ensures states == Opening(old(states)[p := Executing], Parent(p)) && current == p
    {
      states := states[p := Executing];
      current := p;
      OpenChild(Parent(p));
    }

    /** SectionTracker::acquire and tryOpen, for the section `id` of the current tracker. */
    method Acquire(id: nat)
      requires Rooted(current, states)
      modifies `states, `current
      ensures var q, st := old(current) + [id], old(states);
              var heard := if q in st then st else st[q := NotStarted];
              if cycleDone || Complete(heard[q]) then states == heard && current == old(current)
              else Rooted(old(current), heard[q := Executing]) && states == Opening(heard[q := Executing], old(current)) && current == q
    {
      var q := current + [id];
      assert Parent(q) == current;
      if q !in states {
        states := states[q := NotStarted];
      }
      if !cycleDone && !Complete(states[q]) {
        RootedAfter(current, old(states), states);
        RootedKid(current, id, states);
        RootedAfter(current, states, states[q := Executing]);
        Open(q);
      }
    }

    /** TrackerBase::close, when the tracker to close is the current one. */
    method CloseCurrent()
      requires current != [] && current in states && IsOpen(states[current])
      modifies `states, `current, `cycleDone
      ensures states == old(states)[old(current) := Closed(old(states), old(current))]
      ensures current == Parent(old(current)) && cycleDone
    {
      var p := current;
      match states[p] {
        case NeedsAnotherRun =>
        case Executing =>
          states := states[p := CompletedSuccessfully];
        case ExecutingChildren =>
          if forall q :: q in states && p <= q && |q| == |p| + 1 ==> Complete(states[q]) {
            states := states[p := CompletedSuccessfully];
          }
      }
      assert states == old(states)[p := Closed(old(states), p)];
      current := Parent(p);
      cycleDone := true;
    }

    /** TrackerBase::close: the trackers still open inside `p` are closed first, from the inside out. */
    method Close(p: Path)
      requires p != [] && p <= current && AllOpen(p, current, states)
      modifies `states, `current, `cycleDone
      ensures current == Parent(p) && cycleDone
      ensures ClosedDownTo(old(states), states, Parent(p), old(current))
      ensures p == old(current) ==> states == old(states)[p := Closed(old(states), p)]
    {
      hide ClosedDownTo;
      ghost var st, c := states, current;
      ClosesNone(st, c);
      while current != p
        invariant p <= current <= c && (current == c ==> states == st)
        invariant ClosedDownTo(st, states, current, c) && AllOpen(p, current, states)
        decreases |current|
      {
        CloseOne(p, c, st);
      }
      assert current[..|current|] == current;
      KeysKept(st, states, p, c);
      ClosesOneMore(st, states, p, c);
      CloseCurrent();
    }

    /** One round of that loop. */
    method CloseOne(p: Path, ghost c: Path, ghost st: States)
      requires p < current <= c && ClosedDownTo(st, states, current, c) && AllOpen(p, current, states)
      modifies `states, `current, `cycleDone
      ensures p <= current < c && |current| < old(|current|)
      ensures ClosedDownTo(st, states, current, c) && AllOpen(p, current, states)
    {
      hide ClosedDownTo;
      ghost var now := current;
      assert now[..|now|] == now;
      KeysKept(st, states, now, c);
      ClosesOneMore(st, states, now, c);
      CloseCurrent();
      forall n | |p| <= n <= |current| ensures current[..n] in states && IsOpen(states[current[..n]]) {
        assert current[..n] == now[..n] && now[..n] != now;
      }
      assert current < c by { assert current == c[..|current|]; }
    }

    /** TrackerBase::fail. */
    method Fail()
      requires current != [] && current in states && Parent(current) in states
      modifies `states, `current, `cycleDone
      ensures states == old(states)[old(current) := Failed][Parent(old(current)) := NeedsAnotherRun]
      ensures current == Parent(old(current)) && cycleDone
    {
      states := states[current := Failed];
      states := states[Parent(current) := NeedsAnotherRun];
      current := Parent(current);
      cycleDone := true;
    }

    /** The body of section `s`, whose tracker is the current one: cycle `k` of that section. */
    method Body(s: Section, ghost k: nat) returns (thrown: bool, ghost e: seq<Path>)
      requires Ready(s, current, states, k) && !cycleDone && unfinished == 0
      modifies this
      ensures current == old(current) && thrown == (unfinished > 0 || (Leaf(s) && s.throws))
      ensures Leaf(s) ==> states == old(states) && unfinished == 0
      ensures !Leaf(s) ==> Ran(s, current, states, k, thrown) && Within(current, old(states), states)
      ensures entered == old(entered) + e && Visited(s, current, k + 1) == Visited(s, current, k) + e
      decreases s, 1
    {
      hide Within, Ready, Midway, Visited, Ran;
      e := [];
      if s.children == [] {
        LeafStarts(s, current, states, k);
        entered, e := entered + [current], [current];
        return s.throws, e;
      }
      ghost var p, st := current, states;
      BodyStarts(s, p, st, k);
      var i := 0;
      while i < |s.children|
        invariant i <= |s.children| && current == p && unfinished == 0
        invariant Midway(s, p, states, k, i, cycleDone) && Within(p, st, states)
        invariant entered == old(entered) + e && if cycleDone then Visited(s, p, k + 1) == Visited(s, p, k) + e else e == []
      {
        ghost var e', st' := [], states;
        thrown, e' := Enter(s, i, k);
        WithinTwice(p, st, st', states);
        e := e + e';
        if thrown {
          return;
        }
        i := i + 1;
      }
      BodyEnds(s, p, states, k, cycleDone);
      return false, e;
    }

    /** A section block in the body of `s`: sectionStarted, and if it is opened its body and its end. */
    method Enter(s: Section, i: nat, ghost k: nat) returns (thrown: bool, ghost e: seq<Path>)
      requires i < |s.children| && Midway(s, current, states, k, i, cycleDone) && unfinished == 0
      modifies this
      ensures current == old(current) && Within(current, old(states), states)
      ensures thrown == (unfinished > 0) && (old(cycleDone) ==> cycleDone && !thrown)
      ensures thrown ==> cycleDone && Ran(s, current, states, k, true)
      ensures !thrown ==> Midway(s, current, states, k, i + 1, cycleDone)
      ensures entered == old(entered) + e
      ensures if old(cycleDone) == cycleDone then e == [] else Visited(s, current, k + 1) == Visited(s, current, k) + e
      decreases s, 0
    {
      hide Within, Ready, Visited, Ran, AfterOf, OnlyKids, Opening, Before, Share, Cost, Midway, Rooted;
      ghost var p, st := current, states;
      var c := s.children[i];
      var q := current + [c.id];
      Acquiring(s, p, st, k, i, cycleDone);
      Acquire(c.id);
      thrown, e := false, [];
      if !states[q].NotStarted? && !Complete(states[q]) {
        thrown, e := RunSection(c, Share(s.children, i, k));
        AfterRun(s, p, st, k, i, states, thrown, e);
      }
    }

    /** The body of a section and its end: sectionEnded, or sectionEndedEarly if it was left by a throw. */
    method RunSection(s: Section, ghost k: nat) returns (thrown: bool, ghost e: seq<Path>)
      requires Ready(s, current, states, k) && !cycleDone && unfinished == 0
      modifies this
      ensures current == Parent(old(current)) && cycleDone && thrown == (unfinished > 0)
      ensures Finished(s, old(current), old(states), states, k, thrown)
      ensures entered == old(entered) + e && Visited(s, old(current), k + 1) == Visited(s, old(current), k) + e
      decreases s, 2
    {
      hide AfterOf, OnlyKids, Before, Share, Cost, Rooted, Within, Visited, KidsComplete;
      var p := current;
      ghost var st := states;
      thrown, e := Body(s, k);
      ghost var st' := states;
      if thrown {
        if unfinished == 0 {
          Fail();
        } else {
          OneOpen(p, states);
          Close(p);
        }
        unfinished := unfinished + 1;
      } else {
        OneOpen(p, states);
        Close(p);
      }
      if s.children == [] {
        LeafAfter(s, p, st, k, states);
      } else {
        OuterAfter(s, p, st, st', k, thrown);
      }
    }

    /** The loop of runTest over a test case: run cycles until its tracker is complete. It stops after
        as many cycles as the test case costs, having entered every leaf section once, in order. */
    method RunTest(test: Section) returns (cycles: nat)
      requires states == map[[] := NotStarted] && entered == [] && unfinished == 0 && WellFormed(test)
      modifies this
      ensures cycles == Cost(test)
      ensures entered == Leaves(test, [test.id])
    {
      hide AfterOf, OnlyKids, Before, Share, Cost, Rooted, Within, Visited, KidsComplete, Ready;
      var q := [test.id];
      cycles := 0;
      var more := true;
      TestStarts(test, states);
      while more
        invariant unfinished == 0 && TestMidway(test, states, entered, cycles) && (more <==> cycles < Cost(test))
        decreases Cost(test) - cycles
      {
        more := RunCycle(test, cycles);
        cycles := cycles + 1;
      }
      TestEnds(test, states, entered, cycles);
    }

    /** One round of the loop: startCycle, acquire the test case's tracker, runCurrentTest. */
    method RunCycle(test: Section, ghost c: nat) returns (more: bool)
      requires TestMidway(test, states, entered, c) && c < Cost(test) && unfinished == 0
      modifies this
      ensures unfinished == 0 && TestMidway(test, states, entered, c + 1) && (more <==> c + 1 < Cost(test))
    {
      hide AfterOf, OnlyKids, Before, Share, Cost, Rooted, Within, Visited, KidsComplete, Ready, Ran, TestMidway;
      ghost var st, log := states, entered;
      current, cycleDone := [], false;
      TestOpens(test, st, log, c);
      Acquire(test.id);
      ghost var mid := states;
      ghost var thrown, e;
      thrown, e := Body(test, c);
      ghost var st' := states;
      TestRan(test, mid, st', c, thrown);
      OneOpen([test.id], states);
      Close([test.id]);
      unfinished := 0;
      more := !states[[test.id]].CompletedSuccessfully?;
      TestCloses(test, st, log, mid, st', c, thrown, e);
    }
  }
}
