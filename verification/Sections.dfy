/** A test case's tree of sections, and how far a run has come in it. */
module Sections {
  import opened Common

  datatype RunState = NotStarted | Executing | ExecutingChildren | NeedsAnotherRun | CompletedSuccessfully | Failed

  /** A tracker is named by the ids on the way to it from the root tracker, whose path is empty. */
  type Path = seq<nat>

  type States = map<Path, RunState>

  /** A section of the test body: the sections it enters, in order; if it enters none, it may throw. */
  datatype Section = Section(id: nat, throws: bool, children: seq<Section>)

  predicate Leaf(s: Section) { s.children == [] }

  predicate WellFormed(s: Section) {
    && (forall i, j :: 0 <= i < j < |s.children| ==> s.children[i].id != s.children[j].id)
    && (forall i :: 0 <= i < |s.children| ==> WellFormed(s.children[i]))
  }

  function Parent(p: Path): Path
    requires p != []
  {
    p[..|p| - 1]
  }

  predicate Complete(r: RunState) { r.CompletedSuccessfully? || r.Failed? }

  // ---- the leaves, and how many cycles they take ----

  function Leaves(s: Section, p: Path): seq<Path> {
    if Leaf(s) then [p] else LeavesOf(s.children, p)
  }

  function LeavesOf(cs: seq<Section>, p: Path): seq<Path> {
    if cs == [] then [] else Leaves(cs[0], p + [cs[0].id]) + LeavesOf(cs[1..], p)
  }

  /** A section whose last section throws is run once more, only to find that nothing is left. */
  function Extra(s: Section): nat {
    if !Leaf(s) && Leaf(s.children[|s.children| - 1]) && s.children[|s.children| - 1].throws then 1 else 0
  }

  /** The cycles that a section takes: one for each leaf, and the extra ones. */
  function Cost(s: Section): (c: nat)
    ensures c > 0
  {
    if Leaf(s) then 1 else Before(s.children, |s.children|) + Extra(s)
  }

  /** The cycles that the first `n` sections take. */
  function Before(cs: seq<Section>, n: nat): (c: nat)
    requires n <= |cs|
    ensures n <= c
    decreases cs, n
  {
    if n == 0 then 0 else Before(cs, n - 1) + Cost(cs[n - 1])
  }

  lemma BeforeMonotone(cs: seq<Section>, i: nat, j: nat)
    requires i <= j <= |cs|
    ensures Before(cs, i) + (j - i) <= Before(cs, j)
    decreases j
  {
    if i < j {
      BeforeMonotone(cs, i, j - 1);
    }
  }

  /** Of the `k` cycles done in a list of sections, those done in the `i`th. */
  function Share(cs: seq<Section>, i: nat, k: nat): (d: nat)
    requires i < |cs|
    ensures d <= Cost(cs[i])
  {
    if k <= Before(cs, i) then 0
    else if k - Before(cs, i) >= Cost(cs[i]) then Cost(cs[i])
    else k - Before(cs, i)
  }

  /** One more cycle is one more for the section whose turn it is. */
  lemma ShareStep(cs: seq<Section>, i: nat, k: nat, j: nat)
    requires i < |cs| && j < |cs| && Before(cs, i) <= k < Before(cs, i + 1)
    ensures Share(cs, j, k + 1) == Share(cs, j, k) + (if j == i then 1 else 0)
    ensures j < i ==> Share(cs, j, k) == Cost(cs[j])
    ensures j > i ==> Share(cs, j, k + 1) == 0
    ensures Share(cs, i, k) == k - Before(cs, i)
  {
    if j < i {
      BeforeMonotone(cs, j + 1, i);
    } else if j > i {
      BeforeMonotone(cs, i + 1, j);
    }
  }

  // ---- the leaves entered so far ----

  /** The leaves entered in the first `k` cycles of a section. */
  function Visited(s: Section, p: Path, k: nat): seq<Path> {
    if Leaf(s) then if k == 0 then [] else [p] else VisitedOf(s.children, p, k, |s.children|)
  }

  function VisitedOf(cs: seq<Section>, p: Path, k: nat, n: nat): seq<Path>
    requires n <= |cs|
    decreases cs, n
  {
    if n == 0 then [] else VisitedOf(cs, p, k, n - 1) + Visited(cs[n - 1], p + [cs[n - 1].id], Share(cs, n - 1, k))
  }

  lemma {:induction false} VisitedNone(s: Section, p: Path)
    ensures Visited(s, p, 0) == []
    decreases s, 0
  {
    if !Leaf(s) {
      VisitedOfNone(s.children, p, |s.children|);
    }
  }

  lemma {:induction false} VisitedOfNone(cs: seq<Section>, p: Path, n: nat)
    requires n <= |cs|
    ensures VisitedOf(cs, p, 0, n) == []
    decreases cs, n
  {
    if n > 0 {
      VisitedOfNone(cs, p, n - 1);
      VisitedNone(cs[n - 1], p + [cs[n - 1].id]);
    }
  }

  /** What the section whose turn it is enters is all that is entered. */
  lemma {:induction false} VisitedStep(cs: seq<Section>, p: Path, i: nat, k: nat, n: nat, e: seq<Path>)
    requires i < n <= |cs| && Before(cs, i) <= k < Before(cs, i + 1)
    requires Visited(cs[i], p + [cs[i].id], Share(cs, i, k) + 1) == Visited(cs[i], p + [cs[i].id], Share(cs, i, k)) + e
    ensures VisitedOf(cs, p, k + 1, n) == VisitedOf(cs, p, k, n) + e
  {
    hide Share, Before, Cost, Visited;
    ShareStep(cs, i, k, n - 1);
    if n - 1 == i {
      VisitedBefore(cs, p, i, k, i);
      var v := VisitedOf(cs, p, k, i);
      var w := Visited(cs[i], p + [cs[i].id], Share(cs, i, k));
      assert v + (w + e) == (v + w) + e;
    } else {
      VisitedStep(cs, p, i, k, n - 1, e);
      VisitedNone(cs[n - 1], p + [cs[n - 1].id]);
    }
  }

  lemma {:induction false} VisitedBefore(cs: seq<Section>, p: Path, i: nat, k: nat, n: nat)
    requires n <= i < |cs| && Before(cs, i) <= k < Before(cs, i + 1)
    ensures VisitedOf(cs, p, k + 1, n) == VisitedOf(cs, p, k, n)
  {
    if n > 0 {
      VisitedBefore(cs, p, i, k, n - 1);
      ShareStep(cs, i, k, n - 1);
    }
  }

  /** In the extra cycle nothing is entered. */
  lemma {:induction false} VisitedExtra(cs: seq<Section>, p: Path, k: nat, n: nat)
    requires n <= |cs| && k >= Before(cs, |cs|)
    ensures VisitedOf(cs, p, k + 1, n) == VisitedOf(cs, p, k, n)
  {
    if n > 0 {
      VisitedExtra(cs, p, k, n - 1);
      BeforeMonotone(cs, n, |cs|);
    }
  }

  /** After all its cycles every leaf of a section has been entered, in order. */
  lemma {:induction false} VisitedAll(s: Section, p: Path)
    ensures Visited(s, p, Cost(s)) == Leaves(s, p)
    decreases s, 0
  {
    if !Leaf(s) {
      VisitedOfAll(s.children, p, Cost(s), |s.children|);
      assert s.children[..|s.children|] == s.children;
    }
  }

  lemma {:induction false} VisitedOfAll(cs: seq<Section>, p: Path, k: nat, n: nat)
    requires n <= |cs| && k >= Before(cs, n)
    ensures VisitedOf(cs, p, k, n) == LeavesOf(cs[..n], p)
    decreases cs, n
  {
    if n > 0 {
      VisitedOfAll(cs, p, k, n - 1);
      VisitedAll(cs[n - 1], p + [cs[n - 1].id]);
      LeavesOfLast(cs[..n], p);
      assert cs[..n][..n - 1] == cs[..n - 1];
    }
  }

  lemma {:induction false} LeavesOfLast(cs: seq<Section>, p: Path)
    requires cs != []
    ensures LeavesOf(cs, p) == LeavesOf(cs[..|cs| - 1], p) + Leaves(cs[|cs| - 1], p + [cs[|cs| - 1].id])
  {
    if |cs| > 1 {
      LeavesOfLast(cs[1..], p);
      assert cs[1..][..|cs| - 2] == cs[..|cs| - 1][1..];
      var a, b := Leaves(cs[0], p + [cs[0].id]), LeavesOf(cs[..|cs| - 1][1..], p);
      var c := Leaves(cs[|cs| - 1], p + [cs[|cs| - 1].id]);
      assert a + (b + c) == (a + b) + c;
    } else {
      assert cs[1..] == [] && cs[..0] == [];
    }
  }

  // ---- the leaves are distinct; the cycles counted ----

  lemma {:induction false} LeavesUnder(s: Section, p: Path)
    ensures forall q :: q in Leaves(s, p) ==> p <= q
    decreases s, 0
  {
    if !Leaf(s) {
      LeavesOfUnder(s.children, p);
    }
  }

  lemma {:induction false} LeavesOfUnder(cs: seq<Section>, p: Path)
    ensures forall q :: q in LeavesOf(cs, p) ==> p <= q && |p| < |q| && exists i :: 0 <= i < |cs| && q[|p|] == cs[i].id
    decreases cs, 1
  {
    if cs != [] {
      LeavesUnder(cs[0], p + [cs[0].id]);
      LeavesOfUnder(cs[1..], p);
      forall q | q in LeavesOf(cs, p) ensures p <= q && |p| < |q| && exists i :: 0 <= i < |cs| && q[|p|] == cs[i].id {
        if q in Leaves(cs[0], p + [cs[0].id]) {
          assert p + [cs[0].id] <= q;
          assert q[|p|] == cs[0].id;
        } else {
          assert q in LeavesOf(cs[1..], p);
          var i :| 0 <= i < |cs[1..]| && q[|p|] == cs[1..][i].id;
          assert cs[i + 1].id == q[|p|];
        }
      }
    }
  }

  /** No leaf is entered twice. */
  lemma {:induction false} LeavesDistinct(s: Section, p: Path)
    requires WellFormed(s)
    ensures Distinct(Leaves(s, p))
    decreases s, 0
  {
    if !Leaf(s) {
      LeavesOfDistinct(s.children, p);
    }
  }

  lemma {:induction false} LeavesOfDistinct(cs: seq<Section>, p: Path)
    requires forall i, j :: 0 <= i < j < |cs| ==> cs[i].id != cs[j].id
    requires forall i :: 0 <= i < |cs| ==> WellFormed(cs[i])
    ensures Distinct(LeavesOf(cs, p))
    decreases cs, 1
  {
    if cs != [] {
      var a, b := Leaves(cs[0], p + [cs[0].id]), LeavesOf(cs[1..], p);
      LeavesDistinct(cs[0], p + [cs[0].id]);
      LeavesOfDistinct(cs[1..], p);
      LeavesUnder(cs[0], p + [cs[0].id]);
      LeavesOfUnder(cs[1..], p);
      forall i, j | 0 <= i < |a| && 0 <= j < |b| ensures a[i] != b[j] {
        assert a[i] in a && b[j] in b;
        assert p + [cs[0].id] <= a[i];
        assert a[i][|p|] == cs[0].id;
      }
    }
  }

  /** The sections whose last section throws. */
  function Extras(s: Section): nat { Extra(s) + ExtrasOf(s.children) }

  function ExtrasOf(cs: seq<Section>): nat {
    if cs == [] then 0 else Extras(cs[0]) + ExtrasOf(cs[1..])
  }

  /** The cycles are as many as the leaves and the sections whose last section throws. */
  lemma {:induction false} CostExact(s: Section, p: Path)
    ensures Cost(s) == |Leaves(s, p)| + Extras(s)
    decreases s, 0
  {
    if !Leaf(s) {
      CostOfExact(s.children, p, |s.children|);
      assert s.children[..|s.children|] == s.children;
    }
  }

  lemma {:induction false} CostOfExact(cs: seq<Section>, p: Path, n: nat)
    requires n <= |cs|
    ensures Before(cs, n) == |LeavesOf(cs[..n], p)| + ExtrasOf(cs[..n])
    decreases cs, n
  {
    if n > 0 {
      CostOfExact(cs, p, n - 1);
      CostExact(cs[n - 1], p + [cs[n - 1].id]);
      LeavesOfLast(cs[..n], p);
      ExtrasOfLast(cs[..n]);
      assert cs[..n][..n - 1] == cs[..n - 1];
    }
  }

  lemma {:induction false} ExtrasOfLast(cs: seq<Section>)
    requires cs != []
    ensures ExtrasOf(cs) == ExtrasOf(cs[..|cs| - 1]) + Extras(cs[|cs| - 1])
  {
    if |cs| > 1 {
      ExtrasOfLast(cs[1..]);
      assert cs[1..][..|cs| - 2] == cs[..|cs| - 1][1..];
    } else {
      assert cs[1..] == [] && cs[..0] == [];
    }
  }

  /** No leaf throws. */
  predicate Quiet(s: Section) {
    (Leaf(s) ==> !s.throws) && forall i :: 0 <= i < |s.children| ==> Quiet(s.children[i])
  }

  /** Without failures there are no extra cycles. */
  lemma {:induction false} QuietCost(s: Section, p: Path)
    requires Quiet(s)
    ensures Cost(s) == |Leaves(s, p)|
  {
    CostExact(s, p);
    QuietExtras(s);
  }

  lemma {:induction false} QuietExtras(s: Section)
    requires Quiet(s)
    ensures Extras(s) == 0
    decreases s, 0
  {
    QuietExtrasOf(s.children);
  }

  lemma {:induction false} QuietExtrasOf(cs: seq<Section>)
    requires forall i :: 0 <= i < |cs| ==> Quiet(cs[i])
    ensures ExtrasOf(cs) == 0
    decreases cs, 1
  {
    if cs != [] {
      QuietExtras(cs[0]);
      QuietExtrasOf(cs[1..]);
    }
  }

  // ---- what the trackers look like after `k` cycles ----

  /** Nothing has been entered below `p`, and `p` has at most been heard of. */
  predicate Fresh(p: Path, st: States) {
    && (p in st ==> st[p].NotStarted?)
    && (forall q :: q in st && p <= q ==> q == p)
  }

  predicate Halfway(r: RunState) { r.ExecutingChildren? || r.NeedsAnotherRun? }

  /** Only the sections of `s` have been heard of directly below `p`. */
  ghost predicate OnlyKids(s: Section, p: Path, st: States) {
    forall q :: q in st && p <= q && |q| == |p| + 1 ==> exists i :: 0 <= i < |s.children| && q[|p|] == s.children[i].id
  }

  /** The trackers of section `s` at `p` after `k` cycles in it. */
  ghost predicate After(s: Section, p: Path, st: States, k: nat)
    decreases s, 1
  {
    if k == 0 then Fresh(p, st)
    else p in st && if k >= Cost(s) then Complete(st[p]) else Halfway(st[p]) && AfterOf(s, p, st, k)
  }

  ghost predicate AfterOf(s: Section, p: Path, st: States, k: nat)
    decreases s, 0
  {
    && OnlyKids(s, p, st)
    && forall i :: 0 <= i < |s.children| ==> AfterKid(s, p, st, k, i)
  }

  ghost predicate AfterKid(s: Section, p: Path, st: States, k: nat, i: nat)
    requires i < |s.children|
    decreases s, 0, 0
  {
    After(s.children[i], p + [s.children[i].id], st, Share(s.children, i, k))
  }

  /** Below `p` the two agree. */
  ghost predicate Agree(p: Path, a: States, b: States) {
    forall q :: p <= q ==> (q in a <==> q in b) && (q in a ==> a[q] == b[q])
  }

  lemma {:induction false} AfterAgree(s: Section, p: Path, a: States, b: States, k: nat)
    requires Agree(p, a, b) && After(s, p, a, k)
    ensures After(s, p, b, k)
    decreases s, 1
  {
    if k == 0 {
      forall q | q in b && p <= q ensures q == p {
        assert q in a;
      }
    } else if k < Cost(s) {
      AfterOfAgree(s, p, a, b, k);
    }
  }

  /** The tracker of a section itself does not matter to those below it. */
  lemma {:induction false} AfterOfAgree(s: Section, p: Path, a: States, b: States, k: nat)
    requires forall q :: p <= q && q != p ==> (q in a <==> q in b) && (q in a ==> a[q] == b[q])
    requires AfterOf(s, p, a, k)
    ensures AfterOf(s, p, b, k)
    decreases s, 0
  {
    forall i | 0 <= i < |s.children| ensures AfterKid(s, p, b, k, i) {
      assert AfterKid(s, p, a, k, i);
      AfterAgree(s.children[i], p + [s.children[i].id], a, b, Share(s.children, i, k));
    }
  }

  /** Outside what lies below `p` the two agree, except perhaps on the parent. */
  ghost predicate Outside(p: Path, a: States, b: States)
    requires p != []
  {
    forall q :: !(p <= q) && q != Parent(p) ==> (q in a <==> q in b) && (q in a ==> a[q] == b[q])
  }

  lemma NextOnPath(p: Path, i: nat, q: Path)
    requires p + [i] <= q
    ensures |p| < |q| && q[|p|] == i && p <= q
  {
  }

  /** What happens below one section does not touch its siblings. */
  lemma SiblingsAgree(p: Path, i: nat, j: nat, a: States, b: States)
    requires i != j && Outside(p + [i], a, b)
    ensures Agree(p + [j], a, b)
  {
    assert Parent(p + [i]) == p;
    forall q | p + [j] <= q ensures (q in a <==> q in b) && (q in a ==> a[q] == b[q]) {
      NextOnPath(p, j, q);
      if p + [i] <= q {
        NextOnPath(p, i, q);
      }
    }
  }

  /** Below a fresh section everything is fresh. */
  lemma FreshBelow(s: Section, p: Path, st: States)
    requires forall q :: q in st && p <= q ==> q == p
    ensures AfterOf(s, p, st, 0)
  {
    forall i | 0 <= i < |s.children| ensures AfterKid(s, p, st, 0, i) {
      assert Fresh(p + [s.children[i].id], st);
    }
  }

  /** One section has moved on, the others have not. */
  lemma KidMoved(s: Section, p: Path, a: States, b: States, k: nat, k': nat, i: nat)
    requires WellFormed(s) && i < |s.children| && AfterOf(s, p, a, k)
    requires Outside(p + [s.children[i].id], a, b) && AfterKid(s, p, b, k', i)
    requires forall j :: 0 <= j < |s.children| && j != i ==> Share(s.children, j, k') == Share(s.children, j, k)
    ensures AfterOf(s, p, b, k')
  {
    forall j | 0 <= j < |s.children| ensures AfterKid(s, p, b, k', j) {
      if j != i {
        assert AfterKid(s, p, a, k, j);
        SiblingsAgree(p, s.children[i].id, s.children[j].id, a, b);
        AfterAgree(s.children[j], p + [s.children[j].id], a, b, Share(s.children, j, k));
      }
    }
    forall q | q in b && p <= q && |q| == |p| + 1 ensures exists i :: 0 <= i < |s.children| && q[|p|] == s.children[i].id {
      if q != p + [s.children[i].id] {
        assert q in a;
      }
    }
  }

  /** While cycles remain there is a section whose turn it is. */
  lemma {:induction false} Turn(cs: seq<Section>, k: nat, n: nat) returns (i: nat)
    requires n <= |cs| && k < Before(cs, n)
    ensures i < n && Before(cs, i) <= k < Before(cs, i + 1)
  {
    if k >= Before(cs, n - 1) {
      i := n - 1;
    } else {
      i := Turn(cs, k, n - 1);
    }
  }
}
