module Common {
  datatype Option<+T> = None | Some(value: T)

  /** No element occurs twice. */
  predicate Distinct<T(==)>(s: seq<T>) { forall i, j :: 0 <= i < j < |s| ==> s[i] != s[j] }

  lemma DistinctParts<T>(a: seq<T>, b: seq<T>)
    requires Distinct(a + b)
    ensures forall i :: 0 <= i < |b| ==> b[i] !in a
  {
    forall i, k | 0 <= i < |b| && 0 <= k < |a| ensures b[i] != a[k] {
      assert (a + b)[k] == a[k] && (a + b)[|a| + i] == b[i];
    }
  }
}
