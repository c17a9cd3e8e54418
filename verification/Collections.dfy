/** Shared vocabulary: optional values, sequences without repetition, picking from a set. */
module Collections {

  datatype Option<+T> = None | Some(value: T)

  /** The element a loop over an unordered map or set visits next. */
  method Pick<T(==)>(s: set<T>) returns (x: T)
    requires s != {}
    ensures x in s
  {
    x :| x in s;
  }

  ghost predicate Distinct<T>(q: seq<T>)
  {
    forall i, j :: 0 <= i < j < |q| ==> q[i] != q[j]
  }

  lemma DistinctConcat<T>(p: seq<T>, q: seq<T>)
    requires Distinct(p) && Distinct(q) && forall x :: x in p ==> x !in q
    ensures Distinct(p + q)
  {
    forall i, j | 0 <= i < j < |p + q|
      ensures (p + q)[i] != (p + q)[j]
    {
      if i < |p| <= j {
        assert p[i] in p && q[j - |p|] in q;
      }
    }
  }

  lemma DistinctSingle<T>(x: T)
    ensures Distinct([x])
  {
  }

  lemma DistinctEmpty<T>()
    ensures Distinct<T>([])
  {
  }
}
