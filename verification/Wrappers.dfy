/** Optional values, standing for nullable columns and pointers; the width of stored counters; set sizes. */
module Wrappers {
  datatype Option<+T> = None | Some(value: T)

  /** Revisions and generations are signed 64-bit columns; the code refuses to step past this. */
  const MAX_INT64: int := 0x7fff_ffff_ffff_ffff

  /** Any one element, the step of a loop over a set. */
  method Pick<T(==)>(s: set<T>) returns (x: T)
    requires s != {}
    ensures x in s
  {
    x :| x in s;
  }

  lemma {:induction false} SubsetSmaller<T>(a: set<T>, b: set<T>)
    requires a <= b
    ensures |a| <= |b|
    decreases a
  {
    if a != {} {
      var x :| x in a;
      SubsetSmaller(a - {x}, b - {x});
    }
  }

  /** Counting two nested sets is comparing them. */
  lemma {:induction false} SubsetOfSameSize<T>(a: set<T>, b: set<T>)
    requires a <= b && |a| == |b|
    ensures a == b
  {
    if a != b {
      var extra :| extra in b && extra !in a;
      SubsetSmaller(a, b - {extra});
    }
  }
}
