/**
 * The order Python uses to compare two `str` values: lexicographic over
 * code points, where a proper prefix comes first. The priority buffer is a
 * min-heap under this order.
 */
module Ordering {

  /** `a <= b` for Python strings. */
  predicate StrLessEq(a: string, b: string): (r: bool)
    ensures |a| <= |b| && a == b[..|a|] ==> r
    ensures |b| < |a| && b == a[..|b|] ==> !r
    decreases |a|
  {
    if |a| == 0 then true
    else if |b| == 0 then false
    else if a[0] != b[0] then a[0] < b[0]
    else StrLessEq(a[1..], b[1..])
  }

  lemma {:induction false} Reflexive(a: string)
    ensures StrLessEq(a, a)
    decreases |a|
  {
    if |a| > 0 {
      Reflexive(a[1..]);
    }
  }

  lemma {:induction false} Total(a: string, b: string)
    ensures StrLessEq(a, b) || StrLessEq(b, a)
    decreases |a|
  {
    if |a| > 0 && |b| > 0 && a[0] == b[0] {
      Total(a[1..], b[1..]);
    }
  }

  lemma {:induction false} Antisymmetric(a: string, b: string)
    requires StrLessEq(a, b) && StrLessEq(b, a)
    ensures a == b
    decreases |a|
  {
    if |a| > 0 {
      Antisymmetric(a[1..], b[1..]);
      assert a == [a[0]] + a[1..];
      assert b == [b[0]] + b[1..];
    }
  }

  lemma {:induction false} Transitive(a: string, b: string, c: string)
    requires StrLessEq(a, b) && StrLessEq(b, c)
    ensures StrLessEq(a, c)
    decreases |a|
  {
    if |a| > 0 && a[0] == b[0] && b[0] == c[0] {
      Transitive(a[1..], b[1..], c[1..]);
    }
  }
}
