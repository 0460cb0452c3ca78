/**
 * Python's ordering of `str` values, which `list.sort()` uses: strings are
 * compared code point by code point, and a proper prefix sorts first.
 */
module StringOrder {

  /** `a <= b` on Python strings. */
  predicate Below(a: string, b: string)
    decreases |a|
  {
    |a| == 0 || (|b| > 0 && (a[0] < b[0] || (a[0] == b[0] && Below(a[1..], b[1..]))))
  }

  lemma {:induction false} BelowReflexive(a: string)
    ensures Below(a, a)
  {
    if |a| > 0 {
      BelowReflexive(a[1..]);
    }
  }

  lemma {:induction false} BelowAntisymmetric(a: string, b: string)
    requires Below(a, b) && Below(b, a)
    ensures a == b
  {
    if |a| > 0 && |b| > 0 {
      BelowAntisymmetric(a[1..], b[1..]);
      assert a == [a[0]] + a[1..] && b == [b[0]] + b[1..];
    }
  }

  lemma {:induction false} BelowTransitive(a: string, b: string, c: string)
    requires Below(a, b) && Below(b, c)
    ensures Below(a, c)
  {
    if |a| > 0 && a[0] == b[0] && b[0] == c[0] {
      BelowTransitive(a[1..], b[1..], c[1..]);
    }
  }

  lemma {:induction false} BelowTotal(a: string, b: string)
    ensures Below(a, b) || Below(b, a)
  {
    if |a| > 0 && |b| > 0 && a[0] == b[0] {
      BelowTotal(a[1..], b[1..]);
    }
  }

  /** `m` is the first element of `xs` once it is sorted. */
  ghost predicate IsSmallest(m: string, xs: set<string>)
  {
    m in xs && forall x :: x in xs ==> Below(m, x)
  }

  /** A set of names has at most one smallest element: sorting is deterministic. */
  lemma SmallestUnique(m1: string, m2: string, xs: set<string>)
    requires IsSmallest(m1, xs) && IsSmallest(m2, xs)
    ensures m1 == m2
  {
    BelowAntisymmetric(m1, m2);
  }

  /** The name that `xs.sort()` followed by `xs.pop(0)` takes out. */
  ghost function Smallest(xs: set<string>): (m: string)
    requires xs != {}
    ensures IsSmallest(m, xs)
  {
    var x :| x in xs;
    if xs == {x} then
      BelowReflexive(x);
      x
    else
      var y := Smallest(xs - {x});
      BelowTotal(x, y);
      if Below(x, y) then
        forall z | z in xs - {x} ensures Below(x, z) {
          BelowTransitive(x, y, z);
        }
        BelowReflexive(x);
        x
      else
        y
  }
}
