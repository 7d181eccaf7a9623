/** Measures of six counts, compared from the left. */
module Measures {
  datatype Measure = Measure(a: nat, b: nat, c: nat, d: nat, e: nat, f: nat)

  const ZERO := Measure(0, 0, 0, 0, 0, 0)

  predicate Below(x: Measure, y: Measure) {
    || x.a < y.a
    || (x.a == y.a &&
         (|| x.b < y.b
          || (x.b == y.b &&
               (|| x.c < y.c
                || (x.c == y.c &&
                     (|| x.d < y.d
                      || (x.d == y.d &&
                           (|| x.e < y.e
                            || (x.e == y.e && x.f < y.f)))))))))
  }

  predicate AtMost(x: Measure, y: Measure) { x == y || Below(x, y) }

  lemma Ordered(x: Measure, y: Measure, z: Measure)
    requires AtMost(x, y) && AtMost(y, z)
    ensures AtMost(x, z)
    ensures Below(x, y) || Below(y, z) ==> Below(x, z)
    ensures x == z ==> x == y
  {
  }

  lemma ZeroIsLeast(x: Measure)
    requires AtMost(x, ZERO)
    ensures x == ZERO
  {
  }

  lemma Smaller<T>(a: set<T>, b: set<T>)
    requires a <= b
    ensures |a| <= |b| && (a != b ==> |a| < |b|)
  {
    assert b == a + (b - a);
    if a != b {
      var x :| x in b - a;
      assert |b - a| > 0;
    }
  }
}
