// Integer arithmetic and counting that several modules share.
module Integers {

  function Max(a: int, b: int): int { if a > b then a else b }

  function Min(a: int, b: int): int { if a < b then a else b }

  lemma Scales(a: int, b: int, k: nat)
    ensures a <= b ==> a * k <= b * k
  {
    if a <= b {
      assert (b - a) * k >= 0;
      assert b * k == a * k + (b - a) * k;
    }
  }

  lemma DivModUnique(x: int, m: nat, q: int, r: int)
    requires 0 < m && 0 <= r < m && x == q * m + r
    ensures x / m == q && x % m == r
  {
    var d := x / m - q;
    assert x == (x / m) * m + x % m;
    assert d * m == r - x % m;
    Scales(1, d, m);
    Scales(d, -1, m);
  }

  lemma {:induction false} SubsetIsSmaller<T>(a: set<T>, b: set<T>)
    requires a <= b
    ensures |a| <= |b|
  {
    if a == {} {
    } else {
      var x :| x in a;
      SubsetIsSmaller(a - {x}, b - {x});
    }
  }
}
