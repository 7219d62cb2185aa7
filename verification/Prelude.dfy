// Small shared vocabulary: optional values, results, and counting of finite sets.
module Prelude {

  datatype Option<+T> = None | Some(value: T) {
    function GetOr(default: T): T {
      if Some? then value else default
    }
  }

  datatype Result<+T, +E> = Ok(value: T) | Err(error: E)

  function Max(a: nat, b: nat): nat {
    if a < b then b else a
  }

  function Min(a: nat, b: nat): nat {
    if a < b then a else b
  }

  lemma SubsetSize<T>(a: set<T>, b: set<T>)
    requires a <= b
    ensures |a| <= |b|
  {
    if a != {} {
      var x :| x in a;
      SubsetSize(a - {x}, b - {x});
    }
  }

  // A set that exceeds another one by members of a small set is larger by at most its size.
  lemma UnionSize<T>(a: set<T>, b: set<T>, extra: set<T>)
    requires a <= b + extra
    ensures |a| <= |b| + |extra|
  {
    SubsetSize(a, b + extra);
    assert |b + extra| <= |b| + |extra| by {
      assert b + extra == b + (extra - b);
      SubsetSize(extra - b, extra);
    }
  }

  // The first n indices.
  function UpTo(n: nat): (s: set<nat>)
    ensures |s| == n && forall i: nat :: i in s <==> i < n
  {
    if n == 0 then {} else UpTo(n - 1) + {n - 1}
  }

  lemma DivModUnique(x: nat, n: nat, q: nat, r: nat)
    requires n > 0 && r < n && x == q * n + r
    ensures x / n == q && x % n == r
  {
    var q', r' := x / n, x % n;
    if q' < q { MultiplesApart(q', q, n); }
    if q < q' { MultiplesApart(q, q', n); }
  }

  lemma MultiplesApart(a: nat, b: nat, n: nat)
    requires a < b
    ensures a * n + n <= b * n
  {
    var k := b - a - 1;
    calc {
      b * n;
      (a + 1 + k) * n;
      a * n + n + k * n;
    }
  }

  lemma DivStep(x: nat, b: nat)
    requires b > 0
    ensures (x + b) / b == x / b + 1
  {
    assert x == x / b * b + x % b;
    DivModUnique(x + b, b, x / b + 1, x % b);
  }
}
