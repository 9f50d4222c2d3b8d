/** Sums of amounts held in a map.  A Python dict is summed in insertion order; over exact reals the
    order cannot matter, and the lemmas here are what makes that usable. */
module Sums {

  /** Quantities this close to zero are treated as flat. */
  const DUST: real := 0.000000000001

  /** The sum of all values of `m`. */
  ghost function Sum(m: map<string, real>): real
  {
    if m == map[] then 0.0
    else
      var k :| k in m;
      m[k] + Sum(m - {k})
  }

  /** Any key can be taken out first. */
  lemma {:induction false} SumRemove(m: map<string, real>, k: string)
    requires k in m
    ensures Sum(m) == m[k] + Sum(m - {k})
    decreases |m|
  {
    var j :| j in m && Sum(m) == m[j] + Sum(m - {j});
    if j != k {
      SumRemove(m - {j}, k);
      SumRemove(m - {k}, j);
      assert m - {j} - {k} == m - {k} - {j};
    }
  }

  /** Setting one key replaces its old contribution, if any. */
  lemma SumUpdate(m: map<string, real>, k: string, v: real)
    ensures Sum(m[k := v]) == Sum(m - {k}) + v
    ensures Sum(m - {k}) == Sum(m) - (if k in m then m[k] else 0.0)
  {
    SumRemove(m[k := v], k);
    assert m[k := v] - {k} == m - {k};
    if k in m {
      SumRemove(m, k);
    } else {
      assert m - {k} == m;
    }
  }

  /** Sums add pointwise. */
  lemma {:induction false} SumPlus(a: map<string, real>, b: map<string, real>, c: map<string, real>)
    requires a.Keys == b.Keys == c.Keys
    requires forall k :: k in a ==> c[k] == a[k] + b[k]
    ensures Sum(c) == Sum(a) + Sum(b)
    decreases |a|
  {
    if a != map[] {
      var k :| k in a;
      SumRemove(a, k);
      SumRemove(b, k);
      SumRemove(c, k);
      SumPlus(a - {k}, b - {k}, c - {k});
    } else {
      assert b == map[] && c == map[];
    }
  }

  /** A sum bounded term by term is bounded as a whole. */
  lemma {:induction false} SumBounded(a: map<string, real>, b: map<string, real>)
    requires a.Keys == b.Keys
    requires forall k :: k in a ==> a[k] <= b[k]
    ensures Sum(a) <= Sum(b)
    decreases |a|
  {
    if a != map[] {
      var k :| k in a;
      SumRemove(a, k);
      SumRemove(b, k);
      SumBounded(a - {k}, b - {k});
    } else {
      assert b == map[];
    }
  }

  function Scale(f: real, x: real): real
  {
    f * x
  }

  lemma ScaleDistributes(f: real, x: real, y: real)
    ensures Scale(f, x + y) == Scale(f, x) + Scale(f, y) && Scale(f, x - y) == Scale(f, x) - Scale(f, y)
    ensures Scale(f, 0.0) == 0.0
  {
  }

  lemma ScalesCommute(f: real, g: real, x: real)
    ensures Scale(f, Scale(g, x)) == Scale(g, Scale(f, x)) && Scale(f, -x) == -Scale(f, x) && Scale(f, 0.0) == 0.0
  {
  }

  lemma ScaleKeepsOrder(f: real, a: real, b: real)
    requires f > 0.0
    ensures a < b <==> Scale(f, a) < Scale(f, b)
    ensures a <= b <==> Scale(f, a) <= Scale(f, b)
  {
    assert Scale(f, b) - Scale(f, a) == f * (b - a);
    if a < b {
      assert f * (b - a) > 0.0;
    } else if b < a {
      assert f * (a - b) > 0.0;
    }
  }

  lemma ScaleMonotone(f: real, g: real, x: real)
    requires f <= g && x >= 0.0
    ensures Scale(f, x) <= Scale(g, x)
    ensures f < g && x > 0.0 ==> Scale(f, x) < Scale(g, x)
  {
    var d := g - f;
    assert Scale(g, x) - Scale(f, x) == d * x;
    if d == 0.0 || x == 0.0 {
      assert d * x == 0.0;
    } else {
      assert d * x > 0.0;
    }
  }

  lemma ScaleSign(f: real, x: real)
    ensures f > 0.0 ==> (x <= 0.0 <==> Scale(f, x) <= 0.0)
    ensures f <= 0.0 && x >= 0.0 ==> Scale(f, x) <= 0.0
  {
    if f > 0.0 && x > 0.0 {
      assert f * x > 0.0;
    } else if f > 0.0 {
      assert f * -x >= 0.0;
    } else if x >= 0.0 {
      assert -f * x >= 0.0;
    }
  }

  lemma DivideThenMultiply(x: real, step: real, y: real)
    requires step > 0.0
    ensures y <= x / step <==> y * step <= x
    ensures y < x / step <==> y * step < x
  {
    var q := x / step;
    assert q * step == x;
    if y <= q {
      assert (q - y) * step >= 0.0;
    } else {
      assert (y - q) * step > 0.0;
    }
    if y < q {
      assert (q - y) * step > 0.0;
    }
  }

  /** Scaling every term scales the sum. */
  lemma {:induction false} SumScaled(a: map<string, real>, f: real, b: map<string, real>)
    requires a.Keys == b.Keys
    requires forall k :: k in a ==> b[k] == Scale(f, a[k])
    ensures Sum(b) == Scale(f, Sum(a))
    decreases |a|
  {
    if a != map[] {
      var k :| k in a;
      SumRemove(a, k);
      SumRemove(b, k);
      SumScaled(a - {k}, f, b - {k});
      ScaleDistributes(f, a[k], Sum(a - {k}));
    } else {
      assert b == map[];
      ScaleDistributes(f, 0.0, 0.0);
    }
  }

  function Abs(x: real): real
  {
    if x < 0.0 then -x else x
  }

  function Max(x: real, y: real): real
  {
    if x < y then y else x
  }

  function Min(x: real, y: real): real
  {
    if x < y then x else y
  }

  /** Python's `math.isclose` over exact reals. */
  predicate IsClose(a: real, b: real, rel: real, abs: real)
  {
    Abs(a - b) <= Max(rel * Max(Abs(a), Abs(b)), abs)
  }
}
