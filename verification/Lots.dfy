/** Quantities in whole exchange lots. */
module Lots {
  import opened Results
  import opened Sums

  /** The quantity of `units` lots. */
  function Qty(units: int, step: real): real
  {
    units as real * step
  }

  /** How many lots fit under `x`, and how many it takes to reach it. */
  function UnitsUnder(x: real, step: real): int
    requires step > 0.0
  {
    (x / step).Floor
  }

  function UnitsOver(x: real, step: real): int
    requires step > 0.0
  {
    -(-x / step).Floor
  }

  lemma QtyMonotone(a: int, b: int, step: real)
    requires step > 0.0
    ensures a <= b <==> Qty(a, step) <= Qty(b, step)
    ensures a < b <==> Qty(a, step) < Qty(b, step)
  {
    var d := (b - a) as real;
    assert Qty(b, step) - Qty(a, step) == d * step;
    if a < b {
      assert d * step > 0.0;
    } else if b < a {
      assert -d * step > 0.0;
    }
  }

  lemma QtyAdds(a: int, b: int, step: real)
    ensures Qty(a + b, step) == Qty(a, step) + Qty(b, step) && Qty(-a, step) == -Qty(a, step) && Qty(0, step) == 0.0
  {
  }

  /** `UnitsUnder` is exactly the largest number of lots not above `x`. */
  lemma UnderIsExact(units: int, x: real, step: real)
    requires step > 0.0
    ensures units <= UnitsUnder(x, step) <==> Qty(units, step) <= x
  {
    DivideThenMultiply(x, step, units as real);
    if units <= (x / step).Floor {
      assert units as real <= x / step;
    }
  }

  /** `UnitsOver` is exactly the smallest number of lots not below `x`. */
  lemma OverIsExact(units: int, x: real, step: real)
    requires step > 0.0
    ensures units >= UnitsOver(x, step) <==> Qty(units, step) >= x
  {
    UnderIsExact(-units, -x, step);
    QtyAdds(units, 0, step);
  }

  /** Rounds a signed quantity toward zero to a lot step. */
  function Quantize(q: real, step: real): Result<real>
  {
    if step <= 0.0 then Err("step size must be positive")
    else
      var size := Qty(UnitsUnder(Abs(q), step), step);
      Ok(if q < 0.0 then -size else size)
  }

  /** The quantized size is the largest whole number of lots within the quantity, on its side. */
  lemma QuantizedIsLargestWithin(q: real, step: real)
    requires step > 0.0
    ensures var r := Quantize(q, step).value;
      && Abs(r) <= Abs(q) < Abs(r) + step
      && (q >= 0.0 ==> r >= 0.0) && (q <= 0.0 ==> r <= 0.0)
      && exists units: nat ::
           Abs(r) == Qty(units, step) && forall more: int :: Qty(more, step) <= Abs(q) ==> more <= units
  {
    var units := UnitsUnder(Abs(q), step);
    UnderIsExact(units, Abs(q), step);
    UnderIsExact(units + 1, Abs(q), step);
    UnderIsExact(0, Abs(q), step);
    QtyAdds(units, 1, step);
    QtyMonotone(0, units, step);
    assert Qty(1, step) == step;
    forall more: int | Qty(more, step) <= Abs(q) ensures more <= units {
      UnderIsExact(more, Abs(q), step);
    }
    hide Qty, UnitsUnder;
    assert units as nat == units;
  }

  /** Whole lots are left alone. */
  lemma QuantizeIsIdempotent(units: int, step: real)
    requires step > 0.0
    ensures Quantize(Qty(units, step), step) == Ok(Qty(units, step))
  {
    var n := if units < 0 then -units else units;
    QtyAdds(units, 0, step);
    QtyMonotone(0, units, step);
    assert Abs(Qty(units, step)) == Qty(n, step);
    UnderIsExact(n, Qty(n, step), step);
    UnderIsExact(n + 1, Qty(n, step), step);
    QtyMonotone(n, n + 1, step);
    hide Qty, UnitsUnder;
    QtyMonotone(units, 0, step);
    if units == 0 {
      QtyAdds(0, 0, step);
    }
  }
}
