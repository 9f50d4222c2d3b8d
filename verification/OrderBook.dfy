/** Walking an order book: what a fill costs, why the walk is the cheapest way to fill, and how the cost
    behaves under growing and haircut quantities. */
module OrderBook {
  import opened Results
  import opened Sums
  import opened Lots

  datatype Level = Level(price: real, qty: real)
  datatype Side = Bids | Asks

  predicate Ordered(side: Side, before: real, after: real)
  {
    if side.Bids? then after < before else before < after
  }

  /** A ladder the validator lets through. */
  predicate Ladder(levels: seq<Level>, side: Side)
  {
    && (forall i | 0 <= i < |levels| :: levels[i].price > 0.0 && levels[i].qty > 0.0)
    && (forall i | 0 < i < |levels| :: Ordered(side, levels[i - 1].price, levels[i].price))
  }

  /** Best price first: bids strictly fall and asks strictly rise, all along the side. */
  predicate BestFirst(levels: seq<Level>, side: Side)
  {
    && (forall l | l in levels :: l.price > 0.0 && l.qty > 0.0)
    && forall i, j | 0 <= i < j < |levels| ::
         if side.Bids? then levels[i].price > levels[j].price else levels[i].price < levels[j].price
  }

  lemma {:induction false} LadderSorted(levels: seq<Level>, side: Side, i: nat, j: nat)
    requires Ladder(levels, side) && i < j < |levels|
    ensures if side.Bids? then levels[i].price > levels[j].price else levels[i].price < levels[j].price
  {
    assert Ordered(side, levels[j - 1].price, levels[j].price);
    if i < j - 1 {
      LadderSorted(levels, side, i, j - 1);
    }
  }

  lemma LadderIsBestFirst(levels: seq<Level>, side: Side)
    ensures Ladder(levels, side) <==> BestFirst(levels, side)
  {
    if Ladder(levels, side) {
      forall i, j | 0 <= i < j < |levels|
        ensures if side.Bids? then levels[i].price > levels[j].price else levels[i].price < levels[j].price
      {
        LadderSorted(levels, side, i, j);
      }
    }
    if BestFirst(levels, side) {
      assert forall i | 0 <= i < |levels| :: levels[i] in levels;
    }
  }

  method ValidateL2Side(raw: seq<Level>, side: Side) returns (r: Result<seq<Level>>)
    ensures r.Ok? <==> BestFirst(raw, side)
    ensures r.Ok? ==> Ladder(raw, side)
    ensures r.Ok? ==> r.value == raw
  {
    LadderIsBestFirst(raw, side);
    hide BestFirst;
    var normalized: seq<Level> := [];
    var prior: Option<real> := None;
    for i := 0 to |raw|
      invariant normalized == raw[..i] && Ladder(raw[..i], side)
      invariant prior == if i == 0 then None else Some(raw[i - 1].price)
    {
      if raw[i].price <= 0.0 || raw[i].qty <= 0.0 {
        return Err("fresh L2 requires positive finite price/qty");
      }
      if prior.Some? && !Ordered(side, prior.value, raw[i].price) {
        return Err("fresh L2 must be unique and strictly ordered");
      }
      normalized := normalized + [raw[i]];
      prior := Some(raw[i].price);
      assert raw[..i + 1] == raw[..i] + [raw[i]];
    }
    assert raw[..|raw|] == raw;
    return Ok(normalized);
  }

  // ----- The walk -----

  datatype Walked = Walked(filled: real, cost: real)

  /** The walk for `remaining`, with its early stop. */
  function Walk(levels: seq<Level>, remaining: real): Walked
  {
    if levels == [] then Walked(0.0, 0.0)
    else
      var l := levels[0];
      var take := Min(remaining, l.qty);
      if remaining - take <= DUST then Walked(take, Scale(l.price, take))
      else
        var rest := Walk(levels[1..], remaining - take);
        Walked(take + rest.filled, Scale(l.price, take) + rest.cost)
  }

  function Plus(a: Walked, b: Walked): Walked
  {
    Walked(a.filled + b.filled, a.cost + b.cost)
  }

  function Average(w: Walked): real
  {
    if w.filled > 0.0 then w.cost / w.filled else 0.0
  }

  function Fill(levels: seq<Level>, qty: real): Walked
  {
    if qty <= 0.0 || levels == [] then Walked(0.0, 0.0) else Walk(levels, qty)
  }

  /** Filled quantity and volume-weighted average price. */
  method VwapFill(levels: seq<Level>, qty: real) returns (filled: real, vwap: real)
    ensures filled == Fill(levels, qty).filled && vwap == Average(Fill(levels, qty))
  {
    if qty <= 0.0 || levels == [] {
      return 0.0, 0.0;
    }
    hide Scale;
    var remaining, cost := qty, 0.0;
    filled := 0.0;
    var stopped := false;
    var i := 0;
    while i < |levels| && !stopped
      invariant 0 <= i <= |levels|
      invariant stopped ==> Walked(filled, cost) == Walk(levels, qty)
      invariant !stopped ==> remaining > DUST || i == 0
      invariant stopped || Walk(levels, qty) == Plus(Walked(filled, cost), Walk(levels[i..], remaining))
      decreases |levels| - i, !stopped
    {
      var take := Min(remaining, levels[i].qty);
      cost := cost + Scale(levels[i].price, take);
      filled := filled + take;
      remaining := remaining - take;
      assert levels[i..][1..] == levels[i + 1..];
      if remaining <= DUST {
        stopped := true;
      } else {
        i := i + 1;
      }
    }
    vwap := if filled > 0.0 then cost / filled else 0.0;
  }

  // ----- The cheapest fill -----

  function Total(levels: seq<Level>): real
  {
    if levels == [] then 0.0 else levels[0].qty + Total(levels[1..])
  }

  /** The cost of the first `x` contracts of the ladder. */
  function Cheapest(levels: seq<Level>, x: real): real
  {
    if levels == [] then 0.0
    else if x <= levels[0].qty then Scale(levels[0].price, x)
    else Scale(levels[0].price, levels[0].qty) + Cheapest(levels[1..], x - levels[0].qty)
  }

  lemma LadderTail(levels: seq<Level>)
    requires Ladder(levels, Asks) && levels != []
    ensures Ladder(levels[1..], Asks) && Above(levels[1..], levels[0].price)
  {
    var rest := levels[1..];
    forall i | 0 < i < |rest| ensures Ordered(Asks, rest[i - 1].price, rest[i].price) {
      assert Ordered(Asks, levels[i].price, levels[i + 1].price);
    }
  }

  /** The ladder starts above `p`; being ascending, all of it is. */
  predicate Above(levels: seq<Level>, p: real)
  {
    levels != [] ==> p < levels[0].price
  }

  /** Every further contract costs at least the first price still ahead. */
  lemma {:induction false} FurtherContracts(levels: seq<Level>, p: real, x: real, y: real)
    requires Ladder(levels, Asks) && (levels != [] ==> p <= levels[0].price)
    requires 0.0 <= x <= y <= Total(levels)
    ensures Cheapest(levels, y) >= Cheapest(levels, x) + Scale(p, y - x)
    decreases |levels|
  {
    hide Scale, Ladder;
    if levels == [] {
      ScaleDistributes(p, 0.0, 0.0);
    } else {
      LadderTail(levels);
      var l := levels[0];
      if y <= l.qty {
        ScaleDistributes(l.price, y, x);
        ScaleMonotone(p, l.price, y - x);
      } else if x <= l.qty {
        FurtherContracts(levels[1..], p, 0.0, y - l.qty);
        CheapestOfNothing(levels[1..]);
        ScaleDistributes(l.price, l.qty, x);
        ScaleMonotone(p, l.price, l.qty - x);
        ScaleDistributes(p, l.qty - x, y - l.qty);
      } else {
        FurtherContracts(levels[1..], p, x - l.qty, y - l.qty);
      }
    }
  }

  lemma CheapestOfNothing(levels: seq<Level>)
    requires Ladder(levels, Asks)
    ensures Cheapest(levels, 0.0) == 0.0
  {
    if levels != [] {
      ScaleDistributes(levels[0].price, 0.0, 0.0);
    }
  }

  /** Taking some quantity from each level. */
  predicate Takes(levels: seq<Level>, taken: seq<real>)
  {
    |taken| == |levels| && forall i | 0 <= i < |levels| :: 0.0 <= taken[i] <= levels[i].qty
  }

  function Quantity(taken: seq<real>): real
  {
    if taken == [] then 0.0 else taken[0] + Quantity(taken[1..])
  }

  function CostOf(levels: seq<Level>, taken: seq<real>): real
    requires |taken| == |levels|
  {
    if levels == [] then 0.0 else Scale(levels[0].price, taken[0]) + CostOf(levels[1..], taken[1..])
  }

  lemma {:induction false} QuantityWithinTotal(levels: seq<Level>, taken: seq<real>)
    requires Takes(levels, taken)
    ensures 0.0 <= Quantity(taken) <= Total(levels)
  {
    if levels == [] {
    } else {
      QuantityWithinTotal(levels[1..], taken[1..]);
    }
  }

  lemma {:induction false} NothingIsCheaper(levels: seq<Level>, taken: seq<real>)
    requires Ladder(levels, Asks) && Takes(levels, taken)
    ensures CostOf(levels, taken) >= Cheapest(levels, Quantity(taken))
  {
    hide Scale, Ladder;
    if levels == [] {
    } else {
      LadderTail(levels);
      var l, a, rest := levels[0], taken[0], levels[1..];
      var x := Quantity(taken);
      NothingIsCheaper(rest, taken[1..]);
      QuantityWithinTotal(rest, taken[1..]);
      if x <= l.qty {
        FurtherContracts(rest, l.price, 0.0, x - a);
        CheapestOfNothing(rest);
        ScaleDistributes(l.price, a, x - a);
      } else {
        FurtherContracts(rest, l.price, x - l.qty, x - a);
        ScaleDistributes(l.price, a, l.qty - a);
      }
    }
  }

  lemma {:induction false} WalkIsCheapest(levels: seq<Level>, remaining: real)
    requires Ladder(levels, Asks) && remaining > 0.0
    ensures var w := Walk(levels, remaining);
      && w.cost == Cheapest(levels, w.filled) && 0.0 <= w.filled <= remaining && w.filled <= Total(levels)
      && (w.filled == Total(levels) || w.filled >= remaining - DUST)
      && (levels != [] ==> w.filled > 0.0)
  {
    hide Scale, Ladder;
    if levels == [] {
    } else {
      LadderTail(levels);
      assert levels[0].qty > 0.0 by { LevelsArePositive(levels); }
      TotalIsPositive(levels[1..]);
      var take := Min(remaining, levels[0].qty);
      if remaining - take > DUST {
        WalkIsCheapest(levels[1..], remaining - take);
        if levels[1..] == [] {
          ScaleDistributes(levels[0].price, 0.0, 0.0);
        }
      }
    }
  }

  lemma LevelsArePositive(levels: seq<Level>)
    requires Ladder(levels, Asks) && levels != []
    ensures levels[0].qty > 0.0 && levels[0].price > 0.0
  {
  }

  lemma {:induction false} TotalIsPositive(levels: seq<Level>)
    requires Ladder(levels, Asks)
    ensures Total(levels) >= 0.0
  {
    if levels == [] {
    } else {
      LadderTail(levels);
      TotalIsPositive(levels[1..]);
    }
  }

  /** The walk fills the quantity, up to dust, or the whole ladder, and no other way of taking what it
      filled costs less. */
  lemma FillIsCheapest(levels: seq<Level>, qty: real, taken: seq<real>)
    requires Ladder(levels, Asks) && Takes(levels, taken) && Quantity(taken) == Fill(levels, qty).filled
    ensures CostOf(levels, taken) >= Fill(levels, qty).cost
    ensures qty > 0.0 ==> var filled := Fill(levels, qty).filled;
      filled <= qty && (filled == Total(levels) || filled >= qty - DUST)
  {
    NothingIsCheaper(levels, taken);
    if qty > 0.0 && levels != [] {
      WalkIsCheapest(levels, qty);
    } else {
      CheapestOfNothing(levels);
    }
    hide Ladder, Scale, Cheapest;
  }

  // ----- Growing quantities -----

  /** The price at which the `x`-th contract is taken. */
  function Marginal(levels: seq<Level>, x: real): real
  {
    if levels == [] then 0.0
    else if x <= levels[0].qty || |levels| == 1 then levels[0].price
    else Marginal(levels[1..], x - levels[0].qty)
  }

  lemma {:induction false} MarginalBounds(levels: seq<Level>, x: real, y: real)
    requires Ladder(levels, Asks) && levels != [] && 0.0 < x <= y <= Total(levels)
    ensures var m := Marginal(levels, x);
      m >= levels[0].price && Cheapest(levels, x) <= Scale(m, x)
        && Cheapest(levels, y) >= Cheapest(levels, x) + Scale(m, y - x)
  {
    hide Scale, Ladder;
    LadderTail(levels);
    var l, rest := levels[0], levels[1..];
    assert l.qty > 0.0 by { LevelsArePositive(levels); }
    if x <= l.qty {
      FurtherContracts(levels, l.price, x, y);
    } else {
      assert rest != [];
      MarginalBounds(rest, x - l.qty, y - l.qty);
      ScaleMonotone(l.price, Marginal(levels, x), l.qty);
      ScaleDistributes(Marginal(levels, x), l.qty, x - l.qty);
    }
  }

  lemma AveragesCompare(c: real, x: real, m: real, d: real, y: real)
    requires 0.0 < x <= y && c <= Scale(m, x) && d >= c + Scale(m, y - x)
    ensures c / x <= d / y
    ensures d > c + Scale(m, y - x) ==> c / x < d / y
  {
    var a := c / x;
    assert Scale(m, x) == m * x && a * x == c;
    DivideThenMultiply(c, x, m);
    ScaleMonotone(a, m, y - x);
    assert a * y == c + Scale(a, y - x);
    DivideThenMultiply(d, y, a);
  }

  lemma {:induction false} WalkGrows(levels: seq<Level>, x: real, y: real)
    requires Ladder(levels, Asks) && 0.0 < x <= y
    ensures Walk(levels, x).filled <= Walk(levels, y).filled
  {
    hide Scale, Ladder;
    if levels == [] {
    } else {
      LadderTail(levels);
      assert levels[0].qty > 0.0 by { LevelsArePositive(levels); }
      var take := Min(x, levels[0].qty);
      if x - take > DUST {
        WalkGrows(levels[1..], x - take, y - take);
      } else if y - Min(y, levels[0].qty) > DUST {
        WalkIsCheapest(levels[1..], y - Min(y, levels[0].qty));
      }
    }
  }

  /** The average price never falls as the quantity grows. */
  lemma AverageNeverFalls(levels: seq<Level>, x: real, y: real)
    requires Ladder(levels, Asks) && x <= y
    ensures Average(Fill(levels, x)) <= Average(Fill(levels, y))
  {
    hide Scale, Ladder;
    if levels != [] && y > 0.0 {
      WalkIsCheapest(levels, y);
      if x > 0.0 {
        WalkIsCheapest(levels, x);
        WalkGrows(levels, x, y);
        var a, b := Walk(levels, x), Walk(levels, y);
        MarginalBounds(levels, a.filled, b.filled);
        AveragesCompare(a.cost, a.filled, Marginal(levels, a.filled), b.cost, b.filled);
      } else {
        assert Average(Fill(levels, y)) >= 0.0 by { CostIsPositive(levels, y); }
      }
    }
  }

  lemma CostIsPositive(levels: seq<Level>, y: real)
    requires Ladder(levels, Asks) && y > 0.0
    ensures Average(Walk(levels, y)) >= 0.0 && Average(Fill(levels, y)) >= 0.0
  {
    WalkIsCheapest(levels, y);
    FurtherContracts(levels, 0.0, 0.0, Walk(levels, y).filled);
    CheapestOfNothing(levels);
    var w := Walk(levels, y);
    assert Scale(0.0, w.filled) == 0.0;
    hide Walk, Cheapest, Ladder;
    if w.filled > 0.0 {
      QuotientOfPositives(w.cost, w.filled);
    }
  }

  lemma QuotientOfPositives(c: real, x: real)
    requires c >= 0.0 && x > 0.0
    ensures c / x >= 0.0
  {
  }

  // ----- Haircut depth -----

  /** The same prices with every size scaled by `f`. */
  function Haircut(levels: seq<Level>, f: real): (cut: seq<Level>)
    ensures |cut| == |levels|
    ensures forall i | 0 <= i < |levels| :: cut[i] == Level(levels[i].price, Scale(f, levels[i].qty))
  {
    seq(|levels|, i requires 0 <= i < |levels| => Level(levels[i].price, Scale(f, levels[i].qty)))
  }

  /** At some level boundary short of the last level, what is left is more than dust but its haircut is not:
      the haircut walk stops there and the full one goes on. */
  predicate DustGap(levels: seq<Level>, remaining: real, f: real)
  {
    levels != [] &&
    var rest := remaining - Min(remaining, levels[0].qty);
    rest > DUST && if Scale(f, rest) <= DUST then |levels| > 1 else DustGap(levels[1..], rest, f)
  }

  lemma HaircutSteps(levels: seq<Level>, remaining: real, f: real)
    requires 0.0 < f <= 1.0 && levels != [] && levels[0].qty > 0.0 && remaining > 0.0
    ensures Haircut(levels, f)[1..] == Haircut(levels[1..], f)
    ensures var take := Min(remaining, levels[0].qty);
      && Min(Scale(f, remaining), Scale(f, levels[0].qty)) == Scale(f, take)
      && Scale(f, remaining) - Scale(f, take) == Scale(f, remaining - take)
      && Scale(f, remaining - take) <= remaining - take && Scale(f, take) > 0.0
      && (remaining - take > 0.0 ==> Scale(f, remaining - take) > 0.0)
      && Scale(levels[0].price, Scale(f, take)) == Scale(f, Scale(levels[0].price, take))
  {
    var take := Min(remaining, levels[0].qty);
    ScaleDistributes(f, remaining, take);
    ScaleDistributes(f, levels[0].qty, remaining);
    assert (1.0 - f) * (remaining - take) >= 0.0;
    assert f * take > 0.0;
    if remaining <= levels[0].qty {
      assert f * (levels[0].qty - remaining) >= 0.0;
    } else {
      assert f * (remaining - levels[0].qty) > 0.0;
    }
  }

  /** Outside the gap the haircut walk is the full walk, scaled. */
  lemma {:induction false} ScaledWalk(levels: seq<Level>, remaining: real, f: real)
    requires Ladder(levels, Asks) && 0.0 < f <= 1.0 && remaining > 0.0 && !DustGap(levels, remaining, f)
    ensures var w, cut := Walk(levels, remaining), Walk(Haircut(levels, f), Scale(f, remaining));
      cut.filled == Scale(f, w.filled) && cut.cost == Scale(f, w.cost)
  {
    hide Scale, Ladder;
    if levels == [] {
      ScaleDistributes(f, 0.0, 0.0);
    } else {
      LadderTail(levels);
      LevelsArePositive(levels);
      HaircutSteps(levels, remaining, f);
      var take := Min(remaining, levels[0].qty);
      if remaining - take > DUST {
        if Scale(f, remaining - take) <= DUST {
          assert levels[1..] == [];
        } else {
          ScaledWalk(levels[1..], remaining - take, f);
        }
        var rest := Walk(levels[1..], remaining - take);
        ScaleDistributes(f, take, rest.filled);
        ScaleDistributes(f, Scale(levels[0].price, take), rest.cost);
      }
    }
  }

  /** Inside the gap it stops at a boundary that the full walk passes, at strictly higher prices. */
  lemma {:induction false} GapStopsEarly(levels: seq<Level>, remaining: real, f: real) returns (short: Walked, m: real)
    requires Ladder(levels, Asks) && 0.0 < f <= 1.0 && remaining > 0.0 && DustGap(levels, remaining, f)
    ensures Walk(Haircut(levels, f), Scale(f, remaining)) == Walked(Scale(f, short.filled), Scale(f, short.cost))
    ensures var w := Walk(levels, remaining);
      && 0.0 < short.filled < w.filled && m >= levels[0].price
      && short.cost <= Scale(m, short.filled) && w.cost > short.cost + Scale(m, w.filled - short.filled)
  {
    hide Scale, Ladder;
    LadderTail(levels);
    LevelsArePositive(levels);
    HaircutSteps(levels, remaining, f);
    var p, rest := levels[0].price, levels[1..];
    var take := Min(remaining, levels[0].qty);
    if Scale(f, remaining - take) <= DUST {
      short, m := Walked(take, Scale(p, take)), p;
      assert rest != [];
      WalkIsCheapest(rest, remaining - take);
      var further := Walk(rest, remaining - take);
      FurtherContracts(rest, rest[0].price, 0.0, further.filled);
      CheapestOfNothing(rest);
      ScaleMonotone(p, rest[0].price, further.filled);
    } else {
      short, m := GapStopsEarly(rest, remaining - take, f);
      ScaleDistributes(f, take, short.filled);
      ScaleDistributes(f, Scale(p, take), short.cost);
      ScaleMonotone(p, m, take);
      ScaleDistributes(m, take, short.filled);
      short := Walked(take + short.filled, Scale(p, take) + short.cost);
    }
  }

  lemma AverageOfScaled(c: real, x: real, f: real)
    requires f > 0.0 && x > 0.0
    ensures Scale(f, x) > 0.0 && Scale(f, c) / Scale(f, x) == c / x
  {
    var a := c / x;
    assert a * x == c;
    assert a * (f * x) == f * c;
  }

  lemma HaircutFill(levels: seq<Level>, qty: real, f: real)
    requires 0.0 < f <= 1.0
    ensures Fill(Haircut(levels, f), Scale(f, qty)) ==
      if qty <= 0.0 || levels == [] then Walked(0.0, 0.0) else Walk(Haircut(levels, f), Scale(f, qty))
  {
    ScaleSign(f, qty);
    hide Scale, Walk;
  }

  /** Scaling every size and the quantity keeps the average price exactly when no boundary remainder falls
      into the dust gap; inside the gap the haircut walk reports a strictly lower price. */
  lemma HaircutKeepsAverageExactly(levels: seq<Level>, qty: real, f: real)
    requires Ladder(levels, Asks) && levels != [] && qty > 0.0 && 0.0 < f <= 1.0
    ensures var full, cut := Average(Fill(levels, qty)), Average(Fill(Haircut(levels, f), Scale(f, qty)));
      && (cut == full <==> !DustGap(levels, qty, f))
      && cut <= full
  {
    HaircutFill(levels, qty, f);
    WalkIsCheapest(levels, qty);
    var w := Walk(levels, qty);
    if DustGap(levels, qty, f) {
      var short, m := GapStopsEarly(levels, qty, f);
      AverageOfScaled(short.cost, short.filled, f);
      AveragesCompare(short.cost, short.filled, m, w.cost, w.filled);
    } else {
      ScaledWalk(levels, qty, f);
      AverageOfScaled(w.cost, w.filled, f);
    }
    hide Ladder, Scale, Cheapest, Walk;
  }

  /** The gap occurs at a size the code can be asked for: the second level is worth 1.5 dusts in the full
      walk and less than one in the haircut, whose average leaves it out. */
  lemma HaircutCanCheapen()
    ensures var levels, qty, f := [Level(100.0, 1.0), Level(101.0, 1.0)], 1.0000000000015, 0.5;
      && Ladder(levels, Asks) && DustGap(levels, qty, f)
      && Average(Fill(Haircut(levels, f), Scale(f, qty))) < Average(Fill(levels, qty))
  {
    var levels, qty, f := [Level(100.0, 1.0), Level(101.0, 1.0)], 1.0000000000015, 0.5;
    assert Ladder(levels, Asks) && DustGap(levels, qty, f);
    HaircutKeepsAverageExactly(levels, qty, f);
    hide Ladder, DustGap, Scale, Walk, Haircut;
  }

  // ----- The measured curve -----

  /** One tier of a measured slippage curve: an order size and the average price the full ladder gave it. */
  datatype Tier = Tier(notional: real, price: real)

  function Measured(levels: seq<Level>, mid: real, sizes: seq<real>): (curve: seq<Tier>)
    requires mid > 0.0
    ensures |curve| == |sizes|
    ensures forall i | 0 <= i < |sizes| :: curve[i] == Tier(sizes[i], Average(Fill(levels, sizes[i] / mid)))
  {
    seq(|sizes|, i requires 0 <= i < |sizes| => Tier(sizes[i], Average(Fill(levels, sizes[i] / mid))))
  }

  /** The price of the smallest tier that covers the looked-up size; none beyond the widest. */
  method CurveLookup(curve: seq<Tier>, notional: real, f: real) returns (price: Option<real>)
    requires f > 0.0
    ensures price == Lookup(curve, notional / f)
  {
    for i := 0 to |curve|
      invariant Lookup(curve, notional / f) == Lookup(curve[i..], notional / f)
    {
      if notional / f <= curve[i].notional {
        return Some(curve[i].price);
      }
      assert curve[i..][1..] == curve[i + 1..];
    }
    return None;
  }

  function Lookup(curve: seq<Tier>, size: real): Option<real>
  {
    if curve == [] then None
    else if size <= curve[0].notional then Some(curve[0].price)
    else Lookup(curve[1..], size)
  }

  lemma {:induction false} LookupFindsTier(curve: seq<Tier>, size: real)
    requires Lookup(curve, size).Some?
    ensures exists i | 0 <= i < |curve| :: size <= curve[i].notional && curve[i].price == Lookup(curve, size).value
  {
    if size > curve[0].notional {
      LookupFindsTier(curve[1..], size);
      var i :| 0 <= i < |curve[1..]| && size <= curve[1..][i].notional
          && curve[1..][i].price == Lookup(curve, size).value;
      assert curve[i + 1] == curve[1..][i];
    }
  }

  /** A curve measured on the full book, looked up at the haircut-adjusted size, never understates what the
      order pays on the haircut book. */
  lemma LookupIsConservative(levels: seq<Level>, mid: real, sizes: seq<real>, notional: real, f: real)
    requires Ladder(levels, Asks) && mid > 0.0 && 0.0 < f <= 1.0
    requires Lookup(Measured(levels, mid, sizes), notional / f).Some?
    ensures Average(Fill(Haircut(levels, f), notional / mid))
         <= Lookup(Measured(levels, mid, sizes), notional / f).value
  {
    var curve, size := Measured(levels, mid, sizes), notional / f;
    LookupFindsTier(curve, size);
    var i :| 0 <= i < |curve| && size <= curve[i].notional && curve[i].price == Lookup(curve, size).value;
    var qty := size / mid;
    ContractsOf(notional, f, mid, sizes[i]);
    AverageNeverFalls(levels, qty, sizes[i] / mid);
    hide Ladder, Scale, Average, Fill, Lookup;
    HaircutNeverDearer(levels, qty, f);
  }

  lemma HaircutNeverDearer(levels: seq<Level>, qty: real, f: real)
    requires Ladder(levels, Asks) && 0.0 < f <= 1.0
    ensures Average(Fill(Haircut(levels, f), Scale(f, qty))) <= Average(Fill(levels, qty))
  {
    HaircutFill(levels, qty, f);
    if levels != [] && qty > 0.0 {
      HaircutKeepsAverageExactly(levels, qty, f);
    }
    hide Ladder, Scale, Walk, Haircut;
  }

  lemma ContractsOf(notional: real, f: real, mid: real, tier: real)
    requires f > 0.0 && mid > 0.0 && notional / f <= tier
    ensures Scale(f, notional / f / mid) == notional / mid
    ensures notional / f / mid <= tier / mid
  {
    var size := notional / f;
    assert f * size == notional;
    var qty := size / mid;
    assert qty * mid == size;
    assert (f * qty) * mid == notional;
    DivideThenMultiply(tier, mid, qty);
  }
}
