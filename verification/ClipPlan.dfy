/** Splitting one aggregate position change into market-order clips the exchange accepts. */
module ClipPlan {
  import opened Results
  import opened Sums
  import opened Lots

  const MAX_CLIPS: int := 100

  /** The exchange's filters for one symbol at one mark. */
  datatype Filters = Filters(step: real, minQty: real, maxQty: Option<real>, minNotional: real, mark: real)

  predicate Domains(f: Filters)
  {
    f.step > 0.0 && f.minQty >= 0.0 && f.minNotional >= 0.0 && f.mark > 0.0
  }

  function RoundHalfEven(x: real): int
  {
    var low := x.Floor;
    var part := x - low as real;
    if part < 0.5 || (part == 0.5 && low % 2 == 0) then low else low + 1
  }

  /** The number of lots the quantity stands for, when it is a whole number of them up to rounding. */
  function AlignedUnits(q: real, step: real): Option<int>
    requires step > 0.0
  {
    var units := RoundHalfEven(Abs(q) / step);
    if units > 0 && IsClose(Qty(units, step), Abs(q), DUST, Max(DUST, step * 0.000000001)) then Some(units) else None
  }

  /** `n` is the nearest integer, the even one of two equally near. */
  predicate Nearest(x: real, n: int)
  {
    n as real - 0.5 <= x <= n as real + 0.5 && (x == n as real - 0.5 || x == n as real + 0.5 ==> n % 2 == 0)
  }

  lemma RoundsToNearest(x: real, n: int)
    ensures RoundHalfEven(x) == n <==> Nearest(x, n)
  {
    var low := x.Floor;
    if Nearest(x, n) {
      assert n == low || n == low + 1;
    }
  }

  /** A quantity stands for `n` lots exactly when that is the nearest positive number of lots and lies within
      a relative 1e-12, an absolute 1e-12 or a billionth of a lot of it. */
  lemma AlignedExactly(q: real, step: real, n: int)
    requires step > 0.0
    ensures AlignedUnits(q, step) == Some(n) <==>
      && n > 0 && Nearest(Abs(q) / step, n)
      && var gap := Abs(n as real * step - Abs(q));
         || gap <= 0.000000000001 || gap <= step * 0.000000001
         || gap <= 0.000000000001 * Abs(q) || gap <= 0.000000000001 * (n as real * step)
  {
    hide RoundHalfEven, Nearest;
    RoundsToNearest(Abs(q) / step, n);
    if n > 0 {
      QtyMonotone(0, n, step);
      QtyAdds(0, 0, step);
    }
  }

  lemma ScalePositive(f: Filters)
    requires Domains(f)
    ensures Scale(f.mark, f.step) > 0.0
  {
  }

  function MinUnits(f: Filters): (least: int)
    requires Domains(f)
    ensures least >= 1
  {
    ScalePositive(f);
    var byQty, byNotional := UnitsOver(f.minQty, f.step), UnitsOver(f.minNotional, Scale(f.mark, f.step));
    var least := if byQty < byNotional then byNotional else byQty;
    if least < 1 then 1 else least
  }

  // ----- Splitting a number of lots -----

  /** The sizes of the clips in lots: as few as the upper bound allows, and as even as possible. */
  function Sizes(units: int, low: int, high: int): Result<seq<int>>
    requires units > 0 && low > 0 && high > 0
  {
    var count := CountFor(units, high);
    if count > MAX_CLIPS then Err("aggregate change needs too many market-order clips")
    else if units < count * low then Err("maxQty cannot be reconciled with minimum order filters")
    else Ok(Divided(units / count, units % count, count))
  }

  function Divided(base: int, extra: int, count: nat): (sizes: seq<int>)
    ensures |sizes| == count
    ensures forall i | 0 <= i < count :: sizes[i] == base + if i < extra then 1 else 0
  {
    seq(count, i => base + if i < extra then 1 else 0)
  }

  function Total(sizes: seq<int>): int
  {
    if sizes == [] then 0 else Total(sizes[..|sizes| - 1]) + sizes[|sizes| - 1]
  }

  /** Some number of clips, each between the bounds, that add up to `units`. */
  predicate Splits(sizes: seq<int>, units: int, low: int, high: int)
  {
    && 0 < |sizes| <= MAX_CLIPS && Total(sizes) == units
    && forall i | 0 <= i < |sizes| :: low <= sizes[i] <= high
  }

  lemma {:induction false} TotalBounded(sizes: seq<int>, low: int, high: int)
    requires forall i | 0 <= i < |sizes| :: low <= sizes[i] <= high
    ensures |sizes| * low <= Total(sizes) <= |sizes| * high
  {
    if sizes == [] {
    } else {
      TotalBounded(sizes[..|sizes| - 1], low, high);
    }
  }

  lemma {:induction false} TotalDivided(base: int, extra: int, count: nat)
    requires extra >= 0
    ensures Total(Divided(base, extra, count)) == count * base + if extra < count then extra else count
  {
    var sizes := Divided(base, extra, count);
    if count > 0 {
      assert sizes[..count - 1] == Divided(base, extra, count - 1);
      TotalDivided(base, extra, count - 1);
    }
  }

  function Times(a: int, b: int): int
  {
    a * b
  }

  lemma TimesMonotone(a: int, b: int, c: int)
    requires c > 0
    ensures a < b <==> Times(a, c) < Times(b, c)
    ensures a <= b <==> Times(a, c) <= Times(b, c)
  {
    assert Times(b, c) - Times(a, c) == (b - a) * c;
    if a < b {
      assert (b - a) * c > 0;
    } else if b < a {
      assert (a - b) * c > 0;
    }
  }

  function CountFor(units: int, high: int): int
    requires high > 0
  {
    (units + high - 1) / high
  }

  /** The number of clips is the least that the upper bound allows. */
  lemma CountIsLeast(units: int, high: int, count: int)
    requires high > 0
    ensures count >= CountFor(units, high) <==> Times(count, high) >= units
  {
    var least := CountFor(units, high);
    assert units <= Times(least, high) && Times(least - 1, high) < units;
    hide Times, CountFor;
    TimesMonotone(least, count, high);
    TimesMonotone(count, least - 1, high);
  }

  /** The even split is within the bounds. */
  lemma EvenSplitFits(units: int, low: int, high: int, count: int)
    requires count > 0 && Times(low, count) <= units <= Times(high, count)
    ensures low <= units / count && units / count + (if units % count > 0 then 1 else 0) <= high
  {
    var base := units / count;
    assert units == Times(base, count) + units % count && Times(base + 1, count) == Times(base, count) + count;
    hide Times;
    TimesMonotone(low, base + 1, count);
    TimesMonotone(base, high, count);
  }

  lemma AnySplitBounds(sizes: seq<int>, units: int, low: int, high: int)
    requires Splits(sizes, units, low, high) && high > 0 && low > 0
    ensures var count := CountFor(units, high); count <= |sizes| && Times(low, count) <= units
  {
    var count := CountFor(units, high);
    TotalBounded(sizes, low, high);
    assert Times(|sizes|, high) == |sizes| * high && Times(|sizes|, low) == |sizes| * low == Times(low, |sizes|);
    CountIsLeast(units, high, |sizes|);
    assert Times(count, low) == Times(low, count);
    hide Times, CountFor, Total;
    if count < |sizes| {
      TimesMonotone(count, |sizes|, low);
    }
  }

  lemma PlanSplits(units: int, low: int, high: int)
    requires units > 0 && low > 0 && high > 0 && Sizes(units, low, high).Ok?
    ensures var plan := Sizes(units, low, high).value;
      Splits(plan, units, low, high) && |plan| == CountFor(units, high)
      && forall i, j | 0 <= i < |plan| && 0 <= j < |plan| :: plan[i] - plan[j] <= 1
  {
    var count := CountFor(units, high);
    CountIsLeast(units, high, count);
    CountIsLeast(units, high, 0);
    assert Times(0, high) == 0 && Times(count, low) == count * low == Times(low, count);
    assert Times(high, count) == Times(count, high);
    EvenSplitFits(units, low, high, count);
    TotalDivided(units / count, units % count, count);
    assert count * (units / count) + units % count == units;
    hide Times, Total;
  }

  /** A split exists exactly when the plan succeeds; the plan is one, with the fewest clips possible, whose
      sizes differ by at most one lot. */
  lemma SizesAreExact(units: int, low: int, high: int)
    requires units > 0 && low > 0 && high > 0
    ensures Sizes(units, low, high).Ok? <==> exists sizes :: Splits(sizes, units, low, high)
    ensures Sizes(units, low, high).Ok? ==>
      var plan := Sizes(units, low, high).value;
      && Splits(plan, units, low, high)
      && (forall sizes :: Splits(sizes, units, low, high) ==> |plan| <= |sizes|)
      && (forall i, j | 0 <= i < |plan| && 0 <= j < |plan| :: plan[i] - plan[j] <= 1)
  {
    var count := CountFor(units, high);
    assert Times(low, count) == count * low;
    hide Splits, Total, Divided, Times;
    forall sizes | Splits(sizes, units, low, high)
      ensures count <= |sizes| <= MAX_CLIPS && Times(low, count) <= units
    {
      AnySplitBounds(sizes, units, low, high);
      assert |sizes| <= MAX_CLIPS by { SplitIsShort(sizes, units, low, high); }
    }
    if Sizes(units, low, high).Ok? {
      PlanSplits(units, low, high);
    }
  }

  lemma SplitIsShort(sizes: seq<int>, units: int, low: int, high: int)
    requires Splits(sizes, units, low, high)
    ensures |sizes| <= MAX_CLIPS
  {
    hide Total;
  }

  // ----- The plan in quantities -----

  function TotalQty(clips: seq<real>): real
  {
    if clips == [] then 0.0 else TotalQty(clips[..|clips| - 1]) + clips[|clips| - 1]
  }

  /** The clips of the given sizes, on the side of the order. */
  function Signed(sizes: seq<int>, step: real, sell: bool): (clips: seq<real>)
    ensures |clips| == |sizes|
    ensures forall i | 0 <= i < |clips| :: clips[i] == if sell then -Qty(sizes[i], step) else Qty(sizes[i], step)
  {
    seq(|sizes|, i requires 0 <= i < |sizes| => if sell then -Qty(sizes[i], step) else Qty(sizes[i], step))
  }

  predicate ViolatesFilters(clip: real, f: Filters)
  {
    || Abs(clip) + DUST < f.minQty
    || (f.maxQty.Some? && Abs(clip) > f.maxQty.value + DUST)
    || Scale(f.mark, Abs(clip)) + DUST < f.minNotional
  }

  function Plan(q: real, f: Filters): Result<seq<real>>
  {
    if !Domains(f) then Err("order clip inputs violate exchange filter domains")
    else if Abs(q) <= DUST then Ok([])
    else
      var aligned := AlignedUnits(q, f.step);
      if aligned.None? then Err("aggregate order quantity is not lot-step aligned")
      else if f.maxQty.Some? && f.maxQty.value <= 0.0 then Err("market maxQty is invalid")
      else
        var units := aligned.value;
        var maxUnits := MaxUnits(units, f);
        if maxUnits <= 0 then Err("market maxQty is below one lot step")
        else
          var sizes := Sizes(units, MinUnits(f), maxUnits);
          if sizes.Err? then Err(sizes.reason)
          else
            var clips := Signed(sizes.value, f.step, q <= 0.0);
            if exists clip | clip in clips :: ViolatesFilters(clip, f) then
              Err("constructed market-order clip violates exchange filters")
            else if !IsClose(TotalQty(clips), q, DUST, Max(DUST, f.step * 0.000000001)) then
              Err("market-order clips do not conserve aggregate quantity")
            else Ok(clips)
  }

  function MaxUnits(units: int, f: Filters): int
    requires Domains(f)
  {
    if f.maxQty.None? then units else UnitsUnder(f.maxQty.value, f.step)
  }

  /** A clip of `size` lots passes the exchange's filters, without tolerance. */
  predicate Acceptable(size: int, f: Filters)
  {
    && size > 0 && Qty(size, f.step) >= f.minQty && Scale(f.mark, Qty(size, f.step)) >= f.minNotional
    && (f.maxQty.Some? ==> Qty(size, f.step) <= f.maxQty.value)
  }

  /** Some way of sending `units` lots in at most a hundred acceptable orders. */
  predicate ValidClips(sizes: seq<int>, units: int, f: Filters)
  {
    && 0 < |sizes| <= MAX_CLIPS && Total(sizes) == units
    && forall i | 0 <= i < |sizes| :: Acceptable(sizes[i], f)
  }

  lemma NotionalInLots(size: int, mark: real, step: real)
    ensures Scale(mark, Qty(size, step)) == Qty(size, Scale(mark, step))
  {
  }

  lemma AcceptableIsBetween(size: int, units: int, f: Filters)
    requires Domains(f) && size <= units
    ensures Acceptable(size, f) <==> MinUnits(f) <= size <= MaxUnits(units, f)
  {
    hide Qty, UnitsOver, UnitsUnder, Scale;
    ScalePositive(f);
    OverIsExact(size, f.minQty, f.step);
    OverIsExact(size, f.minNotional, Scale(f.mark, f.step));
    NotionalInLots(size, f.mark, f.step);
    if f.maxQty.Some? {
      UnderIsExact(size, f.maxQty.value, f.step);
    }
  }

  lemma {:induction false} PartsWithinTotal(sizes: seq<int>)
    requires forall i | 0 <= i < |sizes| :: sizes[i] > 0
    ensures Total(sizes) >= 0 && forall i | 0 <= i < |sizes| :: sizes[i] <= Total(sizes)
  {
    if sizes == [] {
    } else {
      PartsWithinTotal(sizes[..|sizes| - 1]);
    }
  }

  lemma ValidClipsAreSplits(sizes: seq<int>, units: int, f: Filters)
    requires Domains(f)
    ensures ValidClips(sizes, units, f) <==> Splits(sizes, units, MinUnits(f), MaxUnits(units, f))
  {
    forall i | 0 <= i < |sizes| ensures Acceptable(sizes[i], f) || MinUnits(f) <= sizes[i] ==> sizes[i] > 0 {
    }
    hide Total, Acceptable, MaxUnits, MinUnits;
    if (forall i | 0 <= i < |sizes| :: sizes[i] > 0) && Total(sizes) == units {
      PartsWithinTotal(sizes);
      forall i | 0 <= i < |sizes| ensures Acceptable(sizes[i], f) <==> MinUnits(f) <= sizes[i] <= MaxUnits(units, f) {
        AcceptableIsBetween(sizes[i], units, f);
      }
    }
  }

  lemma {:induction false} TotalOfSigned(sizes: seq<int>, step: real, sell: bool)
    ensures TotalQty(Signed(sizes, step, sell)) == if sell then -Qty(Total(sizes), step) else Qty(Total(sizes), step)
  {
    if sizes == [] {
      QtyAdds(0, 0, step);
    } else {
      var before := sizes[..|sizes| - 1];
      assert Signed(sizes, step, sell)[..|sizes| - 1] == Signed(before, step, sell);
      TotalOfSigned(before, step, sell);
      QtyAdds(Total(before), sizes[|sizes| - 1], step);
    }
    hide Qty;
  }

  lemma AcceptableClipPasses(size: int, f: Filters, sell: bool)
    requires Domains(f) && Acceptable(size, f)
    ensures !ViolatesFilters(if sell then -Qty(size, f.step) else Qty(size, f.step), f)
  {
    hide Scale;
    QtyMonotone(0, size, f.step);
    QtyAdds(0, 0, f.step);
    hide Qty;
  }

  lemma UnitsAreClose(q: real, units: int, step: real, total: real)
    requires step > 0.0 && AlignedUnits(q, step) == Some(units)
    requires total == if q <= 0.0 then -Qty(units, step) else Qty(units, step)
    ensures Abs(total) == Qty(units, step) && IsClose(total, q, DUST, Max(DUST, step * 0.000000001))
  {
    hide RoundHalfEven;
    QtyMonotone(0, units, step);
    QtyAdds(0, 0, step);
    hide Qty;
    assert Abs(total - q) == Abs(Qty(units, step) - Abs(q));
  }

  /** The two checks the code makes of its finished plan never fail. */
  lemma FinalChecksPass(q: real, f: Filters, units: int, sizes: seq<int>)
    requires Domains(f) && AlignedUnits(q, f.step) == Some(units) && ValidClips(sizes, units, f)
    ensures var clips := Signed(sizes, f.step, q <= 0.0);
      && (forall clip | clip in clips :: !ViolatesFilters(clip, f))
      && IsClose(TotalQty(clips), q, DUST, Max(DUST, f.step * 0.000000001))
      && Abs(TotalQty(clips)) == Qty(units, f.step)
  {
    hide Qty, Total, TotalQty, AlignedUnits, Acceptable, ViolatesFilters, IsClose;
    var clips := Signed(sizes, f.step, q <= 0.0);
    TotalOfSigned(sizes, f.step, q <= 0.0);
    UnitsAreClose(q, units, f.step, TotalQty(clips));
    forall clip | clip in clips ensures !ViolatesFilters(clip, f) {
      var i :| 0 <= i < |clips| && clips[i] == clip;
      AcceptableClipPasses(sizes[i], f, q <= 0.0);
    }
  }

  /** The planner refuses nothing that could be sent: it succeeds exactly when the quantity is flat, or is
      a whole number of lots for which some split into at most a hundred acceptable clips exists. */
  lemma PlanSucceedsExactly(q: real, f: Filters)
    requires Domains(f)
    ensures Plan(q, f).Ok? <==>
      || Abs(q) <= DUST
      || (AlignedUnits(q, f.step).Some? && exists sizes :: ValidClips(sizes, AlignedUnits(q, f.step).value, f))
  {
    var aligned := AlignedUnits(q, f.step);
    if Abs(q) > DUST && aligned.Some? {
      PlanOfAligned(q, f, aligned.value);
    }
    hide Domains, AlignedUnits, ValidClips, ViolatesFilters, Sizes, Signed, IsClose;
  }

  lemma NoRoomNoClips(units: int, f: Filters, sizes: seq<int>)
    requires Domains(f) && units > 0 && ValidClips(sizes, units, f)
    ensures MaxUnits(units, f) > 0 && (f.maxQty.Some? ==> f.maxQty.value > 0.0)
  {
    ValidClipsAreSplits(sizes, units, f);
    assert Acceptable(sizes[0], f);
    QtyMonotone(0, sizes[0], f.step);
    QtyAdds(0, 0, f.step);
    hide Qty, Total, MaxUnits, UnitsUnder, UnitsOver;
  }

  /** The best way of sending `units` lots. */
  ghost predicate Best(sizes: seq<int>, units: int, f: Filters)
  {
    && ValidClips(sizes, units, f)
    && (forall others :: ValidClips(others, units, f) ==> |sizes| <= |others|)
    && (forall i, j | 0 <= i < |sizes| && 0 <= j < |sizes| :: sizes[i] - sizes[j] <= 1)
  }

  lemma SizesAreBest(units: int, f: Filters)
    requires Domains(f) && units > 0 && MaxUnits(units, f) > 0
    ensures var sizes := Sizes(units, MinUnits(f), MaxUnits(units, f));
      && (sizes.Ok? <==> exists sizes :: ValidClips(sizes, units, f))
      && (sizes.Ok? ==> Best(sizes.value, units, f))
  {
    forall sizes ensures ValidClips(sizes, units, f) <==> Splits(sizes, units, MinUnits(f), MaxUnits(units, f)) {
      ValidClipsAreSplits(sizes, units, f);
    }
    SizesAreExact(units, MinUnits(f), MaxUnits(units, f));
    hide ValidClips, Splits, Sizes, MaxUnits, MinUnits, Domains;
  }

  /** Each clip passes the filters, the clips add up to the order, there are as few as any valid way of
      sending it needs, and their sizes differ by at most one lot. */
  lemma PlanOfAligned(q: real, f: Filters, units: int)
    requires Domains(f) && Abs(q) > DUST && AlignedUnits(q, f.step) == Some(units)
    ensures Plan(q, f).Ok? <==> exists sizes :: ValidClips(sizes, units, f)
    ensures Plan(q, f).Ok? ==> exists sizes ::
      Best(sizes, units, f) && Plan(q, f).value == Signed(sizes, f.step, q <= 0.0)
  {
    hide Domains, MinUnits, ValidClips, Best, IsClose, ViolatesFilters, Sizes, Signed, MaxUnits, RoundHalfEven,
        TotalQty;
    var high := MaxUnits(units, f);
    assert units > 0;
    hide AlignedUnits;
    if exists sizes :: ValidClips(sizes, units, f) {
      var sizes :| ValidClips(sizes, units, f);
      NoRoomNoClips(units, f, sizes);
    }
    if high > 0 {
      SizesAreBest(units, f);
      BestIsValid(units, f);
      if Sizes(units, MinUnits(f), high).Ok? {
        FinalChecksPass(q, f, units, Sizes(units, MinUnits(f), high).value);
      }
    }
  }

  lemma BestIsValid(units: int, f: Filters)
    ensures forall sizes :: Best(sizes, units, f) ==> ValidClips(sizes, units, f)
  {
  }

  /** A whole number of lots is recognised as such. */
  lemma WholeLotsAreAligned(units: int, step: real)
    requires step > 0.0 && units != 0
    ensures AlignedUnits(Qty(units, step), step) == Some(if units > 0 then units else -units)
  {
    var n := if units > 0 then units else -units;
    QtyAdds(units, 0, step);
    QtyMonotone(0, n, step);
    assert Abs(Qty(units, step)) == Qty(n, step);
    assert Qty(n, step) / step == n as real;
    assert RoundHalfEven(n as real) == n;
    assert step * 0.000000001 > 0.0;
    hide Qty;
  }

  /** An order of whole lots is conserved exactly. */
  lemma PlanConserves(units: int, f: Filters)
    requires Domains(f) && Abs(Qty(units, f.step)) > DUST && Plan(Qty(units, f.step), f).Ok?
    ensures TotalQty(Plan(Qty(units, f.step), f).value) == Qty(units, f.step)
  {
    var q := Qty(units, f.step);
    QtyAdds(units, 0, f.step);
    assert units != 0;
    WholeLotsAreAligned(units, f.step);
    var n := if units > 0 then units else -units;
    QtyMonotone(0, units, f.step);
    PlanOfAligned(q, f, n);
    hide Qty, Plan, AlignedUnits, ViolatesFilters, Signed, Acceptable;
    var sizes :| Best(sizes, n, f) && Plan(q, f).value == Signed(sizes, f.step, q <= 0.0);
    TotalOfSigned(sizes, f.step, q <= 0.0);
  }
}
