/** Executing a changed book as one basket: every order is rounded to lots, filtered, and scaled by the one
    participation ratio all displayed depths can bear. */
module Basket {
  import opened Results
  import opened Sums
  import opened Lots
  import opened LegLifecycle
  import Clips = ClipPlan

  /** What the execution snapshot says about one symbol. */
  datatype Venue = Venue(step: real, minNotional: real, minQty: real, maxQty: Option<real>, depthAsk: real,
                         depthBid: real, allowPartial: bool, bookMid: bool)

  /** One symbol's requested transition; `notional` is the signed net target at the decision mark. */
  datatype Want = Want(notional: real, role: SeatRole, decisionMark: real, mark: real, held: Option<Position>,
                       venue: Venue)

  datatype Order = Order(want: Want, target: real, turnover: real, quantized: real, requested: real,
                         lotRejected: bool, minNotionalPass: bool, minQtyPass: bool, clips: Result<seq<real>>,
                         available: real, wholeOnly: bool)

  datatype Fill = Fill(order: Order, ratio: real, executed: real)

  const CHANGED: real := 0.01

  // ----- One order -----

  function TargetQty(w: Want): real
  {
    if w.decisionMark > 0.0 then w.notional / w.decisionMark
    else if w.mark > 0.0 then w.notional / w.mark
    else 0.0
  }

  function Delta(w: Want): real
  {
    var target, current := TargetQty(w), SignedQty(w.held);
    if IsClose(target, current, DUST, DUST) then 0.0 else target - current
  }

  /** Reductions, side changes and role changes may not fill in part. */
  predicate WholeOnly(w: Want, target: real)
  {
    w.held.Some? &&
    var current := SignedQty(w.held);
    || Scale(target, current) <= 0.0
    || (Scale(target, current) > 0.0 && Abs(target) < Abs(current) - DUST)
    || w.role != w.held.value.seatRole
  }

  function FiltersOf(w: Want): Clips.Filters
  {
    Clips.Filters(w.venue.step, w.venue.minQty, w.venue.maxQty, w.venue.minNotional, w.mark)
  }

  function OrderFor(w: Want): Result<Order>
  {
    var v := w.venue;
    if v.step <= 0.0 || v.minNotional < 0.0 || v.minQty < 0.0 then Err("invalid execution filters")
    else
      var target, delta := TargetQty(w), Delta(w);
      var quantized := Quantize(delta, v.step).value;
      var flat := Abs(quantized) <= DUST;
      var minNotionalPass := flat || Scale(w.mark, Abs(quantized)) + DUST >= v.minNotional;
      var requested := if minNotionalPass then quantized else 0.0;
      Ok(Order(w, target, Scale(w.mark, Abs(delta)), quantized, requested, Abs(delta) > DUST && flat, minNotionalPass,
               flat || Abs(quantized) + DUST >= v.minQty, Clips.Plan(quantized, FiltersOf(w)),
               if requested > 0.0 then v.depthAsk else v.depthBid, WholeOnly(w, target)))
  }

  /** What building an order guarantees the basket. */
  predicate Built(o: Order)
  {
    OrderFor(o.want) == Ok(o)
  }

  predicate Changed(o: Order)
  {
    o.turnover > CHANGED
  }

  // ----- The common ratio -----

  function Capacity(o: Order): real
  {
    if Abs(o.requested) <= DUST then 0.0 else Min(1.0, Max(0.0, o.available) / Abs(o.requested))
  }

  /** The least capacity of the changed orders. */
  function LeastCapacity(orders: seq<Order>): real
  {
    if orders == [] then 1.0
    else
      var rest, o := LeastCapacity(orders[..|orders| - 1]), orders[|orders| - 1];
      if Changed(o) then Min(rest, Capacity(o)) else rest
  }

  predicate Mixed(orders: seq<Order>)
  {
    exists a, b | a in orders && b in orders && Changed(a) && Changed(b) ::
      a.want.venue.allowPartial && !b.want.venue.allowPartial
  }

  /** Whether the basket may fill in part. */
  predicate Partial(orders: seq<Order>)
  {
    (exists o | o in orders :: Changed(o)) && forall o | o in orders && Changed(o) :: o.want.venue.allowPartial
  }

  function RatioOf(orders: seq<Order>): real
  {
    if Partial(orders) then LeastCapacity(orders) else 1.0
  }

  /** A ratio fits an order when its share of the request is displayed; a request that rounds to nothing
      bears no share at all. */
  predicate Fits(r: real, o: Order)
  {
    if Abs(o.requested) <= DUST then r <= 0.0 else Scale(r, Abs(o.requested)) <= Max(0.0, o.available)
  }

  method CommonRatio(orders: seq<Order>) returns (r: Result<(bool, real)>)
    ensures r == if Mixed(orders) then Err("inconsistent partial-fill policy within one execution basket")
                 else Ok((Partial(orders), RatioOf(orders)))
  {
    hide Capacity, Changed;
    var partial, whole, least := false, false, 1.0;
    for i := 0 to |orders|
      invariant partial <==> exists k | 0 <= k < i :: Changed(orders[k]) && orders[k].want.venue.allowPartial
      invariant whole <==> exists k | 0 <= k < i :: Changed(orders[k]) && !orders[k].want.venue.allowPartial
      invariant least == LeastCapacity(orders[..i])
    {
      assert orders[..i + 1][..i] == orders[..i];
      if Changed(orders[i]) {
        if orders[i].want.venue.allowPartial {
          partial := true;
        } else {
          whole := true;
        }
        least := Min(least, Capacity(orders[i]));
      }
    }
    assert orders[..|orders|] == orders;
    if partial && whole {
      return Err("inconsistent partial-fill policy within one execution basket");
    }
    return Ok((partial, if partial then least else 1.0));
  }

  lemma CapacityIsExact(o: Order, r: real)
    requires 0.0 <= r <= 1.0
    ensures r <= Capacity(o) <==> Fits(r, o)
    ensures 0.0 <= Capacity(o) <= 1.0
  {
    var size := Abs(o.requested);
    if size > DUST {
      var room := Max(0.0, o.available);
      DivideThenMultiply(room, size, r);
      DivideThenMultiply(room, size, 0.0);
      assert Scale(r, size) == r * size;
    }
  }

  /** The ratio is the largest share, up to one, that every changed order's displayed depth can bear. */
  lemma {:induction false} RatioIsLargest(orders: seq<Order>, r: real)
    requires 0.0 <= r <= 1.0
    ensures r <= LeastCapacity(orders) <==> forall o | o in orders && Changed(o) :: Fits(r, o)
    ensures 0.0 <= LeastCapacity(orders) <= 1.0
  {
    hide Fits, Capacity, Changed;
    if orders == [] {
    } else {
      var rest, o := orders[..|orders| - 1], orders[|orders| - 1];
      assert orders == rest + [o];
      RatioIsLargest(rest, r);
      CapacityIsExact(o, r);
    }
  }

  // ----- Filling -----

  function Executed(o: Order, partial: bool, ratio: real): real
    requires o.want.venue.step > 0.0
  {
    if Abs(o.requested) <= DUST then 0.0
    else if partial then
      var size := Abs(Quantize(Scale(ratio, Abs(o.requested)), o.want.venue.step).value);
      if o.requested < 0.0 then -size else size
    else o.requested
  }

  lemma BuiltHasStep(o: Order)
    requires Built(o)
    ensures o.want.venue.step > 0.0 && (o.minNotionalPass ==> o.requested == o.quantized)
    ensures !o.minNotionalPass ==> o.requested == 0.0
    ensures o.turnover == Scale(o.want.mark, Abs(Delta(o.want)))
  {
    hide Quantize, WholeOnly, Delta, TargetQty, Scale, FiltersOf;
  }

  /** A whole number of lots. */
  ghost predicate Aligned(q: real, step: real)
  {
    exists units: int :: q == Qty(units, step)
  }

  lemma QuantizedIsAligned(q: real, step: real)
    requires step > 0.0
    ensures Aligned(Quantize(q, step).value, step) && Aligned(-Quantize(q, step).value, step)
  {
    var units := UnitsUnder(Abs(q), step);
    QtyAdds(units, 0, step);
    hide Qty, UnitsUnder;
    assert Quantize(q, step).value in {Qty(units, step), Qty(-units, step)};
    assert -Quantize(q, step).value in {Qty(units, step), Qty(-units, step)};
  }

  lemma ScaledSize(ratio: real, size: real)
    requires 0.0 <= ratio <= 1.0 && size >= 0.0
    ensures 0.0 <= Scale(ratio, size) <= size
  {
    assert size - Scale(ratio, size) == (1.0 - ratio) * size;
  }

  /** A fill is a whole number of lots on the side of its request, at most the request, and in a partial
      basket within one lot below the common share of it. */
  lemma FillWithinOneLot(o: Order, partial: bool, ratio: real)
    requires Built(o) && 0.0 <= ratio <= 1.0
    ensures o.want.venue.step > 0.0
    ensures var e, step := Executed(o, partial, ratio), o.want.venue.step;
      && Abs(e) <= Abs(o.requested) && (e > 0.0 ==> o.requested > 0.0) && (e < 0.0 ==> o.requested < 0.0)
      && Aligned(e, step)
      && (partial && Abs(o.requested) > DUST ==>
            Abs(e) <= Scale(ratio, Abs(o.requested)) < Abs(e) + step)
  {
    BuiltHasStep(o);
    var step := o.want.venue.step;
    var share := Scale(ratio, Abs(o.requested));
    ScaledSize(ratio, Abs(o.requested));
    QuantizedIsLargestWithin(share, step);
    QuantizedIsAligned(share, step);
    QtyAdds(0, 0, step);
    assert Aligned(0.0, step) by { assert 0.0 == Qty(0, step); }
    RequestIsAligned(o);
    hide Quantize, Scale, Built, Aligned;
  }

  lemma RequestIsAligned(o: Order)
    requires Built(o) && o.want.venue.step > 0.0
    ensures Aligned(o.requested, o.want.venue.step) && Aligned(o.quantized, o.want.venue.step)
  {
    QuantizedIsAligned(Delta(o.want), o.want.venue.step);
    QtyAdds(0, 0, o.want.venue.step);
    assert Aligned(0.0, o.want.venue.step) by { assert 0.0 == Qty(0, o.want.venue.step); }
    hide Quantize, Scale, Aligned, Delta, TargetQty, WholeOnly, FiltersOf;
  }

  /** In a partial basket no changed order fills more than its displayed depth. */
  lemma FillWithinDepth(orders: seq<Order>, o: Order)
    requires (forall p | p in orders :: Built(p)) && o in orders && Changed(o) && Partial(orders)
    ensures o.want.venue.step > 0.0 && Abs(Executed(o, true, RatioOf(orders))) <= Max(0.0, o.available)
  {
    var ratio := RatioOf(orders);
    RatioIsLargest(orders, 0.0);
    RatioIsLargest(orders, ratio);
    FillWithinOneLot(o, true, ratio);
    assert Fits(ratio, o);
    hide Partial, LeastCapacity, Built, Aligned, Changed, Scale, Quantize;
  }

  // ----- Neutrality -----

  function ExecutedNotional(orders: seq<Order>, ratio: real): real
    requires forall o | o in orders :: o.want.venue.step > 0.0
  {
    if orders == [] then 0.0
    else
      var rest, o := orders[..|orders| - 1], orders[|orders| - 1];
      ExecutedNotional(rest, ratio) + if Changed(o) then Scale(o.want.mark, Executed(o, true, ratio)) else 0.0
  }

  function RequestedNotional(orders: seq<Order>): real
  {
    if orders == [] then 0.0
    else
      var rest, o := orders[..|orders| - 1], orders[|orders| - 1];
      RequestedNotional(rest) + if Changed(o) then Scale(o.want.mark, o.requested) else 0.0
  }

  function LotNotional(orders: seq<Order>): real
  {
    if orders == [] then 0.0
    else
      var rest, o := orders[..|orders| - 1], orders[|orders| - 1];
      LotNotional(rest) + if Changed(o) then Scale(o.want.mark, o.want.venue.step) else 0.0
  }

  lemma ChangedHasMark(o: Order)
    requires Built(o) && Changed(o)
    ensures o.want.mark > 0.0
  {
    BuiltHasStep(o);
    ScaleSign(o.want.mark, Abs(Delta(o.want)));
    hide Built, Delta, Scale;
  }

  /** One changed order's executed notional is within one lot's notional of its share of the request. */
  lemma NotionalWithinOneLot(o: Order, ratio: real)
    requires Built(o) && Changed(o) && 0.0 <= ratio <= 1.0 && (Abs(o.requested) <= DUST ==> ratio == 0.0)
    ensures o.want.venue.step > 0.0
    ensures Abs(Scale(o.want.mark, Executed(o, true, ratio)) - Scale(ratio, Scale(o.want.mark, o.requested)))
            < Scale(o.want.mark, o.want.venue.step)
  {
    var e, mark := Executed(o, true, ratio), o.want.mark;
    var share := Scale(ratio, o.requested);
    FillWithinOneLot(o, true, ratio);
    ChangedHasMark(o);
    assert Scale(0.0, o.requested) == 0.0;
    ScalesCommute(ratio, mark, o.requested);
    ScaledSize(ratio, Abs(o.requested));
    assert Scale(ratio, -o.requested) == -Scale(ratio, o.requested);
    hide Built, Changed, Executed, Aligned, Scale;
    assert Abs(e - share) < o.want.venue.step;
    ScaleDistributes(mark, e, share);
    ScaleKeepsOrder(mark, e - share, o.want.venue.step);
    ScaleKeepsOrder(mark, share - e, o.want.venue.step);
    ScaleDistributes(mark, share, e);
  }

  lemma {:induction false} NetNotionalWithin(orders: seq<Order>, ratio: real)
    requires forall o | o in orders :: Built(o)
    requires 0.0 <= ratio <= 1.0
    requires forall o | o in orders && Changed(o) && Abs(o.requested) <= DUST :: ratio == 0.0
    ensures forall o | o in orders :: o.want.venue.step > 0.0
    ensures var drift := Abs(ExecutedNotional(orders, ratio) - Scale(ratio, RequestedNotional(orders)));
      if exists o | o in orders :: Changed(o) then drift < LotNotional(orders) else drift == LotNotional(orders) == 0.0
  {
    hide Built, Changed, Executed, Scale;
    forall o | o in orders ensures o.want.venue.step > 0.0 {
      BuiltHasStep(o);
    }
    if orders == [] {
      ScalesCommute(ratio, 0.0, 0.0);
    } else {
      var rest, o := orders[..|orders| - 1], orders[|orders| - 1];
      assert orders == rest + [o];
      NetNotionalWithin(rest, ratio);
      if Changed(o) {
        NotionalWithinOneLot(o, ratio);
        ScaleDistributes(ratio, RequestedNotional(rest), Scale(o.want.mark, o.requested));
      }
    }
  }

  /** A basket stays as neutral as it was requested: with the common ratio, the net notional the changed
      orders execute differs from that share of the net they request by less than one lot each. */
  lemma {:induction false} BasketKeepsProportion(orders: seq<Order>)
    requires (forall o | o in orders :: Built(o)) && Partial(orders)
    ensures forall o | o in orders :: o.want.venue.step > 0.0
    ensures var r := RatioOf(orders);
      Abs(ExecutedNotional(orders, r) - Scale(r, RequestedNotional(orders))) < LotNotional(orders)
  {
    var r := RatioOf(orders);
    RatioIsLargest(orders, 0.0);
    RatioIsLargest(orders, r);
    forall o | o in orders && Changed(o) && Abs(o.requested) <= DUST ensures r == 0.0 {
      assert Fits(r, o);
    }
    hide Built, Changed, LeastCapacity, ExecutedNotional, RequestedNotional, LotNotional;
    NetNotionalWithin(orders, r);
  }

  // ----- Verifying the simulated execution -----

  function Depth(o: Order): real
  {
    if o.quantized > 0.0 then o.want.venue.depthAsk else o.want.venue.depthBid
  }

  predicate PartlyFilled(f: Fill)
  {
    Abs(f.executed) + DUST < Abs(f.order.quantized) && Abs(f.order.quantized) > DUST
  }

  /** What one changed fill must satisfy beyond what its construction guarantees. */
  predicate Sendable(f: Fill)
  {
    var o, v := f.order, f.order.want.venue;
    && !o.lotRejected && o.minNotionalPass && o.minQtyPass && o.clips.Ok? && v.bookMid
    && (v.allowPartial || Depth(o) + DUST >= Abs(o.quantized))
    && Abs(f.executed) > DUST
    && !(o.wholeOnly && PartlyFilled(f))
    && Scale(o.want.mark, Abs(f.executed)) + DUST >= v.minNotional
    && Abs(f.executed) + DUST >= v.minQty
    && Clips.Plan(f.executed, FiltersOf(o.want)).Ok?
  }

  /** The first reason to refuse a fill, in the order of the checks. */
  function Refusal(f: Fill): Option<string>
  {
    var o, v := f.order, f.order.want.venue;
    if !Changed(o) then None
    else if o.lotRejected then Some("changed order rounds to zero at exchange lot step")
    else if !o.minNotionalPass then Some("changed order is below exchange minimum notional")
    else if !o.minQtyPass then Some("changed order is below exchange market minQty")
    else if o.clips.Err? then Some("changed order cannot be split within market maxQty")
    else if !v.bookMid then Some("fresh two-sided execution book unavailable")
    else if !v.allowPartial && Depth(o) + DUST < Abs(o.quantized)
        then Some("conservative visible depth is below the order")
    else if Abs(f.executed) <= DUST then Some("common basket participation leaves no exchange-valid fill")
    else if Abs(f.executed) > Min(Abs(o.quantized), Depth(o)) + DUST
        then Some("simulated execution exceeds available depth")
    else if o.wholeOnly && PartlyFilled(f) then Some("partial fill would split the held lifecycle")
    else if v.step > 0.0 && !IsClose(f.executed, Quantize(f.executed, v.step).value, DUST, DUST) then
      Some("simulated execution is not lot-step aligned")
    else if Scale(o.want.mark, Abs(f.executed)) + DUST < v.minNotional
        then Some("partial fill is below exchange minimum notional")
    else if Abs(f.executed) + DUST < v.minQty then Some("partial fill is below exchange market minQty")
    else if Clips.Plan(f.executed, FiltersOf(o.want)).Err? then Some("executed clips cannot be planned")
    else None
  }

  function Fills(orders: seq<Order>): (fills: seq<Fill>)
    requires forall o | o in orders :: o.want.venue.step > 0.0
    ensures |fills| == |orders|
    ensures forall i | 0 <= i < |orders| ::
      fills[i] == Fill(orders[i], RatioOf(orders), Executed(orders[i], Partial(orders), RatioOf(orders)))
  {
    seq(|orders|, i requires 0 <= i < |orders| =>
      Fill(orders[i], RatioOf(orders), Executed(orders[i], Partial(orders), RatioOf(orders))))
  }

  /** The orders of a basket whose filters are all valid. */
  function Orders(wants: seq<Want>): (orders: seq<Order>)
    requires forall w | w in wants :: OrderFor(w).Ok?
    ensures |orders| == |wants|
    ensures forall i | 0 <= i < |wants| :: orders[i] == OrderFor(wants[i]).value
  {
    seq(|wants|, i requires 0 <= i < |wants| => OrderFor(wants[i]).value)
  }

  lemma OrdersAreBuilt(wants: seq<Want>)
    requires forall w | w in wants :: OrderFor(w).Ok?
    ensures forall o | o in Orders(wants) :: Built(o) && o.want.venue.step > 0.0
  {
    hide Quantize, WholeOnly, Delta, TargetQty, Scale, FiltersOf;
    forall o | o in Orders(wants) ensures Built(o) && o.want.venue.step > 0.0 {
      var i :| 0 <= i < |wants| && Orders(wants)[i] == o;
      assert wants[i] in wants;
    }
  }

  /** Builds every order, finds the common ratio, and fills every order by it. */
  method ExecutionTargetAudit(wants: seq<Want>) returns (r: Result<seq<Fill>>)
    ensures r.Ok? <==> (forall w | w in wants :: OrderFor(w).Ok?) && !Mixed(Orders(wants))
    ensures r.Ok? ==> (forall o | o in Orders(wants) :: Built(o) && o.want.venue.step > 0.0)
                      && r.value == Fills(Orders(wants))
  {
    hide OrderFor, Changed, Executed, RatioOf, Partial, Mixed;
    var orders: seq<Order> := [];
    for i := 0 to |wants|
      invariant |orders| == i
      invariant forall k | 0 <= k < i :: OrderFor(wants[k]) == Ok(orders[k])
    {
      var order := OrderFor(wants[i]);
      if order.Err? {
        assert wants[i] in wants;
        return Err(order.reason);
      }
      orders := orders + [order.value];
    }
    assert orders == Orders(wants);
    OrdersAreBuilt(wants);
    var common := CommonRatio(orders);
    if common.Err? {
      return Err(common.reason);
    }
    var fills: seq<Fill> := [];
    for i := 0 to |orders|
      invariant |fills| == i
      invariant forall k | 0 <= k < i ::
          fills[k] == Fill(orders[k], RatioOf(orders), Executed(orders[k], Partial(orders), RatioOf(orders)))
    {
      assert orders[i] in orders;
      fills := fills + [Fill(orders[i], common.value.1, Executed(orders[i], common.value.0, common.value.1))];
    }
    assert fills == Fills(orders);
    return Ok(fills);
  }

  /** Signed quantities after the simulated fills, or the first refusal. */
  method VerifyExecutionLiquidity(fills: seq<Fill>) returns (r: Result<seq<real>>)
    ensures r.Ok? <==>
      (forall a, b | a in fills && b in fills && Changed(a.order) && Changed(b.order) :: a.ratio == b.ratio)
                       && forall f | f in fills :: Refusal(f).None?
    ensures r.Ok? ==> |r.value| == |fills|
                      && forall i | 0 <= i < |fills| ::
                          r.value[i] == SignedQty(fills[i].order.want.held) + fills[i].executed
  {
    hide Refusal, Changed;
    var shared: Option<real> := None;
    for i := 0 to |fills|
      invariant forall k | 0 <= k < i && Changed(fills[k].order) :: shared == Some(fills[k].ratio)
      invariant shared.Some? ==> exists k | 0 <= k < i :: Changed(fills[k].order) && shared == Some(fills[k].ratio)
    {
      if Changed(fills[i].order) {
        if shared.Some? && shared.value != fills[i].ratio {
          return Err("execution legs do not share one basket participation ratio");
        }
        shared := Some(fills[i].ratio);
      }
    }
    var targets: seq<real> := [];
    for i := 0 to |fills|
      invariant |targets| == i
      invariant forall k | 0 <= k < i :: Refusal(fills[k]).None?
      invariant forall k | 0 <= k < i :: targets[k] == SignedQty(fills[k].order.want.held) + fills[k].executed
    {
      var refusal := Refusal(fills[i]);
      if refusal.Some? {
        assert fills[i] in fills;
        return Err(refusal.value);
      }
      targets := targets + [SignedQty(fills[i].order.want.held) + fills[i].executed];
    }
    return Ok(targets);
  }

  lemma FillIsAligned(f: Fill)
    requires f.order.want.venue.step > 0.0 && Aligned(f.executed, f.order.want.venue.step)
    ensures Quantize(f.executed, f.order.want.venue.step) == Ok(f.executed)
  {
    var units: int :| f.executed == Qty(units, f.order.want.venue.step);
    hide Qty;
    QuantizeIsIdempotent(units, f.order.want.venue.step);
  }

  lemma SharedDepth(o: Order)
    requires Built(o) && Abs(o.requested) > DUST
    ensures o.available == Depth(o) && o.requested == o.quantized
  {
    hide Quantize, WholeOnly, Delta, TargetQty, Scale, FiltersOf;
  }

  lemma PartialIsAllowed(orders: seq<Order>, o: Order)
    requires o in orders && Changed(o) && !Mixed(orders)
    ensures Partial(orders) <==> o.want.venue.allowPartial
  {
    hide Changed;
  }

  lemma NeverBeyondDepth(orders: seq<Order>, o: Order)
    requires (forall p | p in orders :: Built(p)) && o in orders && Changed(o) && !Mixed(orders)
    requires o.want.venue.allowPartial || Depth(o) + DUST >= Abs(o.quantized)
    ensures o.want.venue.step > 0.0
    ensures var e := Executed(o, Partial(orders), RatioOf(orders));
      Abs(e) > DUST ==> Abs(e) <= Min(Abs(o.quantized), Depth(o)) + DUST
  {
    RatioIsLargest(orders, 0.0);
    PartialIsAllowed(orders, o);
    FillWithinOneLot(o, Partial(orders), RatioOf(orders));
    if Partial(orders) {
      FillWithinDepth(orders, o);
    }
    if Abs(o.requested) > DUST {
      SharedDepth(o);
    }
    hide Built, Changed, Partial, RatioOf, Executed, Aligned, Scale, LeastCapacity, Depth;
  }

  lemma NeverMisaligned(f: Fill)
    requires f.order.want.venue.step > 0.0 && Aligned(f.executed, f.order.want.venue.step)
    ensures IsClose(f.executed, Quantize(f.executed, f.order.want.venue.step).value, DUST, DUST)
  {
    FillIsAligned(f);
    hide Quantize, Aligned;
  }

  /** The checks that the fill stays within depth and on whole lots never fail for a basket built this
      way; what decides is `Sendable`. */
  lemma RefusedExactly(orders: seq<Order>, i: nat)
    requires forall o | o in orders :: Built(o)
    requires i < |orders| && Changed(orders[i]) && !Mixed(orders)
    ensures forall o | o in orders :: o.want.venue.step > 0.0
    ensures Refusal(Fills(orders)[i]).None? <==> Sendable(Fills(orders)[i])
  {
    forall o | o in orders ensures o.want.venue.step > 0.0 {
      BuiltHasStep(o);
    }
    hide Built, Changed, Partial, RatioOf, Executed, Aligned, Quantize, Scale, PartlyFilled, IsClose, FiltersOf,
         LeastCapacity, Depth, Clips.Plan;
    var o, f := orders[i], Fills(orders)[i];
    assert o in orders;
    RatioIsLargest(orders, 0.0);
    FillWithinOneLot(o, Partial(orders), RatioOf(orders));
    NeverMisaligned(f);
    if o.want.venue.allowPartial || Depth(o) + DUST >= Abs(o.quantized) {
      NeverBeyondDepth(orders, o);
    }
  }

  /** An accepted basket: every changed order ends strictly inside its transition, on whole lots, within its
      displayed depth, in clips the exchange accepts; and a reduction, drop, flip or role change is filled
      in full. */
  lemma AcceptedFill(orders: seq<Order>, i: nat)
    requires forall o | o in orders :: Built(o)
    requires i < |orders| && Changed(orders[i]) && !Mixed(orders)
    requires forall o | o in orders :: o.want.venue.step > 0.0
    requires Sendable(Fills(orders)[i])
    ensures var o, e := orders[i], Fills(orders)[i].executed;
      && DUST < Abs(e) <= Abs(o.requested) && (e > 0.0 <==> o.requested > 0.0)
      && Aligned(e, o.want.venue.step) && Abs(e) <= Depth(o) + DUST
      && (o.wholeOnly ==> Abs(e) + DUST >= Abs(o.requested))
      && Clips.AlignedUnits(e, o.want.venue.step).Some?
      && exists sizes :: Clips.ValidClips(sizes, Clips.AlignedUnits(e, o.want.venue.step).value, FiltersOf(o.want))
  {
    var o, f := orders[i], Fills(orders)[i];
    assert o in orders;
    RefusedExactly(orders, i);
    RatioIsLargest(orders, 0.0);
    FillWithinOneLot(o, Partial(orders), RatioOf(orders));
    SharedDepth(o);
    FiltersAreInDomain(o);
    Clips.PlanSucceedsExactly(f.executed, FiltersOf(o.want));
    hide Built, Partial, RatioOf, Executed, Aligned, Quantize, Scale, IsClose, LeastCapacity, Clips.Plan,
        Clips.ValidClips,
         Clips.AlignedUnits;
  }

  lemma FiltersAreInDomain(o: Order)
    requires Built(o) && Changed(o)
    ensures Clips.Domains(FiltersOf(o.want)) && FiltersOf(o.want).step == o.want.venue.step
  {
    ChangedHasMark(o);
    hide Quantize, WholeOnly, Delta, TargetQty, Scale;
  }

  lemma SameSides(target: real, current: real)
    requires Scale(target, current) > 0.0
    ensures (current > 0.0 && target > 0.0) || (current < 0.0 && target < 0.0)
  {
    ScaleSign(target, current);
    ScaleSign(current, target);
    assert Scale(target, current) == Scale(current, target);
  }

  lemma GrowingDelta(w: Want)
    requires w.held.Some? && !WholeOnly(w, TargetQty(w)) && Delta(w) != 0.0
    ensures var current := SignedQty(w.held);
      (current > 0.0 && Delta(w) > 0.0) || (current < 0.0 && Delta(w) < 0.0)
  {
    SameSides(TargetQty(w), SignedQty(w.held));
    hide Scale, TargetQty;
  }

  lemma QuantizedSide(o: Order)
    requires Built(o) && o.quantized != 0.0
    ensures o.quantized > 0.0 <==> Delta(o.want) > 0.0
    ensures o.quantized < 0.0 <==> Delta(o.want) < 0.0
    ensures o.wholeOnly <==> WholeOnly(o.want, TargetQty(o.want))
  {
    QuantizedIsLargestWithin(Delta(o.want), o.want.venue.step);
    hide WholeOnly, Delta, TargetQty, Scale, FiltersOf;
  }

  /** A held leg that an accepted basket fills only in part keeps its role and ends strictly larger on its
      own side; nothing partly reduces, drops, flips or relabels it. */
  lemma PartialFillOnlyGrows(orders: seq<Order>, i: nat)
    requires forall o | o in orders :: Built(o)
    requires i < |orders| && Changed(orders[i]) && !Mixed(orders)
    requires forall o | o in orders :: o.want.venue.step > 0.0
    requires Sendable(Fills(orders)[i]) && PartlyFilled(Fills(orders)[i]) && orders[i].want.held.Some?
    ensures var w, current, after := orders[i].want, SignedQty(orders[i].want.held),
                                     SignedQty(orders[i].want.held) + Fills(orders)[i].executed;
      && w.role == w.held.value.seatRole
      && ((current > 0.0 && after > current) || (current < 0.0 && after < current))
  {
    var o := orders[i];
    AcceptedFill(orders, i);
    SharedDepth(o);
    QuantizedSide(o);
    assert !WholeOnly(o.want, TargetQty(o.want));
    hide Built, Changed, Executed, Aligned, Delta, TargetQty, Scale, Partial, RatioOf;
    GrowingDelta(o.want);
  }

  /** Where an accepted changed order ends: never past the decision's target, and within one lot of it when
      the basket fills whole. */
  lemma LandsTowardsTarget(orders: seq<Order>, i: nat)
    requires forall o | o in orders :: Built(o)
    requires i < |orders| && Changed(orders[i]) && !Mixed(orders)
    requires forall o | o in orders :: o.want.venue.step > 0.0
    requires Sendable(Fills(orders)[i])
    ensures var w := orders[i].want;
      var current, after := SignedQty(w.held), SignedQty(w.held) + Fills(orders)[i].executed;
      && (current < after <= TargetQty(w) || TargetQty(w) <= after < current)
      && (!Partial(orders) ==> Abs(after - TargetQty(w)) < w.venue.step)
  {
    var o := orders[i];
    AcceptedFill(orders, i);
    SharedDepth(o);
    QuantizedSide(o);
    DeltaReachesTarget(o);
    hide Built, Changed, Aligned, Delta, TargetQty, Scale, Partial, RatioOf;
  }

  lemma DeltaReachesTarget(o: Order)
    requires Built(o) && o.quantized != 0.0
    ensures Delta(o.want) == TargetQty(o.want) - SignedQty(o.want.held)
    ensures Abs(o.quantized) <= Abs(Delta(o.want)) < Abs(o.quantized) + o.want.venue.step
  {
    QuantizedIsLargestWithin(Delta(o.want), o.want.venue.step);
    hide WholeOnly, TargetQty, Scale, FiltersOf;
  }
}
