/** What the checks of a basket come to: the quantity each order executes, and the condition under which the
    liquidity check lets it pass, in terms of the want alone. */
module BasketGates {
  import opened Results
  import opened Sums
  import opened Lots
  import opened LegLifecycle
  import opened Basket
  import Clips = ClipPlan

  /** Every symbol of the basket was audited, and the audit accepted the basket. */
  predicate Audited(orders: seq<Order>)
  {
    (forall o | o in orders :: Built(o) && o.want.venue.step > 0.0) && !Mixed(orders)
  }

  lemma OrderSays(o: Order)
    requires Built(o)
    ensures o.want.venue.step > 0.0 && o.quantized == Quantize(Delta(o.want), o.want.venue.step).value
    ensures o.requested ==
      if Abs(o.quantized) > 0.000000000001
         && Scale(o.want.mark, Abs(o.quantized)) + 0.000000000001 < o.want.venue.minNotional then 0.0
      else o.quantized
    ensures o.minNotionalPass <==>
      (|| Abs(o.quantized) <= 0.000000000001
       || Scale(o.want.mark, Abs(o.quantized)) + 0.000000000001 >= o.want.venue.minNotional)
    ensures o.minQtyPass <==>
      Abs(o.quantized) <= 0.000000000001 || Abs(o.quantized) + 0.000000000001 >= o.want.venue.minQty
    ensures o.lotRejected <==> Abs(Delta(o.want)) > 0.000000000001 && Abs(o.quantized) <= 0.000000000001
    ensures o.clips == Clips.Plan(o.quantized, FiltersOf(o.want)) && o.wholeOnly == WholeOnly(o.want, TargetQty(o.want))
  {
    hide Quantize, WholeOnly, Delta, TargetQty, Scale, FiltersOf;
  }

  /** What is executed of the request in whole lots: nothing below the minimum notional; all of it in a basket that
      fills whole; and otherwise the largest number of lots within the common share of it. */
  lemma FilledExactly(orders: seq<Order>, i: nat)
    requires Audited(orders) && i < |orders|
    ensures var w, q, e := orders[i].want, orders[i].quantized, Fills(orders)[i].executed;
      && q == Quantize(Delta(w), w.venue.step).value
      && if Abs(q) <= 0.000000000001 || Scale(w.mark, Abs(q)) + 0.000000000001 < w.venue.minNotional then e == 0.0
         else if !Partial(orders) then e == q
         else var share := Scale(RatioOf(orders), Abs(q));
              && Aligned(e, w.venue.step) && Abs(e) <= share < Abs(e) + w.venue.step
              && (e > 0.0 ==> q > 0.0) && (e < 0.0 ==> q < 0.0)
  {
    var o := orders[i];
    assert o in orders;
    OrderSays(o);
    RatioIsLargest(orders, 0.0);
    FillWithinOneLot(o, Partial(orders), RatioOf(orders));
    hide Built, Partial, RatioOf, Aligned, Quantize, Scale, LeastCapacity, Clips.Plan, Mixed;
  }

  lemma LargerPasses(mark: real, part: real, whole: real, least: real)
    requires mark > 0.0 && Abs(part) <= Abs(whole) && Scale(mark, Abs(part)) >= least
    ensures Scale(mark, Abs(whole)) >= least
  {
    ScaleKeepsOrder(mark, Abs(part), Abs(whole));
  }

  /** A changed order passes exactly when what is executed of it exists, meets the minimum notional and the minimum
      quantity, and is whole if its lifecycle changes; when the full request and the executed part can both be split
      into clips; and when the book is two-sided and, unless fills may be partial, deep enough for the request.  That
      the request itself meets the minima then follows. */
  lemma PassedExactly(orders: seq<Order>, i: nat)
    requires Audited(orders) && i < |orders| && Changed(orders[i])
    ensures Refusal(Fills(orders)[i]).None? <==>
      var w, q, e := orders[i].want, orders[i].quantized, Fills(orders)[i].executed;
      && Abs(e) > 0.000000000001
      && Scale(w.mark, Abs(e)) + 0.000000000001 >= w.venue.minNotional && Abs(e) + 0.000000000001 >= w.venue.minQty
      && (WholeOnly(w, TargetQty(w)) ==> Abs(e) + 0.000000000001 >= Abs(q))
      && Clips.Plan(q, FiltersOf(w)).Ok? && Clips.Plan(e, FiltersOf(w)).Ok?
      && w.venue.bookMid
      && (w.venue.allowPartial || (if q > 0.0 then w.venue.depthAsk else w.venue.depthBid) + 0.000000000001 >= Abs(q))
  {
    var o, f := orders[i], Fills(orders)[i];
    assert o in orders;
    OrderSays(o);
    RefusedExactly(orders, i);
    RatioIsLargest(orders, 0.0);
    FillWithinOneLot(o, Partial(orders), RatioOf(orders));
    ChangedHasMark(o);
    hide Built, Changed, Partial, RatioOf, Executed, Aligned, Quantize, Scale, LeastCapacity, Clips.Plan, WholeOnly,
         Delta, TargetQty, FiltersOf, Mixed, Refusal;
    if Abs(f.executed) > DUST && Scale(o.want.mark, Abs(f.executed)) + DUST >= o.want.venue.minNotional {
      LargerPasses(o.want.mark, f.executed, o.quantized, o.want.venue.minNotional - DUST);
    }
  }
}
