/** Whether the account admits a basket that the liquidity check has accepted.

    The desk tells the account that a symbol's execution is complete when its fill is not partial, and the
    account demands completeness of every execution that reduces, drops, flips or re-roles a held leg.  The
    liquidity check refuses such an execution only when its turnover counts as changed. */
module Admission {
  import opened Results
  import opened Sums
  import opened Lots
  import opened LegLifecycle
  import opened Ledger
  import opened Basket
  import opened BookLaws
  import opened DecisionBook
  import Clips = ClipPlan

  /** The order is about the leg the account holds, its consolidated target and its role. */
  predicate Describes(w: Want, p: Position, net: real, mark: real, role: Option<SeatRole>)
    requires mark > 0.0
  {
    w.held == Some(p) && TargetQty(w) == net / mark && w.role == if role.Some? then role.value else p.seatRole
  }

  /** The account's test of an execution is the basket's, but for a coarser idea of an unchanged quantity. */
  lemma LifecycleIsWholeOnly(w: Want, p: Position, net: real, mark: real, role: Option<SeatRole>)
    requires mark > 0.0 && Describes(w, p, net, mark, role)
    ensures ChangesLifecycle(p, net, mark, role) <==>
      WholeOnly(w, TargetQty(w)) && !IsClose(TargetQty(w), SignedQty(w.held), REL_DEFAULT, DUST)
  {
    hide TargetQty, IsClose;
    var target, current := TargetQty(w), SignedQty(w.held);
    assert Scale(target, current) == target * current;
  }

  /** A want built from the book is about what the account executes, at every execution mark. */
  lemma WantDescribes(a: Account, book: seq<FillLeg>, decision: map<string, real>, execution: map<string, real>,
                      venue: Venue, s: string)
    requires Sized(book) && s in a.positions && s in execution && execution[s] > 0.0
    ensures var c := Consolidate(AnchoredFills(book, decision, execution));
      var net := WithDropped(c, a.positions);
      && s in net
      && Describes(WantOf(a, book, decision, execution, venue, s), a.positions[s], net[s], execution[s],
                   Lookup(c.roles, s))
  {
    WantIsTheAccountsTarget(a, book, decision, execution, venue, s);
    hide WantOf, TargetQty, Consolidate, AnchoredFills, SizeOn;
  }

  /** The execution reports the fill of the order built from the book. */
  predicate Reported(a: Account, book: seq<FillLeg>, decision: map<string, real>, x: Execution, f: Fill, s: string)
  {
    && Built(f.order) && f.order.want == WantOf(a, book, decision, x.marks, f.order.want.venue, s)
    && s in x.completed && x.completed[s] == !PartlyFilled(f)
  }

  /** The order changes the lifecycle of a held leg but is too small to count as changed, and it is not
      filled in full. */
  predicate Stranded(a: Account, net: map<string, real>, c: Consolidated, x: Execution, fills: map<string, Fill>,
                     s: string)
    requires s in net && s in fills
  {
    && !Changed(fills[s].order) && PartlyFilled(fills[s])
    && s in a.positions && s in x.marks && x.marks[s] > 0.0
    && ChangesLifecycle(a.positions[s], net[s], x.marks[s], Lookup(c.roles, s))
  }

  lemma ProvenUnlessStranded(a: Account, net: map<string, real>, c: Consolidated, x: Execution,
                             fills: map<string, Fill>, s: string)
    requires s in net && s in fills && Built(fills[s].order) && Refusal(fills[s]).None?
    requires s in x.completed && x.completed[s] == !PartlyFilled(fills[s])
    requires s in a.positions && s in x.marks && x.marks[s] > 0.0 ==>
               Describes(fills[s].order.want, a.positions[s], net[s], x.marks[s], Lookup(c.roles, s))
    ensures ProvenComplete(a, net, c, x, s) <==> !Stranded(a, net, c, x, fills, s)
  {
    var f := fills[s];
    if s in a.positions && s in x.marks && x.marks[s] > 0.0 {
      LifecycleIsWholeOnly(f.order.want, a.positions[s], net[s], x.marks[s], Lookup(c.roles, s));
      WholeOnlyIsKept(f.order);
    }
    hide ChangesLifecycle, WholeOnly, PartlyFilled, Built, Changed, Describes, Scale, IsClose, Quantize;
  }

  lemma WholeOnlyIsKept(o: Order)
    requires Built(o)
    ensures o.wholeOnly == WholeOnly(o.want, TargetQty(o.want))
  {
    hide Quantize, WholeOnly, Delta, TargetQty, Scale, FiltersOf;
  }

  /** The account steered by a book whose every order was audited and passed the liquidity check accepts
      the execution exactly when no order is stranded. */
  lemma AdmittedExactly(a: Account, book: seq<FillLeg>, decision: map<string, real>, x: Execution,
                        fills: map<string, Fill>)
    requires Sized(book)
    requires x.targets.Some?
    requires x.targets.value.Keys == fills.Keys
          == WithDropped(Consolidate(AnchoredFills(book, decision, x.marks)), a.positions).Keys
    requires forall s | s in fills :: Reported(a, book, decision, x, fills[s], s) && Refusal(fills[s]).None?
    ensures var c := Consolidate(AnchoredFills(book, decision, x.marks));
      var net := WithDropped(c, a.positions);
      Admissible(a, net, c, x) <==> forall s | s in net :: !Stranded(a, net, c, x, fills, s)
  {
    hide Built, WantOf, Refusal, PartlyFilled, ProvenComplete, Stranded, Describes, Consolidate, WithDropped;
    var c := Consolidate(AnchoredFills(book, decision, x.marks));
    var net := WithDropped(c, a.positions);
    forall s | s in net ensures ProvenComplete(a, net, c, x, s) <==> !Stranded(a, net, c, x, fills, s) {
      if s in a.positions && s in x.marks && x.marks[s] > 0.0 {
        WantDescribes(a, book, decision, x.marks, fills[s].order.want.venue, s);
      }
      ProvenUnlessStranded(a, net, c, x, fills, s);
    }
  }

  // ----- A stranded order -----

  const HELD: Position := Position("BTC", Long, 1.0, 1.0, Opening(0, None, None), Alpha, NO_THESIS, 0.0, 0.0, 0.0, 0.0)
  const VENUE: Venue := Venue(0.001, 5.0, 0.001, None, 100.0, 100.0, true, true)
  const TRIMMED: Want := Want(0.992, Alpha, 1.0, 1.0, Some(HELD), VENUE)

  lemma TrimmedOrder() returns (o: Order)
    ensures OrderFor(TRIMMED) == Ok(o) && o.want == TRIMMED && !Changed(o) && o.quantized == -0.008
        && o.requested == 0.0
  {
    assert TargetQty(TRIMMED) == 0.992 && Delta(TRIMMED) == -0.008;
    assert Qty(-8, 0.001) == -0.008;
    QuantizeIsIdempotent(-8, 0.001);
    hide Quantize, WholeOnly, Clips.Plan, TargetQty, Delta;
    o := OrderFor(TRIMMED).value;
  }

  /** Trimming a leg by less than a cent, below the exchange's minimum notional: the liquidity check passes
      it over, nothing is filled, and the account refuses the whole execution. */
  lemma StrandedOrder() returns (o: Order, f: Fill)
    ensures OrderFor(TRIMMED) == Ok(o) && !Mixed([o]) && o.want.venue.step > 0.0 && f == Fills([o])[0]
    ensures Refusal(f).None? && PartlyFilled(f)
    ensures ChangesLifecycle(HELD, TRIMMED.notional, TRIMMED.mark, Some(TRIMMED.role))
  {
    hide OrderFor, Changed, RatioOf, Mixed, Quantize, IsClose, FiltersOf, Clips.Plan, ChangesLifecycle, Partial;
    o := TrimmedOrder();
    f := Fills([o])[0];
    NotMixed(o);
    TrimmingChangesLifecycle();
  }

  lemma TrimmingChangesLifecycle()
    ensures ChangesLifecycle(HELD, TRIMMED.notional, TRIMMED.mark, Some(TRIMMED.role))
  {
  }

  lemma NotMixed(o: Order)
    ensures !Mixed([o])
  {
    hide Changed;
  }
}
