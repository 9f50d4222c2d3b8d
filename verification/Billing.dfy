/** What a completed reconciliation charges, told from the execution's inputs and the holdings before and
    after it. */
module Billing {
  import opened Results
  import opened Sums
  import opened LegLifecycle
  import opened LegLaws
  import opened Ledger
  import opened LedgerLaws
  import opened BookLaws
  import LegOrder

  // ----- The tariff -----

  function FeeRate(x: Execution, s: string): real
  {
    if s in x.costs && x.costs[s].maker then 0.0002 else 0.0005
  }

  /** A symbol without cost inputs slips by one basis point. */
  function Slipped(x: Execution, s: string, traded: real, mark: real): real
  {
    if s in x.costs then x.costs[s].slippage(traded, mark) else Abs(traded) * mark * 0.0001
  }

  /** Fee and slippage of trading a signed quantity: a buy adds the slippage to the quote value the fee is
      taken from, a sell subtracts it. */
  function Tariff(x: Execution, s: string, traded: real, mark: real): Bill
  {
    if traded == 0.0 then Bill(0.0, 0.0)
    else
      var slip := Slipped(x, s, traded, mark);
      var crossed := if traded > 0.0 then Abs(traded) * mark + Abs(slip) else Abs(traded) * mark - Abs(slip);
      Bill(crossed * FeeRate(x, s), slip)
  }

  /** The quantity a symbol is steered to. */
  function Goal(net: map<string, real>, x: Execution, s: string): real
    requires s in net && s in x.marks && x.marks[s] > 0.0
  {
    if x.targets.Some? && s in x.targets.value then x.targets.value[s] else net[s] / x.marks[s]
  }

  /** What was traded: the difference of the holdings, but for the dust a vanished leg had left to trade. */
  function TradedBetween(before: Option<Position>, after: Option<Position>, goal: real): real
  {
    if before.Some? && after.None? then goal - SignedQty(before) else SignedQty(after) - SignedQty(before)
  }

  ghost function Billed(a: Account, b: Account, net: map<string, real>, x: Execution, s: string): Bill
    requires s in net
  {
    if s in x.marks && x.marks[s] > 0.0 then
      Tariff(x, s, TradedBetween(Held(a, s), Held(b, s), Goal(net, x, s)), x.marks[s])
    else Bill(0.0, 0.0)
  }

  // ----- One leg -----

  lemma OppositeBills(p: Position, d: Direction, target: real, mark: real, bill: Bill, own: Bill,
                      opening: Opening, role: SeatRole, thesis: Option<Thesis>)
    requires p.qty > 0.0 && !Near(target, SignedQty(Some(p))) && own == OldBill(p, target, bill)
    requires MovesAway(SignedQty(Some(p)), target)
    ensures var o := Opposite(p, d, target, mark, bill, own, opening, role, thesis); Bill(o.fee, o.slip) == bill
  {
    hide Unrealized, Near, OldShare, ClosedQty;
    if target * SignedQty(Some(p)) < 0.0 {
      CrossingCloses(p, target);
    } else {
      StayingCloses(p, target);
    }
  }

  lemma TradeAwayBills(p: Position, plan: Plan, bill: Bill, opening: Opening)
    requires p.qty > 0.0 && !Near(plan.target, SignedQty(Some(p))) && MovesAway(SignedQty(Some(p)), plan.target)
    ensures var o := TradeAway(p, plan, bill, opening); Bill(o.fee, o.slip) == bill
  {
    hide Opposite, OldBill, Near, Unrealized, MovesAway;
    OppositeBills(p, plan.direction, plan.target, plan.mark, bill, OldBill(p, plan.target, bill), opening,
                  if plan.rolledAfter then p.seatRole else plan.role, if plan.rolledAfter then None else plan.thesis);
  }

  lemma TradedBills(s: string, held: Option<Position>, p: Plan, r: Request)
    requires WellFormed(s, held) && Traded(s, held, p, r).Ok?
    ensures var o, delta := Traded(s, held, p, r).value, p.target - SignedQty(held);
      if Near(p.target, SignedQty(held)) then o.fee == o.slip == 0.0
      else Frictions(r, delta, p.mark) == Ok(Bill(o.fee, o.slip))
  {
    hide Frictions, TradeAway, Near, BlendedEntry, MovesAway;
    if held.Some? && !Near(p.target, SignedQty(held)) && MovesAway(SignedQty(held), p.target) {
      TradeAwayBills(held.value, p, Frictions(r, p.target - SignedQty(held), p.mark).value, r.opening);
    }
  }

  lemma LegBills(s: string, held: Option<Position>, r: Request)
    requires WellFormed(s, held) && r.mark.Some? && r.mark.value > 0.0 && LegStep(s, held, r).Ok?
    ensures var o, delta := LegStep(s, held, r).value, Target(r) - SignedQty(held);
      if Near(Target(r), SignedQty(held)) then o.fee == o.slip == 0.0
      else Frictions(r, delta, r.mark.value) == Ok(Bill(o.fee, o.slip))
  {
    hide Frictions, Traded, Near, Unrealized;
    var p := PlanFor(held, r);
    if p.rolled {
      TradedBills(s, Roll(held.value, p.mark, r.opening, p.role, p.thesis).held, p, r);
    } else {
      TradedBills(s, held, p, r);
    }
  }

  /** What a reconciled leg shows of the quantity that was traded. */
  lemma LegTrades(s: string, held: Option<Position>, r: Request)
    requires WellFormed(s, held) && r.mark.Some? && r.mark.value > 0.0 && LegStep(s, held, r).Ok?
    ensures var after := LegStep(s, held, r).value.held;
      && TradedBetween(held, after, Target(r))
         == (if Near(Target(r), SignedQty(held)) then 0.0 else Target(r) - SignedQty(held))
      && (held.Some? && after.None? ==> Abs(Target(r)) <= DUST)
  {
    LegConserves(s, held, r, 0.0);
    LegStaysWellFormed(s, held, r);
    hide LegStep, ValueOf, Scale, Forgone;
  }

  lemma FrictionsAreTariff(net: map<string, real>, c: Consolidated, x: Execution, s: string, delta: real)
    requires s in net && s in x.marks && x.marks[s] > 0.0 && delta != 0.0
    requires Frictions(RequestFor(net, c, x, s), delta, x.marks[s]).Ok?
    ensures Frictions(RequestFor(net, c, x, s), delta, x.marks[s]) == Ok(Tariff(x, s, delta, x.marks[s]))
  {
    var r := RequestFor(net, c, x, s);
    assert r.slippage(delta, x.marks[s]) == Slipped(x, s, delta, x.marks[s]);
    assert r.feeRate == FeeRate(x, s);
  }

  lemma LegIsBilled(s: string, held: Option<Position>, net: map<string, real>, c: Consolidated, x: Execution)
    requires s in net && WellFormed(s, held) && LegStep(s, held, RequestFor(net, c, x, s)).Ok?
    ensures var o := LegStep(s, held, RequestFor(net, c, x, s)).value;
      if s in x.marks && x.marks[s] > 0.0 then
        Bill(o.fee, o.slip) == Tariff(x, s, TradedBetween(held, o.held, Goal(net, x, s)), x.marks[s])
        && (held.Some? && o.held.None? ==> Abs(Goal(net, x, s)) <= DUST)
      else o.fee == o.slip == 0.0 && held.None? && o.held.None?
  {
    var r := RequestFor(net, c, x, s);
    if s in x.marks && x.marks[s] > 0.0 {
      assert Target(r) == Goal(net, x, s);
      LegBills(s, held, r);
      LegTrades(s, held, r);
      var delta := Target(r) - SignedQty(held);
      if !Near(Target(r), SignedQty(held)) {
        NotNearMoves(Target(r), SignedQty(held));
        FrictionsAreTariff(net, c, x, s, delta);
      }
    } else {
      SkippedIsFlat(s, held, r);
    }
    hide LegStep, Frictions, Slipped, FeeRate, Near, Tariff, Goal, Target;
  }

  lemma NotNearMoves(target: real, current: real)
    requires !Near(target, current)
    ensures target - current != 0.0
  {
  }

  // ----- A whole run -----

  ghost function FeesBilled(a: Account, b: Account, net: map<string, real>, x: Execution): map<string, real>
  {
    map s | s in net :: Billed(a, b, net, x, s).fee
  }

  ghost function SlippageBilled(a: Account, b: Account, net: map<string, real>, x: Execution): map<string, real>
  {
    map s | s in net :: Billed(a, b, net, x, s).slip
  }

  lemma SymbolIsBilled(a: Account, c: Consolidated, x: Execution, order: seq<string>, s: string)
    requires Sound(a)
    requires Enumerates(order, WithDropped(c, a.positions)) && s in WithDropped(c, a.positions)
    requires RunAll(a, order, RequestsFor(WithDropped(c, a.positions), c, x)).Ok?
    ensures var net := WithDropped(c, a.positions);
      var b := RunAll(a, order, RequestsFor(net, c, x)).value;
      && LegStep(s, Held(a, s), RequestFor(net, c, x, s)).Ok?
      && (var o := LegStep(s, Held(a, s), RequestFor(net, c, x, s)).value;
          Billed(a, b, net, x, s) == Bill(o.fee, o.slip))
      && (Held(a, s).Some? && Held(b, s).None? ==>
            s in x.marks && x.marks[s] > 0.0 && Abs(Goal(net, x, s)) <= DUST)
  {
    hide LegStep, Tariff, RunAll, Goal, TradedBetween, RequestFor, WithDropped;
    var net := WithDropped(c, a.positions);
    RunHolds(a, order, RequestsFor(net, c, x));
    LegIsBilled(s, Held(a, s), net, c, x);
  }

  /** A completed run adds to the account's fees and slippage exactly the tariff of what each symbol traded,
      the traded quantity being the difference of its signed holdings; only a leg that vanished may have had a
      goal of dust instead of nothing. */
  lemma RunIsBilled(a: Account, c: Consolidated, x: Execution, order: seq<string>)
    requires Sound(a)
    requires Enumerates(order, WithDropped(c, a.positions))
    requires RunAll(a, order, RequestsFor(WithDropped(c, a.positions), c, x)).Ok?
    ensures var net := WithDropped(c, a.positions);
      var b := RunAll(a, order, RequestsFor(net, c, x)).value;
      && b.feesPaid == a.feesPaid + Sum(FeesBilled(a, b, net, x))
      && b.slippagePaid == a.slippagePaid + Sum(SlippageBilled(a, b, net, x))
      && forall s | s in net && Held(a, s).Some? && Held(b, s).None? ::
           s in x.marks && x.marks[s] > 0.0 && Abs(Goal(net, x, s)) <= DUST
  {
    hide LegStep, RunAll, Goal, Billed, RequestFor, WithDropped, Sum;
    var net := WithDropped(c, a.positions);
    var reqs := RequestsFor(net, c, x);
    var b := RunAll(a, order, reqs).value;
    forall s | s in net ensures LegStep(s, Held(a, s), reqs[s]).Ok? {
      SymbolIsBilled(a, c, x, order, s);
    }
    LegOrder.RunAdds(a, order, reqs, LegOrder.FeesPaid);
    LegOrder.RunAdds(a, order, reqs, LegOrder.SlippagePaid);
    var fees := LegOrder.Contributions(a, order, reqs, LegOrder.FeesPaid);
    var slips := LegOrder.Contributions(a, order, reqs, LegOrder.SlippagePaid);
    forall s | s in net ensures Billed(a, b, net, x, s) == Bill(fees[s], slips[s]) {
      SymbolIsBilled(a, c, x, order, s);
    }
    assert FeesBilled(a, b, net, x) == fees && SlippageBilled(a, b, net, x) == slips;
    forall s | s in net && Held(a, s).Some? && Held(b, s).None?
      ensures s in x.marks && x.marks[s] > 0.0 && Abs(Goal(net, x, s)) <= DUST {
      SymbolIsBilled(a, c, x, order, s);
    }
  }

  // ----- Maker and taker -----

  /** The same costs, but every symbol crosses as a maker or every symbol as a taker. */
  function AllAs(x: Execution, maker: bool): Execution
  {
    x.(costs := map s | s in x.costs :: x.costs[s].(maker := maker))
  }

  /** The same holdings end the run whatever the costs say. */
  lemma CostsMoveNoQuantity(s: string, held: Option<Position>, net: map<string, real>, c: Consolidated, x: Execution,
                            y: Execution)
    requires s in net && WellFormed(s, held) && y == x.(costs := y.costs)
    requires LegStep(s, held, RequestFor(net, c, x, s)).Ok? && LegStep(s, held, RequestFor(net, c, y, s)).Ok?
    requires s in x.marks && x.marks[s] > 0.0
    ensures TradedBetween(held, LegStep(s, held, RequestFor(net, c, x, s)).value.held, Goal(net, x, s))
         == TradedBetween(held, LegStep(s, held, RequestFor(net, c, y, s)).value.held, Goal(net, y, s))
  {
    hide LegStep, TradedBetween, Near;
    LegTrades(s, held, RequestFor(net, c, x, s));
    LegTrades(s, held, RequestFor(net, c, y, s));
  }

  lemma TariffAs(x: Execution, s: string, traded: real, mark: real)
    requires s in x.costs
    ensures 2.0 * Tariff(AllAs(x, false), s, traded, mark).fee == 5.0 * Tariff(AllAs(x, true), s, traded, mark).fee
  {
  }

  lemma SymbolAs(a: Account, c: Consolidated, x: Execution, taken: seq<string>, made: seq<string>, s: string)
    requires Sound(a) && s in WithDropped(c, a.positions) && s in x.costs
    requires var net := WithDropped(c, a.positions); Enumerates(taken, net) && Enumerates(made, net)
    requires var net := WithDropped(c, a.positions);
      && RunAll(a, taken, RequestsFor(net, c, AllAs(x, false))).Ok?
      && RunAll(a, made, RequestsFor(net, c, AllAs(x, true))).Ok?
    ensures var net := WithDropped(c, a.positions);
      var t := RunAll(a, taken, RequestsFor(net, c, AllAs(x, false))).value;
      var m := RunAll(a, made, RequestsFor(net, c, AllAs(x, true))).value;
      2.0 * Billed(a, t, net, AllAs(x, false), s).fee == 5.0 * Billed(a, m, net, AllAs(x, true), s).fee
  {
    hide LegStep, Tariff, RunAll, Goal, TradedBetween, RequestFor, WithDropped;
    var net := WithDropped(c, a.positions);
    RunHolds(a, taken, RequestsFor(net, c, AllAs(x, false)));
    RunHolds(a, made, RequestsFor(net, c, AllAs(x, true)));
    if s in x.marks && x.marks[s] > 0.0 {
      CostsMoveNoQuantity(s, Held(a, s), net, c, AllAs(x, false), AllAs(x, true));
      var t := RunAll(a, taken, RequestsFor(net, c, AllAs(x, false))).value;
      TariffAs(x, s, TradedBetween(Held(a, s), Held(t, s), Goal(net, AllAs(x, false), s)), x.marks[s]);
    }
  }

  /** A run that takes liquidity everywhere costs five halves of the fees of one that makes it everywhere. */
  lemma TakerCostsFiveHalves(a: Account, c: Consolidated, x: Execution, taken: seq<string>, made: seq<string>)
    requires Sound(a) && forall s | s in WithDropped(c, a.positions) :: s in x.costs
    requires var net := WithDropped(c, a.positions); Enumerates(taken, net) && Enumerates(made, net)
    requires var net := WithDropped(c, a.positions);
      && RunAll(a, taken, RequestsFor(net, c, AllAs(x, false))).Ok?
      && RunAll(a, made, RequestsFor(net, c, AllAs(x, true))).Ok?
    ensures var net := WithDropped(c, a.positions);
      var t := RunAll(a, taken, RequestsFor(net, c, AllAs(x, false))).value;
      var m := RunAll(a, made, RequestsFor(net, c, AllAs(x, true))).value;
      2.0 * (t.feesPaid - a.feesPaid) == 5.0 * (m.feesPaid - a.feesPaid)
  {
    hide LegStep, RunAll, Goal, Billed, RequestFor, WithDropped, AllAs, Sum, Scale;
    var net := WithDropped(c, a.positions);
    var t := RunAll(a, taken, RequestsFor(net, c, AllAs(x, false))).value;
    var m := RunAll(a, made, RequestsFor(net, c, AllAs(x, true))).value;
    RunIsBilled(a, c, AllAs(x, false), taken);
    RunIsBilled(a, c, AllAs(x, true), made);
    var takerFees, makerFees := FeesBilled(a, t, net, AllAs(x, false)), FeesBilled(a, m, net, AllAs(x, true));
    forall s | s in makerFees ensures takerFees[s] == Scale(2.5, makerFees[s]) {
      SymbolAs(a, c, x, taken, made, s);
      FiveHalves(takerFees[s], makerFees[s]);
    }
    SumScaled(makerFees, 2.5, takerFees);
    FiveHalves(Sum(takerFees), Sum(makerFees));
  }

  lemma FiveHalves(x: real, y: real)
    ensures 2.0 * x == 5.0 * y <==> x == Scale(2.5, y)
  {
  }
}
