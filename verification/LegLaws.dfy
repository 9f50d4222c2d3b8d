/** The laws of a single leg's reconciliation: value, journal totals, reached quantity, idempotence. */
module LegLaws {
  import opened Results
  import opened Sums
  import opened LegLifecycle

  ghost function ValueOf(held: Option<Position>, mark: real): real
  {
    if held.None? then 0.0 else Unrealized(held.value, mark)
  }

  lemma ScaleSigns(x: real, y: real)
    ensures x * y < 0.0 <==> (x < 0.0 < y || y < 0.0 < x)
    ensures x * y == 0.0 <==> (x == 0.0 || y == 0.0)
  {
    if x > 0.0 && y > 0.0 {
      assert x * y > 0.0;
    } else if x < 0.0 && y < 0.0 {
      assert (-x) * (-y) > 0.0;
    } else if x > 0.0 && y < 0.0 {
      assert x * (-y) > 0.0;
    } else if x < 0.0 && y > 0.0 {
      assert (-x) * y > 0.0;
    }
  }

  lemma UnrealizedIsSigned(p: Position, m: real)
    ensures Unrealized(p, m) == Scale(SignedQty(Some(p)), m - p.entryPrice)
  {
  }

  lemma ScaleLaws(a: real, b: real, x: real, y: real)
    ensures Scale(a, x) + Scale(b, x) == Scale(a + b, x)
    ensures Scale(a, x) + Scale(a, y) == Scale(a, x + y)
    ensures Scale(-a, x) == -Scale(a, x)
  {
  }

  /** How a plan compares with the held quantity decides the branch. */
  lemma Sides(held: Option<Position>, target: real)
    requires held.Some? ==> held.value.qty > 0.0
    requires !Near(target, SignedQty(held))
    ensures var current := SignedQty(held);
      if held.Some? && (target * current < 0.0 || Abs(target) < Abs(current)) then
        (current > 0.0 && target < current) || (current < 0.0 && target > current)
      else
        Abs(target) > DUST
        && (held.Some? ==> (current > 0.0 && target > current) || (current < 0.0 && target < current))
  {
    var current := SignedQty(held);
    ScaleSigns(target, current);
    assert Abs(target - current) > DUST;
  }

  /** The price P&L that popping a leg with a sub-dust residual leaves behind. */
  ghost function Forgone(held: Option<Position>, r: Request): real
    requires r.mark.Some? && r.mark.value > 0.0
  {
    var target, current := Target(r), SignedQty(held);
    if held.Some? && !Near(target, current) && target * current >= 0.0
       && Abs(target) < Abs(current) && Abs(target) <= DUST
    then Unrealized(held.value.(qty := Abs(target)), r.mark.value)
    else 0.0
  }

  lemma ForgoneIsDust(held: Option<Position>, r: Request)
    requires r.mark.Some? && r.mark.value > 0.0
    ensures held.None? ==> Forgone(held, r) == 0.0
    ensures held.Some? ==> Abs(Forgone(held, r)) <= Scale(DUST, Abs(r.mark.value - held.value.entryPrice))
    ensures Target(r) == 0.0 || Abs(Target(r)) > DUST ==> Forgone(held, r) == 0.0
  {
    if held.Some? {
      var q, gap := Abs(Target(r)), r.mark.value - held.value.entryPrice;
      ScaleGap(q, gap);
      assert Unrealized(held.value.(qty := q), r.mark.value)
          == if held.value.direction.Long? then q * gap else q * -gap;
    }
  }

  lemma ScaleGap(q: real, gap: real)
    requires q >= 0.0
    ensures Scale(DUST, Abs(gap)) >= 0.0
    ensures q <= DUST ==> Abs(q * gap) <= Scale(DUST, Abs(gap)) && Abs(q * -gap) <= Scale(DUST, Abs(gap))
  {
    if q <= DUST {
      assert q * Abs(gap) <= DUST * Abs(gap);
      assert q * -gap == -(q * gap);
      if gap < 0.0 {
        assert q * gap <= 0.0;
      } else {
        assert q * gap >= 0.0;
      }
    }
  }

  lemma RollConserves(p: Position, mark: real, opening: Opening, role: SeatRole, thesis: Option<Thesis>, m: real)
    ensures var o := Roll(p, mark, opening, role, thesis);
      ValueOf(o.held, m) + o.realized == ValueOf(Some(p), m) && SignedQty(o.held) == SignedQty(Some(p))
  {
    var o := Roll(p, mark, opening, role, thesis);
    UnrealizedIsSigned(o.held.value, m);
    UnrealizedIsSigned(p, m);
    UnrealizedIsSigned(p, mark);
    ScaleLaws(SignedQty(Some(p)), 0.0, m - mark, mark - p.entryPrice);
  }

  /** The residual value a close gives up, in terms of the plan. */
  ghost function Lost(p: Position, target: real, mark: real): real
  {
    if target * SignedQty(Some(p)) >= 0.0 && Abs(target) <= DUST
    then Unrealized(p.(qty := Abs(target)), mark) else 0.0
  }

  /** How much of each side a move away from the held quantity closes. */
  lemma ClosedSide(p: Position, target: real, mark: real)
    requires p.qty > 0.0
    requires (p.direction == Long && target < p.qty) || (p.direction == Short && target > -p.qty)
    ensures var c, current := ClosedQty(p, target), SignedQty(Some(p));
      var signed := if p.direction.Long? then c else -c;
      && Unrealized(p.(qty := c), mark) == Scale(signed, mark - p.entryPrice)
      && signed == (if target * current < 0.0 then current else current - target)
      && p.qty - c == (if target * current < 0.0 then 0.0 else Abs(target))
  {
    ScaleSigns(target, SignedQty(Some(p)));
    UnrealizedIsSigned(p.(qty := ClosedQty(p, target)), mark);
  }

  /** Reduce, close and flip: price P&L is moved between the leg and cash, never created. */
  lemma OppositeConserves(p: Position, d: Direction, target: real, mark: real, bill: Bill, own: Bill,
                          opening: Opening, role: SeatRole, thesis: Option<Thesis>, m: real)
    requires p.qty > 0.0
    requires target > 0.0 ==> d == Long
    requires target < 0.0 ==> d == Short
    requires (p.direction == Long && target < p.qty) || (p.direction == Short && target > -p.qty)
    ensures var o := Opposite(p, d, target, mark, bill, own, opening, role, thesis);
      var current := SignedQty(Some(p));
      && SignedQty(o.held) == (if Abs(target) <= DUST then 0.0 else target)
      && ValueOf(o.held, m) + o.realized
         == Unrealized(p, m) + Scale(SignedQty(o.held) - current, m - mark) - Lost(p, target, mark)
  {
    hide Scale, Unrealized, ClosedQty;
    var o := Opposite(p, d, target, mark, bill, own, opening, role, thesis);
    var current, e := SignedQty(Some(p)), p.entryPrice;
    ClosedSide(p, target, mark);
    ScaleSigns(target, current);
    UnrealizedIsSigned(p, m);
    UnrealizedIsSigned(p.(qty := Abs(target)), mark);
    if o.held.Some? {
      UnrealizedIsSigned(o.held.value, m);
    }
    SplitValue(current, current - target, m, mark, e);
    FlipValue(current, target, m, mark, e);
    FlipValue(current, 0.0, m, mark, e);
    ScaleLaws(0.0, 0.0, m - mark, 0.0);
    PopValue(current, target, m, mark, e);
  }

  lemma SplitValue(q: real, c: real, m: real, k: real, e: real)
    ensures Scale(q - c, m - e) + Scale(c, k - e) == Scale(q, m - e) + Scale(-c, m - k)
  {
    ScaleLaws(c, q - c, m - e, 0.0);
    ScaleLaws(c, 0.0, k - e, m - k);
    ScaleLaws(-c, 0.0, m - k, 0.0);
    ScaleLaws(c, 0.0, m - k, 0.0);
  }

  lemma FlipValue(q: real, t: real, m: real, k: real, e: real)
    ensures Scale(t, m - k) + Scale(q, k - e) == Scale(q, m - e) + Scale(t - q, m - k)
  {
    ScaleLaws(t - q, q, m - k, 0.0);
    ScaleLaws(q, 0.0, m - k, k - e);
  }

  lemma PopValue(q: real, t: real, m: real, k: real, e: real)
    ensures Scale(q - t, k - e) == Scale(q, m - e) + Scale(-q, m - k) - Scale(t, k - e)
  {
    ScaleLaws(q - t, t, k - e, 0.0);
    ScaleLaws(q, 0.0, m - k, k - e);
    ScaleLaws(q, 0.0, m - k, 0.0);
  }

  lemma IncreaseConserves(s: string, held: Option<Position>, d: Direction, fill: real, mark: real,
       bill: Bill, opening: Opening, role: SeatRole, thesis: Option<Thesis>, m: real)
    requires fill > 0.0
    requires held.Some? ==> held.value.qty > 0.0 && held.value.direction == d
    ensures var o := Increase(s, held, d, fill, mark, bill, opening, role, thesis);
      && SignedQty(o.held) == SignedQty(held) + (if d.Long? then fill else -fill)
      && ValueOf(o.held, m) + o.realized
         == ValueOf(held, m) + Scale(SignedQty(o.held) - SignedQty(held), m - mark)
  {
    var o := Increase(s, held, d, fill, mark, bill, opening, role, thesis);
    UnrealizedIsSigned(o.held.value, m);
    if held.Some? {
      var p := held.value;
      UnrealizedIsSigned(p, m);
      BlendedValue(p.qty, fill, p.entryPrice, mark, m);
    }
  }

  /** Volume-weighted blending keeps the cost of what is held. */
  lemma BlendedValue(q: real, fill: real, e: real, k: real, m: real)
    requires q > 0.0 && fill > 0.0
    ensures var blended := (e * q + k * fill) / (q + fill);
      && Scale(q + fill, m - blended) == Scale(q, m - e) + Scale(fill, m - k)
      && Scale(-(q + fill), m - blended) == Scale(-q, m - e) + Scale(-fill, m - k)
  {
    var total := q + fill;
    var blended := (e * q + k * fill) / total;
    assert Scale(total, blended) == e * q + k * fill;
    assert Scale(total, m - blended) == total * m - total * blended;
    ScaleLaws(total, 0.0, m - blended, 0.0);
    ScaleLaws(q, 0.0, m - e, 0.0);
    ScaleLaws(fill, 0.0, m - k, 0.0);
  }

  /** The quantity a leg ends with: its target, unless it was already near it or the target is dust. */
  function Reached(current: real, target: real): real
  {
    if Near(target, current) then current else if Abs(target) <= DUST then 0.0 else target
  }

  predicate DirectionFits(p: Plan)
  {
    (p.target > 0.0 ==> p.direction == Long) && (p.target < 0.0 ==> p.direction == Short)
  }

  lemma TradeAwayConserves(held: Position, p: Plan, bill: Bill, opening: Opening, m: real)
    requires held.qty > 0.0
    requires DirectionFits(p)
    requires !Near(p.target, SignedQty(Some(held))) && MovesAway(SignedQty(Some(held)), p.target)
    ensures var o := TradeAway(held, p, bill, opening);
      var current := SignedQty(Some(held));
      && SignedQty(o.held) == Reached(current, p.target)
      && ValueOf(o.held, m) + o.realized
         == Unrealized(held, m) + Scale(SignedQty(o.held) - current, m - p.mark) - Lost(held, p.target, p.mark)
  {
    Sides(Some(held), p.target);
    var role, thesis := if p.rolledAfter then held.seatRole else p.role,
                        if p.rolledAfter then None else p.thesis;
    var own := OldBill(held, p.target, bill);
    OppositeConserves(held, p.direction, p.target, p.mark, bill, own, opening, role, thesis, m);
    var first := Opposite(held, p.direction, p.target, p.mark, bill, own, opening, role, thesis);
    if p.rolledAfter && first.held.Some? {
      RollConserves(first.held.value, p.mark, opening, p.role, p.thesis, m);
    }
  }

  lemma RelabelConserves(held: Option<Position>, p: Plan, m: real)
    ensures var o := Relabel(held, p);
      SignedQty(o.held) == SignedQty(held) && ValueOf(o.held, m) == ValueOf(held, m)
  {
  }

  lemma TradedConserves(s: string, held: Option<Position>, p: Plan, r: Request, m: real)
    requires WellFormed(s, held)
    requires DirectionFits(p)
    requires Traded(s, held, p, r).Ok?
    ensures var o := Traded(s, held, p, r).value;
      var current := SignedQty(held);
      var lost := if held.Some? && !Near(p.target, current) && MovesAway(current, p.target)
                  then Lost(held.value, p.target, p.mark) else 0.0;
      && SignedQty(o.held) == Reached(current, p.target)
      && ValueOf(o.held, m) + o.realized
         == ValueOf(held, m) + Scale(SignedQty(o.held) - current, m - p.mark) - lost
  {
    hide Scale, Frictions, TradeAway, Increase, Unrealized, Lost;
    var current := SignedQty(held);
    var delta := p.target - current;
    var bill := Frictions(r, delta, p.mark);
    if Near(p.target, current) {
      RelabelConserves(held, p, m);
      ScaleLaws(0.0, 0.0, m - p.mark, 0.0);
    } else if held.Some? && MovesAway(current, p.target) {
      TradeAwayConserves(held.value, p, bill.value, r.opening, m);
    } else {
      Sides(held, p.target);
      IncreaseConserves(s, held, p.direction, Abs(delta), p.mark, bill.value, r.opening, p.role, p.thesis, m);
    }
  }

  /** The law every branch obeys, at every later mark `m`: a leg's value plus the price P&L banked
      moves only by the traded quantity times the distance of `m` from the execution mark, less the
      sub-dust residual a close pops.  At `m` equal to the execution mark, trading is value-neutral. */
  lemma LegConserves(s: string, held: Option<Position>, r: Request, m: real)
    requires WellFormed(s, held)
    requires r.mark.Some? && r.mark.value > 0.0
    requires LegStep(s, held, r).Ok?
    ensures var o := LegStep(s, held, r).value;
      && SignedQty(o.held) == Reached(SignedQty(held), Target(r))
      && ValueOf(o.held, m) + o.realized
         == ValueOf(held, m) + Scale(SignedQty(o.held) - SignedQty(held), m - r.mark.value) - Forgone(held, r)
  {
    hide Scale, Unrealized, Traded, ValueOf;
    var p := PlanFor(held, r);
    if held.Some? {
      ScaleSigns(p.target, SignedQty(held));
    }
    if p.rolled {
      var roll := Roll(held.value, p.mark, r.opening, p.role, p.thesis);
      RollConserves(held.value, p.mark, r.opening, p.role, p.thesis, m);
      TradedConserves(s, roll.held, p, r, m);
    } else {
      TradedConserves(s, held, p, r, m);
    }
  }

  /** A leg that trades ends within the comparison tolerance of its target. */
  lemma ReachedIsTarget(current: real, target: real)
    ensures Abs(Reached(current, target) - target) <= Max(DUST * Max(Abs(target), Abs(current)), DUST)
    ensures Near(target, Reached(current, target))
  {
    assert DUST * Max(Abs(target), Abs(current)) >= 0.0;
    assert DUST * Max(Abs(target), 0.0) >= 0.0;
  }

  /** Whatever was held, a reconciled leg ends within the comparison tolerance of its target. */
  lemma LegReachesTarget(s: string, held: Option<Position>, r: Request)
    requires WellFormed(s, held)
    requires r.mark.Some? && r.mark.value > 0.0 && LegStep(s, held, r).Ok?
    ensures var reached := SignedQty(LegStep(s, held, r).value.held);
      && Abs(reached - Target(r)) <= Max(DUST * Max(Abs(Target(r)), Abs(SignedQty(held))), DUST)
      && Near(Target(r), reached)
  {
    hide LegStep, Scale, ValueOf, Forgone, Near;
    LegConserves(s, held, r, 0.0);
    ReachedIsTarget(SignedQty(held), Target(r));
  }

  // ----- What the journal is told -----

  /** Totals over finished lifecycles. */
  datatype Totals = Totals(fees: real, slippage: real, funding: real, realized: real)

  function Plus(a: Totals, b: Totals): Totals
  {
    Totals(a.fees + b.fees, a.slippage + b.slippage, a.funding + b.funding, a.realized + b.realized)
  }

  function ClosedTotals(legs: seq<ClosedLeg>): Totals
  {
    if legs == [] then NOTHING
    else
      var last := legs[|legs| - 1];
      Plus(ClosedTotals(legs[..|legs| - 1]),
           Totals(last.fees, last.slippage, last.realizedFunding, last.realizedPnl))
  }

  lemma {:induction false} ClosedTotalsConcat(a: seq<ClosedLeg>, b: seq<ClosedLeg>)
    ensures ClosedTotals(a + b) == Plus(ClosedTotals(a), ClosedTotals(b))
  {
    if b == [] {
      assert a + b == a;
    } else {
      var front := b[..|b| - 1];
      assert (a + b)[..|a + b| - 1] == a + front;
      ClosedTotalsConcat(a, front);
    }
  }

  const NOTHING := Totals(0.0, 0.0, 0.0, 0.0)

  function HeldTotals(held: Option<Position>): Totals
  {
    match held
    case None => NOTHING
    case Some(p) => Totals(p.accruedFees, p.accruedSlippage, p.accruedFunding, p.realizedPnl)
  }

  lemma PlusChain(h: Totals, ah: Totals, bh: Totals, ac: Totals, bc: Totals, ca: Totals, cb: Totals)
    requires Plus(ah, ac) == Plus(h, ca)
    requires Plus(bh, bc) == Plus(ah, cb)
    ensures Plus(bh, Plus(ac, bc)) == Plus(h, Plus(ca, cb))
  {
  }

  /** What the outcome adds to the account's aggregates and no leg carries away. */
  function Charged(o: LegOutcome): Totals
  {
    Totals(o.fee - o.orphanFee, o.slip - o.orphanSlip, 0.0, o.realized)
  }

  lemma OneClosed(c: ClosedLeg)
    ensures ClosedTotals([c]) == Totals(c.fees, c.slippage, c.realizedFunding, c.realizedPnl)
    ensures ClosedTotals([]) == NOTHING
  {
    assert [c][..0] == [];
    assert ClosedTotals([c][..0]) == NOTHING;
  }

  lemma ClosingJournals(p: Position, d: Direction, target: real, mark: real, c: real, realized: real,
                        bill: Bill, own: Bill, opening: Opening, role: SeatRole, thesis: Option<Thesis>)
    ensures var o := Closing(p, d, target, mark, c, realized, bill, own, opening, role, thesis);
      Plus(HeldTotals(o.held), ClosedTotals(o.closed)) == Plus(HeldTotals(Some(p)), Charged(o))
  {
    var o := Closing(p, d, target, mark, c, realized, bill, own, opening, role, thesis);
    OneClosed(Snapshot(p.(accruedFees := p.accruedFees + own.fee, accruedSlippage := p.accruedSlippage + own.slip,
                          realizedPnl := p.realizedPnl + realized)));
    hide ClosedTotals;
  }

  lemma GrownJournals(s: string, held: Option<Position>, d: Direction, fill: real, entry: real,
                      bill: Bill, opening: Opening, role: SeatRole, thesis: Option<Thesis>)
    ensures var o := Grown(s, held, d, fill, entry, bill, opening, role, thesis);
      Plus(HeldTotals(o.held), ClosedTotals(o.closed)) == Plus(HeldTotals(held), Charged(o))
  {
    assert ClosedTotals([]) == NOTHING;
  }

  lemma RollJournals(p: Position, mark: real, opening: Opening, role: SeatRole, thesis: Option<Thesis>)
    ensures var o := Roll(p, mark, opening, role, thesis);
      Plus(HeldTotals(o.held), ClosedTotals(o.closed)) == Plus(HeldTotals(Some(p)), Charged(o))
  {
    OneClosed(Roll(p, mark, opening, role, thesis).closed[0]);
  }

  lemma ThenJournals(held: Option<Position>, a: LegOutcome, b: LegOutcome)
    requires Plus(HeldTotals(a.held), ClosedTotals(a.closed)) == Plus(HeldTotals(held), Charged(a))
    requires Plus(HeldTotals(b.held), ClosedTotals(b.closed)) == Plus(HeldTotals(a.held), Charged(b))
    ensures var o := Then(a, b);
      Plus(HeldTotals(o.held), ClosedTotals(o.closed)) == Plus(HeldTotals(held), Charged(o))
  {
    ClosedTotalsConcat(a.closed, b.closed);
    PlusChain(HeldTotals(held), HeldTotals(a.held), HeldTotals(b.held),
              ClosedTotals(a.closed), ClosedTotals(b.closed), Charged(a), Charged(b));
    assert Charged(Then(a, b)) == Plus(Charged(a), Charged(b));
  }

  lemma TradeAwayJournals(held: Position, p: Plan, bill: Bill, opening: Opening)
    ensures var o := TradeAway(held, p, bill, opening);
      Plus(HeldTotals(o.held), ClosedTotals(o.closed)) == Plus(HeldTotals(Some(held)), Charged(o))
  {
    var role, thesis := if p.rolledAfter then held.seatRole else p.role,
                        if p.rolledAfter then None else p.thesis;
    var own := OldBill(held, p.target, bill);
    var c := ClosedQty(held, p.target);
    ClosingJournals(held, p.direction, p.target, p.mark, c, Unrealized(held.(qty := c), p.mark), bill, own,
                    opening, role, thesis);
    var first := Opposite(held, p.direction, p.target, p.mark, bill, own, opening, role, thesis);
    if p.rolledAfter && first.held.Some? {
      RollJournals(first.held.value, p.mark, opening, p.role, p.thesis);
      ThenJournals(Some(held), first, Roll(first.held.value, p.mark, opening, p.role, p.thesis));
    }
  }

  lemma TradedJournals(s: string, held: Option<Position>, p: Plan, r: Request)
    requires WellFormed(s, held)
    requires Traded(s, held, p, r).Ok?
    ensures var o := Traded(s, held, p, r).value;
      Plus(HeldTotals(o.held), ClosedTotals(o.closed)) == Plus(HeldTotals(held), Charged(o))
  {
    var delta := p.target - SignedQty(held);
    var bill := Frictions(r, delta, p.mark);
    if Near(p.target, SignedQty(held)) {
      assert ClosedTotals([]) == NOTHING;
    } else if held.Some? && MovesAway(SignedQty(held), p.target) {
      TradeAwayJournals(held.value, p, bill.value, r.opening);
    } else {
      GrownJournals(s, held, p.direction, Abs(delta), BlendedEntry(held, Abs(delta), p.mark), bill.value, r.opening,
                    p.role, p.thesis);
    }
  }

  // ----- Frictions no leg carries -----

  /** The request crosses to a quantity on the other side too small to be held. */
  predicate SubDustFlip(held: Option<Position>, r: Request)
  {
    r.mark.Some? && r.mark.value > 0.0 && held.Some?
    && Target(r) * SignedQty(held) < 0.0 && Abs(Target(r)) <= DUST && !Near(Target(r), SignedQty(held))
  }

  /** The opening side's share of a flip. */
  function OpeningShare(held: Option<Position>, r: Request): real
    requires SubDustFlip(held, r) && held.value.qty > 0.0
  {
    Abs(Target(r)) / (held.value.qty + Abs(Target(r)))
  }

  /** What a step charges the account without any leg carrying it. */
  function OrphanBill(held: Option<Position>, r: Request): Bill
    requires held.Some? ==> held.value.qty > 0.0
  {
    if SubDustFlip(held, r) then
      match Frictions(r, Target(r) - SignedQty(held), r.mark.value)
      case Err(_) => Bill(0.0, 0.0)
      case Ok(bill) => Bill(bill.fee * OpeningShare(held, r), bill.slip * OpeningShare(held, r))
    else Bill(0.0, 0.0)
  }

  lemma Whole(x: real, y: real)
    requires x > 0.0 && y == x
    ensures x / y == 1.0
  {
  }

  lemma CrossingCloses(p: Position, target: real)
    requires p.qty > 0.0 && target * SignedQty(Some(p)) < 0.0
    ensures ClosedQty(p, target) == p.qty && OldShare(p, target) == p.qty / (p.qty + Abs(target))
  {
    ScaleSigns(target, SignedQty(Some(p)));
  }

  lemma StayingCloses(p: Position, target: real)
    requires p.qty > 0.0 && target * SignedQty(Some(p)) >= 0.0 && !Near(target, SignedQty(Some(p)))
    ensures OldShare(p, target) == 1.0
  {
    var closed := ClosedQty(p, target);
    assert closed > 0.0;
    Whole(closed, closed + 0.0);
    hide Near, ClosedQty;
  }

  lemma ClosingOrphans(p: Position, d: Direction, target: real, mark: real, bill: Bill, own: Bill,
                       opening: Opening, role: SeatRole, thesis: Option<Thesis>)
    requires p.qty > 0.0 && !Near(target, SignedQty(Some(p))) && own == OldBill(p, target, bill)
    ensures var o, t := Opposite(p, d, target, mark, bill, own, opening, role, thesis), Abs(target);
      if target * SignedQty(Some(p)) < 0.0 && t <= DUST then
        o.held.None? && o.orphanFee == bill.fee * (t / (p.qty + t)) && o.orphanSlip == bill.slip * (t / (p.qty + t))
      else o.orphanFee == o.orphanSlip == 0.0
  {
    hide Unrealized, Near, OldShare, ClosedQty;
    if target * SignedQty(Some(p)) < 0.0 {
      ScaleSigns(target, SignedQty(Some(p)));
      CrossingCloses(p, target);
      SharesAddUp(bill.fee, p.qty, Abs(target));
      SharesAddUp(bill.slip, p.qty, Abs(target));
    } else {
      StayingCloses(p, target);
    }
  }

  lemma TradeAwayOrphans(p: Position, plan: Plan, bill: Bill, opening: Opening)
    requires p.qty > 0.0 && !Near(plan.target, SignedQty(Some(p)))
    ensures var o, t := TradeAway(p, plan, bill, opening), Abs(plan.target);
      if plan.target * SignedQty(Some(p)) < 0.0 && t <= DUST then
        o.held.None? && o.orphanFee == bill.fee * (t / (p.qty + t)) && o.orphanSlip == bill.slip * (t / (p.qty + t))
      else o.orphanFee == o.orphanSlip == 0.0
  {
    hide Opposite, OldBill, Near, Unrealized;
    ClosingOrphans(p, plan.direction, plan.target, plan.mark, bill, OldBill(p, plan.target, bill), opening,
                   if plan.rolledAfter then p.seatRole else plan.role, if plan.rolledAfter then None else plan.thesis);
  }

  lemma TradedOrphans(s: string, held: Option<Position>, p: Plan, r: Request)
    requires WellFormed(s, held) && r.mark.Some? && r.mark.value > 0.0 && p.target == Target(r)
        && p.mark == r.mark.value
    requires Traded(s, held, p, r).Ok?
    ensures var o := Traded(s, held, p, r).value;
      && Bill(o.orphanFee, o.orphanSlip) == OrphanBill(held, r)
      && (SubDustFlip(held, r) ==> o.held.None? && Frictions(r, Target(r) - SignedQty(held), r.mark.value).Ok?)
  {
    hide Frictions, TradeAway, Near, BlendedEntry, Target;
    if held.Some? && !Near(p.target, SignedQty(held)) {
      var bill := Frictions(r, p.target - SignedQty(held), p.mark).value;
      TradeAwayOrphans(held.value, p, bill, r.opening);
    }
  }

  /** Only a sub-dust flip leaves frictions on no leg: exactly the opening side's share of its bill, and the
      leg is gone. */
  lemma OrphansExactly(s: string, held: Option<Position>, r: Request)
    requires WellFormed(s, held)
    requires LegStep(s, held, r).Ok?
    ensures var o := LegStep(s, held, r).value;
      && Bill(o.orphanFee, o.orphanSlip) == OrphanBill(held, r)
      && (SubDustFlip(held, r) ==> o.held.None? && Frictions(r, Target(r) - SignedQty(held), r.mark.value).Ok?)
  {
    hide Frictions, Traded, Near, Unrealized;
    if r.mark.Some? && r.mark.value > 0.0 {
      var p := PlanFor(held, r);
      if p.rolled {
        TradedOrphans(s, Roll(held.value, p.mark, r.opening, p.role, p.thesis).held, p, r);
      } else {
        TradedOrphans(s, held, p, r);
      }
    }
  }

  /** Every fee, slippage, funding and price P&L of a leg ends on the leg still held, on the lifecycles
      closed, or on the account alone; and on the account alone only in a sub-dust flip. */
  lemma LegJournals(s: string, held: Option<Position>, r: Request)
    requires WellFormed(s, held)
    requires LegStep(s, held, r).Ok?
    ensures var o := LegStep(s, held, r).value;
      && Plus(HeldTotals(o.held), ClosedTotals(o.closed)) == Plus(HeldTotals(held), Charged(o))
      && Bill(o.orphanFee, o.orphanSlip) == OrphanBill(held, r)
      && (!SubDustFlip(held, r) ==> o.orphanFee == o.orphanSlip == 0.0)
  {
    OrphansExactly(s, held, r);
    hide OrphanBill, SubDustFlip;
    if r.mark.Some? && r.mark.value > 0.0 {
      var p := PlanFor(held, r);
      if p.rolled {
        var roll := Roll(held.value, p.mark, r.opening, p.role, p.thesis);
        RollJournals(held.value, p.mark, r.opening, p.role, p.thesis);
        TradedJournals(s, roll.held, p, r);
        ThenJournals(held, roll, Traded(s, roll.held, p, r).value);
      } else {
        TradedJournals(s, held, p, r);
      }
    }
  }

  // ----- Re-sending, flips and role transfers -----

  /** Once reconciled, the same request changes nothing at all: no trade, no friction, no lifecycle. */
  lemma LegIdempotent(s: string, held: Option<Position>, r: Request)
    requires WellFormed(s, held)
    requires LegStep(s, held, r).Ok?
    requires WellFormed(s, LegStep(s, held, r).value.held)
    ensures LegStep(s, LegStep(s, held, r).value.held, r) == Ok(Unchanged(LegStep(s, held, r).value.held))
  {
    var o := LegStep(s, held, r).value;
    if r.mark.Some? && r.mark.value > 0.0 {
      var p := PlanFor(held, r);
      LegConserves(s, held, r, 0.0);
      LegLabels(s, held, r);
      ReachedIsTarget(SignedQty(held), p.target);
      hide Scale, Unrealized, ValueOf, TradeAway, Increase, Frictions;
      if o.held.Some? {
        var q := PlanFor(o.held, r);
        assert Near(q.target, SignedQty(o.held));
        assert q.role == o.held.value.seatRole;
        assert Rethought(o.held.value.thesis, q.thesis) == o.held.value.thesis;
      }
    }
  }

  /** A held leg always carries the plan's role, and its thesis whenever the plan has one. */
  lemma LegLabels(s: string, held: Option<Position>, r: Request)
    requires WellFormed(s, held)
    requires r.mark.Some? && r.mark.value > 0.0
    requires LegStep(s, held, r).Ok?
    ensures var o, p := LegStep(s, held, r).value, PlanFor(held, r);
      o.held.Some? ==> o.held.value.seatRole == p.role && (p.thesis.Some? ==> o.held.value.thesis == p.thesis.value)
  {
    hide Scale, Unrealized, Near, ClosedQty, OldBill, BlendedEntry, Frictions, MovesAway, PlanFor;
  }

  lemma IncreaseStaysWellFormed(s: string, held: Option<Position>, d: Direction, fill: real, mark: real,
                                bill: Bill, opening: Opening, role: SeatRole, thesis: Option<Thesis>)
    requires WellFormed(s, held) && fill > 0.0 && mark > 0.0
    ensures WellFormed(s, Increase(s, held, d, fill, mark, bill, opening, role, thesis).held)
  {
    if held.Some? {
      BlendIsPositive(held.value.entryPrice, held.value.qty, mark, fill);
    }
  }

  lemma TradeAwayStaysWellFormed(s: string, held: Position, p: Plan, bill: Bill, opening: Opening)
    requires WellFormed(s, Some(held)) && p.mark > 0.0
    ensures WellFormed(s, TradeAway(held, p, bill, opening).held)
  {
    hide Unrealized, OldBill, ClosedQty;
  }

  lemma TradedStaysWellFormed(s: string, held: Option<Position>, p: Plan, r: Request)
    requires WellFormed(s, held) && p.mark > 0.0
    requires Traded(s, held, p, r).Ok?
    ensures WellFormed(s, Traded(s, held, p, r).value.held)
  {
    hide Frictions, TradeAway, Increase;
    var delta := p.target - SignedQty(held);
    if !Near(p.target, SignedQty(held)) {
      var bill := Frictions(r, delta, p.mark);
      if held.Some? && MovesAway(SignedQty(held), p.target) {
        TradeAwayStaysWellFormed(s, held.value, p, bill.value, r.opening);
      } else {
        IncreaseStaysWellFormed(s, held, p.direction, Abs(delta), p.mark, bill.value, r.opening, p.role, p.thesis);
      }
    }
  }

  lemma RollWellFormed(s: string, p: Position, mark: real, opening: Opening, role: SeatRole, thesis: Option<Thesis>)
    requires WellFormed(s, Some(p)) && mark > 0.0
    ensures WellFormed(s, Roll(p, mark, opening, role, thesis).held)
  {
  }

  /** Reconciliation keeps a leg well-formed. */
  lemma LegStaysWellFormed(s: string, held: Option<Position>, r: Request)
    requires WellFormed(s, held)
    requires LegStep(s, held, r).Ok?
    ensures WellFormed(s, LegStep(s, held, r).value.held)
  {
    hide Unrealized, Traded;
    if r.mark.Some? && r.mark.value > 0.0 {
      var p := PlanFor(held, r);
      var before := if p.rolled then Roll(held.value, p.mark, r.opening, p.role, p.thesis).held else held;
      TradedStaysWellFormed(s, before, p, r);
    }
  }

  lemma BlendIsPositive(e: real, q: real, k: real, fill: real)
    requires e > 0.0 && q > 0.0 && k > 0.0 && fill > 0.0
    ensures (e * q + k * fill) / (q + fill) > 0.0
  {
    assert e * q > 0.0 && k * fill > 0.0;
  }

  /** A flip bills each lifecycle its own share of the frictions, by traded quantity. */
  lemma FlipSplitsFrictions(p: Position, plan: Plan, bill: Bill, opening: Opening)
    requires p.qty > 0.0
    requires plan.target * SignedQty(Some(p)) < 0.0 && Abs(plan.target) > DUST && !plan.rolledAfter
    ensures var o := TradeAway(p, plan, bill, opening);
      && o.held.Some? && |o.closed| == 1
      && o.closed[0].fees == p.accruedFees + bill.fee * (p.qty / (p.qty + Abs(plan.target)))
      && o.held.value.accruedFees == bill.fee * (Abs(plan.target) / (p.qty + Abs(plan.target)))
      && o.closed[0].slippage == p.accruedSlippage + bill.slip * (p.qty / (p.qty + Abs(plan.target)))
      && o.held.value.accruedSlippage == bill.slip * (Abs(plan.target) / (p.qty + Abs(plan.target)))
  {
    var q, t := p.qty, Abs(plan.target);
    ScaleSigns(plan.target, SignedQty(Some(p)));
    assert ClosedQty(p, plan.target) == q;
    assert OldShare(p, plan.target) == q / (q + t);
    SharesAddUp(bill.fee, q, t);
    SharesAddUp(bill.slip, q, t);
  }

  lemma SharesAddUp(x: real, q: real, t: real)
    requires q > 0.0 && t > 0.0
    ensures x - x * (q / (q + t)) == x * (t / (q + t))
  {
    var a, b := q / (q + t), t / (q + t);
    assert a + b == (q + t) / (q + t) == 1.0;
    assert x * (a + b) == x * a + x * b;
  }

  /** A kept leg's role changes without its old lifecycle being journaled exactly when nothing is traded
      and the role transfer was skipped: the quantity is within the comparison tolerance of the target
      but a hair above it in size, or on the other side of zero. */
  lemma SilentRoleChangeIff(s: string, held: Option<Position>, r: Request)
    requires WellFormed(s, held) && held.Some?
    requires r.mark.Some? && r.mark.value > 0.0
    requires LegStep(s, held, r).Ok? && LegStep(s, held, r).value.held.Some?
    ensures var o, p := LegStep(s, held, r).value, PlanFor(held, r);
      (o.held.value.seatRole != held.value.seatRole && o.closed == []) <==>
      (p.role != held.value.seatRole && Near(p.target, SignedQty(held))
       && (Abs(p.target) < Abs(SignedQty(held)) || p.direction != held.value.direction))
  {
    LegLabels(s, held, r);
    var o, p := LegStep(s, held, r).value, PlanFor(held, r);
    var current := SignedQty(held);
    if !p.rolled && !Near(p.target, current) {
      Sides(held, p.target);
      ScaleSigns(p.target, current);
    }
    hide Scale, Unrealized, Frictions, OldBill, BlendedEntry, Quote;
  }

  /** The case is real: re-labelling a seat while asking for a hair less than is held. */
  lemma SilentRoleChangeWitness()
    ensures var held := Some(Position("BTC", Long, 1.0, 100.0, Opening(0, None, None), Alpha, NO_THESIS, 0.0, 3.0,
        0.0, 0.0));
      var r := Request(100.0, Some(100.0), Some(Hedge), None, Some(1.0 - DUST / 2.0), Opening(1, None, None),
          (d, m) => 0.0, 0.0005);
      && LegStep("BTC", held, r).Ok?
      && LegStep("BTC", held, r).value.closed == []
      && LegStep("BTC", held, r).value.held.value.seatRole == Hedge
      && LegStep("BTC", held, r).value.held.value.accruedFees == 3.0
  {
  }
}
