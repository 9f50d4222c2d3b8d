/** What one symbol's reconciliation does to the leg held in it: open, blend, reduce, close, flip,
    re-label, or nothing.  These functions are the specification of the `PaperAccount` methods in
    PaperAccount.dfy; what the ledger promises is proved about them here. */
module LegLifecycle {
  import opened Results
  import opened Sums

  /** A missing mark is only forgiven for an unheld symbol whose net target is below this. */
  const NET_CUTOFF: real := 0.000000001

  /** The one symbol a hedge seat may hold. */
  const BTC: string := "BTC/USDT:USDT"

  datatype Direction = Long | Short
  datatype SeatRole = Alpha | Hedge
  datatype Thesis = Thesis(cycle: Option<int>, bookSha256: Option<string>, expectedEdge: Option<real>,
                           horizonHours: Option<int>, basis: string, invalidation: string)
  datatype Opening = Opening(ts: int, cycle: Option<int>, cadence: Option<string>)

  const NO_THESIS := Thesis(None, None, None, None, "", "")

  datatype Position = Position(symbol: string, direction: Direction, qty: real, entryPrice: real,
                               opening: Opening, seatRole: SeatRole, thesis: Thesis,
                               accruedFunding: real, accruedFees: real, accruedSlippage: real,
                               realizedPnl: real)

  /** The record a finished lifecycle leaves for the journal. */
  datatype ClosedLeg = ClosedLeg(symbol: string, direction: Direction, openedCycle: Option<int>,
                                 openedCadence: Option<string>, seatRole: SeatRole, thesis: Thesis,
                                 fees: real, slippage: real, realizedFunding: real, realizedPnl: real)

  function Sign(d: Direction): real
  {
    if d.Long? then 1.0 else -1.0
  }

  function SignedQty(p: Option<Position>): real
  {
    match p
    case None => 0.0
    case Some(q) => if q.direction.Long? then q.qty else -q.qty
  }

  function Unrealized(p: Position, mark: real): real
  {
    if p.direction.Long? then p.qty * (mark - p.entryPrice) else p.qty * (p.entryPrice - mark)
  }

  function Snapshot(p: Position): ClosedLeg
  {
    ClosedLeg(p.symbol, p.direction, p.opening.cycle, p.opening.cadence, p.seatRole, p.thesis,
              p.accruedFees, p.accruedSlippage, p.accruedFunding, p.realizedPnl)
  }

  function Rethought(standing: Thesis, update: Option<Thesis>): Thesis
  {
    if update.Some? then update.value else standing
  }

  /** Everything one symbol contributes to the account: the leg held afterwards, the price P&L moved
      into cash, the frictions charged (the orphan part is carried by no leg) and the finished
      lifecycles. */
  datatype LegOutcome = LegOutcome(held: Option<Position>, realized: real, fee: real, slip: real,
                                   orphanFee: real, orphanSlip: real, closed: seq<ClosedLeg>)

  datatype Bill = Bill(fee: real, slip: real)

  function Unchanged(held: Option<Position>): LegOutcome
  {
    LegOutcome(held, 0.0, 0.0, 0.0, 0.0, 0.0, [])
  }

  /** Zero-turnover role transfer at one mark. */
  function Roll(p: Position, mark: real, opening: Opening, role: SeatRole, thesis: Option<Thesis>): LegOutcome
  {
    var realized := Unrealized(p, mark);
    var snap := Snapshot(p.(realizedPnl := p.realizedPnl + realized));
    LegOutcome(Some(p.(entryPrice := mark, opening := opening, seatRole := role,
                       accruedFunding := 0.0, accruedFees := 0.0, accruedSlippage := 0.0,
                       realizedPnl := 0.0, thesis := Rethought(p.thesis, thesis))),
               realized, 0.0, 0.0, 0.0, 0.0, [snap])
  }

  /** The part of a traded delta that closes the held side. */
  function ClosedQty(p: Position, target: real): real
  {
    Min(Abs(target - SignedQty(Some(p))), p.qty)
  }

  /** The share of a flip's frictions billed to the leg being closed. */
  function OldShare(p: Position, target: real): real
  {
    var closed := ClosedQty(p, target);
    var newOpen := if target * SignedQty(Some(p)) < 0.0 then Abs(target) else 0.0;
    if closed + newOpen > 0.0 then closed / (closed + newOpen) else 1.0
  }

  /** The frictions of a trade, split between the leg it closes and the leg it opens. */
  function OldBill(p: Position, target: real, bill: Bill): Bill
  {
    var share := OldShare(p, target);
    Bill(bill.fee * share, bill.slip * share)
  }

  /** Close `closedQty` of the held side for `realized` price P&L; keep the residual, or flip into the
      rest of the target.  `own` is the part of `bill` the closing leg carries. */
  function Closing(p: Position, direction: Direction, target: real, mark: real, closedQty: real, realized: real,
                   bill: Bill, own: Bill, opening: Opening, role: SeatRole, thesis: Option<Thesis>): LegOutcome
  {
    var billed := p.(accruedFees := p.accruedFees + own.fee, accruedSlippage := p.accruedSlippage + own.slip,
                     realizedPnl := p.realizedPnl + realized);
    var residual := p.qty - closedQty;
    var newFee, newSlip := bill.fee - own.fee, bill.slip - own.slip;
    if residual > DUST then
      LegOutcome(Some(billed.(qty := residual, seatRole := role, thesis := Rethought(p.thesis, thesis))),
                 realized, own.fee, own.slip, 0.0, 0.0, [])
    else if Abs(target) > DUST then
      LegOutcome(Some(Position(p.symbol, direction, Abs(target), mark, opening, role,
                               Rethought(NO_THESIS, thesis), 0.0, newFee, newSlip, 0.0)),
                 realized, bill.fee, bill.slip, 0.0, 0.0, [Snapshot(billed)])
    else
      LegOutcome(None, realized, bill.fee, bill.slip, newFee, newSlip, [Snapshot(billed)])
  }

  /** Reduce, close or flip towards `target`. */
  function Opposite(p: Position, direction: Direction, target: real, mark: real, bill: Bill, own: Bill,
                    opening: Opening, role: SeatRole, thesis: Option<Thesis>): LegOutcome
  {
    var closedQty := ClosedQty(p, target);
    Closing(p, direction, target, mark, closedQty, Unrealized(p.(qty := closedQty), mark), bill, own,
            opening, role, thesis)
  }

  function BlendedEntry(held: Option<Position>, fill: real, mark: real): real
    requires fill > 0.0
    requires held.Some? ==> held.value.qty > 0.0
  {
    match held
    case None => mark
    case Some(p) => (p.entryPrice * p.qty + mark * fill) / (p.qty + fill)
  }

  function Grown(symbol: string, held: Option<Position>, direction: Direction, fill: real, entry: real,
                 bill: Bill, opening: Opening, role: SeatRole, thesis: Option<Thesis>): LegOutcome
  {
    var p := match held
      case None =>
        Position(symbol, direction, fill, entry, opening, role, Rethought(NO_THESIS, thesis),
                 0.0, bill.fee, bill.slip, 0.0)
      case Some(q) =>
        q.(seatRole := role, entryPrice := entry, qty := q.qty + fill,
           accruedFees := q.accruedFees + bill.fee, accruedSlippage := q.accruedSlippage + bill.slip,
           thesis := Rethought(q.thesis, thesis));
    LegOutcome(Some(p), 0.0, bill.fee, bill.slip, 0.0, 0.0, [])
  }

  /** Open or add to the held side, blending the entry price by quantity. */
  function Increase(symbol: string, held: Option<Position>, direction: Direction, fill: real, mark: real,
                    bill: Bill, opening: Opening, role: SeatRole, thesis: Option<Thesis>): LegOutcome
    requires fill > 0.0
    requires held.Some? ==> held.value.qty > 0.0
  {
    Grown(symbol, held, direction, fill, BlendedEntry(held, fill, mark), bill, opening, role, thesis)
  }

  /** `b` after `a` on the same symbol. */
  function Then(a: LegOutcome, b: LegOutcome): LegOutcome
  {
    LegOutcome(b.held, a.realized + b.realized, a.fee + b.fee, a.slip + b.slip,
               a.orphanFee + b.orphanFee, a.orphanSlip + b.orphanSlip, a.closed + b.closed)
  }

  /** What the reconciliation is asked to do with one symbol.  `slippage` prices a signed quantity at a
      mark; `feeRate` is the taker or maker rate. */
  datatype Request = Request(net: real, mark: Option<real>, role: Option<SeatRole>, thesis: Option<Thesis>,
                             explicit: Option<real>, opening: Opening,
                             slippage: (real, real) -> real, feeRate: real)

  /** The request once a valid mark is known. */
  datatype Plan = Plan(mark: real, target: real, direction: Direction, role: SeatRole,
                       thesis: Option<Thesis>, rolled: bool, rolledAfter: bool)

  predicate Near(a: real, b: real)
  {
    IsClose(a, b, DUST, DUST)
  }

  function Target(r: Request): real
    requires r.mark.Some? && r.mark.value > 0.0
  {
    if r.explicit.Some? then r.explicit.value else r.net / r.mark.value
  }

  /** An execution that stops short of the requested side keeps the old lifecycle. */
  predicate KeepsOldLifecycle(held: Option<Position>, r: Request)
    requires r.mark.Some? && r.mark.value > 0.0
  {
    var desired, target := r.net / r.mark.value, Target(r);
    held.Some? && Abs(target) > DUST && (Abs(desired) <= DUST || desired * target < 0.0)
  }

  function PlanFor(held: Option<Position>, r: Request): Plan
    requires r.mark.Some? && r.mark.value > 0.0
  {
    var target := Target(r);
    var direction := if target > 0.0 then Long
                     else if target < 0.0 then Short
                     else if held.Some? then held.value.direction
                     else if r.net >= 0.0 then Long else Short;
    var keep := KeepsOldLifecycle(held, r);
    var role := if keep then held.value.seatRole
                else if r.role.Some? then r.role.value
                else if held.Some? then held.value.seatRole else Alpha;
    var change := held.Some? && held.value.direction == direction && held.value.seatRole != role;
    var after := change && Abs(target) < Abs(SignedQty(held));
    Plan(r.mark.value, target, direction, role, if keep then None else r.thesis, change && !after, after)
  }

  /** The quote value crossed: the midpoint notional plus the shortfall of a buy, less that of a sell. */
  function Quote(r: Request, delta: real, mark: real): real
  {
    var slip := Abs(r.slippage(delta, mark));
    Abs(delta) * mark + (if delta >= 0.0 then slip else -slip)
  }

  /** `trade_fee` at a taker or maker rate, without the BNB discount the ledger never requests. */
  function TradeFee(notional: real, rate: real): real
  {
    Abs(notional) * rate
  }

  /** Fee on the quote value crossed, and the slippage itself. */
  function Frictions(r: Request, delta: real, mark: real): Result<Bill>
  {
    var quote := Quote(r, delta, mark);
    if quote <= 0.0 then Err("invalid execution quote notional")
    else Ok(Bill(TradeFee(quote, r.feeRate), r.slippage(delta, mark)))
  }

  predicate WellFormed(s: string, held: Option<Position>)
  {
    held.Some? ==> held.value.symbol == s && held.value.qty > 0.0 && held.value.entryPrice > 0.0
  }

  predicate MovesAway(current: real, target: real)
  {
    target * current < 0.0 || Abs(target) < Abs(current)
  }

  /** A trade that is not a pure same-side increase.  When the role also changes, the reduced slice is
      closed under the role that owned it and only the surviving residual is transferred. */
  function TradeAway(held: Position, p: Plan, bill: Bill, opening: Opening): LegOutcome
  {
    var o := Opposite(held, p.direction, p.target, p.mark, bill, OldBill(held, p.target, bill), opening,
                      if p.rolledAfter then held.seatRole else p.role,
                      if p.rolledAfter then None else p.thesis);
    if p.rolledAfter && o.held.Some? then
      Then(o, Roll(o.held.value, p.mark, opening, p.role, p.thesis))
    else
      o
  }

  /** Already at target: only the role and thesis labels are rewritten. */
  function Relabel(held: Option<Position>, p: Plan): LegOutcome
  {
    Unchanged(if held.None? then None
              else Some(held.value.(seatRole := p.role, thesis := Rethought(held.value.thesis, p.thesis))))
  }

  /** The trade itself, after any role transfer that precedes it. */
  function Traded(s: string, held: Option<Position>, p: Plan, r: Request): Result<LegOutcome>
    requires WellFormed(s, held)
  {
    var current := SignedQty(held);
    var delta := p.target - current;
    if Near(p.target, current) then
      Ok(Relabel(held, p))
    else
      match Frictions(r, delta, p.mark)
      case Err(e) => Err(e)
      case Ok(bill) =>
        if held.Some? && MovesAway(current, p.target) then
          Ok(TradeAway(held.value, p, bill, r.opening))
        else
          Ok(Increase(s, held, p.direction, Abs(delta), p.mark, bill, r.opening, p.role, p.thesis))
  }

  /** Whether the retained inventory changes role before it trades. */
  predicate RollsFirst(held: Option<Position>, r: Request)
  {
    r.mark.Some? && r.mark.value > 0.0 && PlanFor(held, r).rolled
  }

  /** One symbol's whole reconciliation. */
  function LegStep(s: string, held: Option<Position>, r: Request): Result<LegOutcome>
    requires WellFormed(s, held)
  {
    if r.mark.None? || r.mark.value <= 0.0 then
      if held.Some? || Abs(r.net) > NET_CUTOFF then Err("no finite positive mark") else Ok(Unchanged(None))
    else
      var p := PlanFor(held, r);
      if p.rolled then
        var roll := Roll(held.value, p.mark, r.opening, p.role, p.thesis);
        match Traded(s, roll.held, p, r)
        case Err(e) => Err(e)
        case Ok(o) => Ok(Then(roll, o))
      else
        Traded(s, held, p, r)
  }
}
