/** The PAPER account as a value: its fields, what each operation makes of them, and the conservation
    laws.  PaperAccount.dfy proves the mutating class against these functions. */
module Ledger {
  import opened Results
  import opened Sums
  import opened LegLifecycle
  import opened LegLaws
  import opened FundingSchedule

  const TAKER_RATE: real := 0.0005
  const MAKER_RATE: real := 0.0002

  datatype Account = Account(cash: real, positions: map<string, Position>, realizedPnl: real,
                             clock: Option<int>, intervals: map<string, int>,
                             feesPaid: real, slippagePaid: real,
                             fundingReceived: real, fundingPaid: real, closedLegs: seq<ClosedLeg>)

  function Lookup<V>(m: map<string, V>, s: string): Option<V>
  {
    if s in m then Some(m[s]) else None
  }

  function Held(a: Account, s: string): Option<Position>
  {
    Lookup(a.positions, s)
  }

  ghost predicate Sound(a: Account)
  {
    forall s :: s in a.positions ==> WellFormed(s, Some(a.positions[s]))
  }

  // ----- Valuation -----

  function UnrealizedBySymbol(a: Account, marks: map<string, real>): map<string, real>
  {
    map s | s in a.positions && s in marks :: Unrealized(a.positions[s], marks[s])
  }

  ghost function Equity(a: Account, marks: map<string, real>): real
  {
    a.cash + Sum(UnrealizedBySymbol(a, marks))
  }

  // ----- Consolidating the intended book -----

  datatype FillLeg = FillLeg(symbol: string, direction: Direction, targetNotional: real, role: SeatRole,
                             thesis: Option<Thesis>)

  datatype Consolidated = Consolidated(net: map<string, real>, roles: map<string, SeatRole>,
                                       theses: map<string, Thesis>, order: seq<string>)

  function SignedNotional(leg: FillLeg): real
  {
    if leg.direction.Long? then Abs(leg.targetNotional) else -Abs(leg.targetNotional)
  }

  /** One more leg netted into its symbol.  An alpha leg always decides the role and the thesis. */
  function Netted(c: Consolidated, leg: FillLeg): Consolidated
  {
    var s := leg.symbol;
    var before := if s in c.net then c.net[s] else 0.0;
    var leads := leg.role.Alpha? || s !in c.roles;
    Consolidated(c.net[s := before + SignedNotional(leg)],
                 if leads then c.roles[s := leg.role] else c.roles,
                 if leads && leg.thesis.Some? then c.theses[s := leg.thesis.value] else c.theses,
                 if s in c.net then c.order else c.order + [s])
  }

  function Consolidate(legs: seq<FillLeg>): Consolidated
  {
    if legs == [] then Consolidated(map[], map[], map[], [])
    else Netted(Consolidate(legs[..|legs| - 1]), legs[|legs| - 1])
  }

  /** Held symbols absent from the intended book are flattened. */
  function WithDropped(c: Consolidated, positions: map<string, Position>): map<string, real>
  {
    c.net + (map s | s in positions && s !in c.net :: 0.0)
  }

  // ----- Executing it -----

  datatype CostInputs = CostInputs(slippage: (real, real) -> real, maker: bool)

  datatype Execution = Execution(marks: map<string, real>, costs: map<string, CostInputs>, defaultTs: int,
                                 cycle: Option<int>, cadence: Option<string>,
                                 targets: Option<map<string, real>>, tsBySymbol: map<string, int>,
                                 completed: map<string, bool>)

  /** A symbol without cost inputs pays the default half-spread of one basis point. */
  function DefaultSlippage(delta: real, mark: real): real
  {
    Abs(delta) * mark / 10000.0
  }

  function RequestFor(net: map<string, real>, c: Consolidated, x: Execution, s: string): Request
    requires s in net
  {
    var cost := if s in x.costs then x.costs[s] else CostInputs(DefaultSlippage, false);
    Request(net[s], Lookup(x.marks, s), Lookup(c.roles, s), Lookup(c.theses, s),
            if x.targets.Some? then Lookup(x.targets.value, s) else None,
            Opening(if s in x.tsBySymbol then x.tsBySymbol[s] else x.defaultTs, x.cycle, x.cadence),
            cost.slippage, if cost.maker then MAKER_RATE else TAKER_RATE)
  }

  type Requests = map<string, Request>

  function RequestsFor(net: map<string, real>, c: Consolidated, x: Execution): Requests
  {
    map s | s in net :: RequestFor(net, c, x, s)
  }

  /** The slack of the default `math.isclose` relative tolerance. */
  const REL_DEFAULT: real := 0.000000001

  /** Whether an execution would reduce, drop, flip or re-role a held leg. */
  predicate ChangesLifecycle(p: Position, net: real, mark: real, role: Option<SeatRole>)
    requires mark > 0.0
  {
    var desired, current := net / mark, SignedQty(Some(p));
    !IsClose(desired, current, REL_DEFAULT, DUST)
    && (desired * current <= 0.0 || Abs(desired) < Abs(current) - DUST
        || (role.Some? && role.value != p.seatRole))
  }

  predicate ProvenComplete(a: Account, net: map<string, real>, c: Consolidated, x: Execution, s: string)
    requires s in net
  {
    s in a.positions && s in x.marks && x.marks[s] > 0.0
    && ChangesLifecycle(a.positions[s], net[s], x.marks[s], Lookup(c.roles, s))
    ==> s in x.completed && x.completed[s]
  }

  /** The checks made before anything is mutated. */
  predicate Admissible(a: Account, net: map<string, real>, c: Consolidated, x: Execution)
  {
    x.targets.Some? ==>
      x.targets.value.Keys == net.Keys && forall s | s in net :: ProvenComplete(a, net, c, x, s)
  }

  function Absorb(a: Account, s: string, o: LegOutcome): Account
  {
    a.(positions := if o.held.Some? then a.positions[s := o.held.value] else a.positions - {s},
       cash := a.cash + o.realized - o.fee - o.slip,
       realizedPnl := a.realizedPnl + o.realized,
       feesPaid := a.feesPaid + o.fee,
       slippagePaid := a.slippagePaid + o.slip,
       closedLegs := a.closedLegs + o.closed)
  }

  /** What a step that raises has already done to the account: at most the role transfer. */
  function Interrupted(a: Account, s: string, r: Request): Account
  {
    if RollsFirst(Held(a, s), r) then
      var p := PlanFor(Held(a, s), r);
      Absorb(a, s, Roll(a.positions[s], p.mark, r.opening, p.role, p.thesis))
    else a
  }

  ghost function StepOne(a: Account, s: string, r: Request): (res: Result<Account>)
    requires Sound(a)
    ensures res.Ok? ==> Sound(res.value)
  {
    match LegStep(s, Held(a, s), r)
    case Err(e) => Err(e)
    case Ok(o) =>
      LegStaysWellFormed(s, Held(a, s), r);
      Ok(Absorb(a, s, o))
  }

  /** The symbols of `order`, each reconciled exactly once. */
  ghost function RunAll(a: Account, order: seq<string>, reqs: Requests): (res: Result<Account>)
    requires Sound(a)
    requires forall s :: s in order ==> s in reqs
    ensures res.Ok? ==> Sound(res.value)
  {
    if order == [] then Ok(a)
    else
      match RunAll(a, order[..|order| - 1], reqs)
      case Err(e) => Err(e)
      case Ok(b) => StepOne(b, order[|order| - 1], reqs[order[|order| - 1]])
  }

  // ----- Settling funding -----

  datatype FundingEvent = FundingEvent(ts: int, rate: real, mark: real)

  /** Balance contribution: a short with a positive rate receives. */
  function RealizedFunding(mark: real, qty: real, rate: real, d: Direction): real
  {
    -Sign(d) * mark * qty * rate
  }

  function Total(xs: seq<real>): real
  {
    if xs == [] then 0.0 else Total(xs[..|xs| - 1]) + xs[|xs| - 1]
  }

  function Gains(xs: seq<real>): real
  {
    if xs == [] then 0.0 else Gains(xs[..|xs| - 1]) + Max(xs[|xs| - 1], 0.0)
  }

  function Losses(xs: seq<real>): real
  {
    if xs == [] then 0.0 else Losses(xs[..|xs| - 1]) + Max(-xs[|xs| - 1], 0.0)
  }

  /** The amounts each held symbol is credited, in posting order. */
  type Credits = map<string, seq<real>>

  function EventCredits(p: Position, events: seq<FundingEvent>): seq<real>
  {
    seq(|events|, i requires 0 <= i < |events| =>
      RealizedFunding(events[i].mark, p.qty, events[i].rate, p.direction))
  }

  function AllEventCredits(a: Account, events: map<string, seq<FundingEvent>>): Credits
    requires a.positions.Keys <= events.Keys
  {
    map s | s in a.positions :: EventCredits(a.positions[s], events[s])
  }

  function TotalBySymbol(credits: Credits, done: set<string>): map<string, real>
    requires done <= credits.Keys
  {
    map s | s in done :: Total(credits[s])
  }

  function GainsBySymbol(credits: Credits, done: set<string>): map<string, real>
    requires done <= credits.Keys
  {
    map s | s in done :: Gains(credits[s])
  }

  function LossesBySymbol(credits: Credits, done: set<string>): map<string, real>
    requires done <= credits.Keys
  {
    map s | s in done :: Losses(credits[s])
  }

  function Credited(ps: map<string, Position>, credits: Credits, done: set<string>): map<string, Position>
    requires done <= credits.Keys
  {
    map s | s in ps :: if s in done then ps[s].(accruedFunding := ps[s].accruedFunding + Total(credits[s])) else ps[s]
  }

  /** The account once the legs in `done` have been credited. */
  ghost function Posted(a: Account, credits: Credits, done: set<string>): Account
    requires done <= credits.Keys
  {
    a.(positions := Credited(a.positions, credits, done),
       cash := a.cash + Sum(TotalBySymbol(credits, done)),
       fundingReceived := a.fundingReceived + Sum(GainsBySymbol(credits, done)),
       fundingPaid := a.fundingPaid + Sum(LossesBySymbol(credits, done)))
  }

  /** Each event lies in the settlement window, no instant is charged twice, every mark is positive. */
  predicate EventsAdmissible(events: seq<FundingEvent>, previous: int, end: int)
  {
    && (forall i | 0 <= i < |events| :: previous < events[i].ts <= end && events[i].mark > 0.0)
    && (forall i, j | 0 <= i < j < |events| :: events[i].ts != events[j].ts)
  }

  predicate SettlementAdmissible(a: Account, events: map<string, seq<FundingEvent>>, now: int,
                                 observed: map<string, int>)
  {
    && (a.positions != map[] ==> a.clock.Some?)
    && (a.clock.Some? ==> a.clock.value <= now)
    && a.positions.Keys <= events.Keys
    && a.positions.Keys <= observed.Keys
    && (forall s | s in a.positions ::
          IsInterval(observed[s])
          && EventsAdmissible(events[s], if a.clock.Some? then a.clock.value else now, now))
  }

  ghost function SettledEvents(a: Account, events: map<string, seq<FundingEvent>>, now: int,
                               observed: map<string, int>): Account
    requires a.positions.Keys <= events.Keys && a.positions.Keys <= observed.Keys
  {
    Posted(a, AllEventCredits(a, events), a.positions.Keys)
      .(clock := Some(now), intervals := map s | s in a.positions :: observed[s])
  }

  /** A settlement either raises (`None`) or is applied whole. */
  ghost function SettleEvents(a: Account, events: map<string, seq<FundingEvent>>, now: int,
                              observed: map<string, int>): Option<Account>
  {
    if SettlementAdmissible(a, events, now, observed) && SettledEvents(a, events, now, observed).cash >= 0.0
    then Some(SettledEvents(a, events, now, observed)) else None
  }

  /** One aggregate amount: the observed rate times the number of boundaries crossed, if any. */
  function RateCredit(p: Position, previous: int, now: int, rate: real, interval: int, mark: real): seq<real>
    requires IsInterval(interval)
  {
    var n := |Boundaries(previous, now, interval)|;
    if n == 0 then [] else [Scale(RealizedFunding(mark, p.qty, rate, p.direction), n as real)]
  }

  function RateCredits(a: Account, previous: int, now: int, rates: map<string, real>, intervals: map<string, int>,
                       marks: map<string, real>): Credits
    requires forall s :: s in a.positions ==> s in rates && s in intervals && s in marks && IsInterval(intervals[s])
  {
    map s | s in a.positions :: RateCredit(a.positions[s], previous, now, rates[s], intervals[s], marks[s])
  }

  predicate RatesAdmissible(a: Account, previous: int, now: int, rates: map<string, real>, intervals: map<string, int>,
                            marks: map<string, real>)
  {
    && (a.positions != map[] ==> a.clock.Some?)
    && previous <= now
    && (a.clock.Some? ==> a.clock.value == previous)
    && (forall s | s in a.positions ::
          s in rates && s in intervals && s in marks && IsInterval(intervals[s]) && marks[s] > 0.0)
  }

  ghost function SettleRates(a: Account, previous: int, now: int, rates: map<string, real>, intervals: map<string, int>,
                             marks: map<string, real>): Option<Account>
  {
    if !RatesAdmissible(a, previous, now, rates, intervals, marks) then None
    else
      var b := Posted(a, RateCredits(a, previous, now, rates, intervals, marks), a.positions.Keys).(clock := Some(now));
      if b.cash >= 0.0 then Some(b) else None
  }

  /** The intervals observed at an execution, for the symbols then held. */
  function Restamped(a: Account, observations: map<string, int>): Account
  {
    a.(intervals := map s | s in a.positions && s in observations :: observations[s])
  }

  function Drained(a: Account): Account
  {
    a.(closedLegs := [])
  }
}
