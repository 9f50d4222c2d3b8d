/** One whole reconciliation: funding, fills, validation, safety and publication, staged on a copy. */
module Reconcile {
  import opened Results
  import opened Sums
  import opened LegLifecycle
  import opened LegLaws
  import opened FundingSchedule
  import opened Ledger
  import opened LedgerLaws
  import opened BookLaws
  import opened PaperAccounts

  // ----- Achieved safety -----

  const TOLERANCE: real := 0.000000000001
  const DEPLOY_MAX: real := 1.15
  const DOLLAR_RESIDUAL_MAX: real := 0.10
  const BETA_RESIDUAL_MAX: real := 0.15
  const CONCENTRATION_MAX: real := 0.35
  const HEDGE_MAX: real := 0.50
  const LEG_BETA_MAX: real := 0.60

  function Notionals(a: Account, marks: map<string, real>): map<string, real>
  {
    map s | s in a.positions && s in marks :: Scale(SignedQty(Some(a.positions[s])), marks[s])
  }

  function Magnitudes(m: map<string, real>): map<string, real>
  {
    map s | s in m :: Abs(m[s])
  }

  function BetaDollars(a: Account, marks: map<string, real>, betas: map<string, real>): map<string, real>
  {
    var n := Notionals(a, marks);
    map s | s in n :: n[s] * (if s in betas then betas[s] else 1.0)
  }

  /** The bounds B1 to B6.  The ratios to equity and to gross are cleared of their denominators; a
      non-positive equity is itself a violation.  `hedge` is the notional of a BTC hedge seat. */
  predicate WithinBounds(equity: real, gross: real, net: real, betaNet: real, notionals: map<string, real>,
                         beta: map<string, real>, hedge: real, minimumDeploy: real)
  {
    && equity > 0.0
    && gross <= (DEPLOY_MAX + TOLERANCE) * equity
    && gross >= (minimumDeploy - TOLERANCE) * equity
    && Abs(net) <= (DOLLAR_RESIDUAL_MAX + TOLERANCE) * gross
    && Abs(betaNet) <= (BETA_RESIDUAL_MAX + TOLERANCE) * equity
    && (forall s | s in notionals :: Abs(notionals[s]) <= (CONCENTRATION_MAX + TOLERANCE) * gross)
    && Abs(hedge) <= (HEDGE_MAX + TOLERANCE) * equity
    && (forall s | s in beta :: Abs(beta[s]) <= (LEG_BETA_MAX + TOLERANCE) * equity)
  }

  function HedgeNotional(a: Account, marks: map<string, real>): real
  {
    if BTC in a.positions && BTC in marks && a.positions[BTC].seatRole.Hedge?
    then Scale(SignedQty(Some(a.positions[BTC])), marks[BTC]) else 0.0
  }

  /** The achieved book meets every bound. */
  ghost predicate AchievedSafe(a: Account, marks: map<string, real>, betas: map<string, real>, minimumDeploy: real)
  {
    var n, beta := Notionals(a, marks), BetaDollars(a, marks, betas);
    WithinBounds(Equity(a, marks), Sum(Magnitudes(n)), Sum(n), Sum(beta), n, beta, HedgeNotional(a, marks),
      minimumDeploy)
  }

  method SumValues(m: map<string, real>) returns (total: real)
    ensures total == Sum(m)
  {
    hide Sum;
    total := 0.0;
    var todo := m.Keys;
    ghost var left := m;
    while todo != {}
      invariant todo <= m.Keys && left == map s | s in m && s in todo :: m[s]
      invariant total == Sum(m) - Sum(left)
      decreases todo
    {
      var s :| s in todo;
      todo := todo - {s};
      SumRemove(left, s);
      total := total + m[s];
      left := left - {s};
      assert left == map t | t in m && t in todo :: m[t];
    }
    assert left == map[];
    EmptySum();
  }

  method CheckAchieved(account: PaperAccount, marks: map<string, real>, betas: map<string, real>, minimumDeploy: real)
    returns (safe: bool, equity: real)
    ensures safe <==> AchievedSafe(account.State(), marks, betas, minimumDeploy)
    ensures equity == Equity(account.State(), marks)
  {
    hide Sum, Notionals, BetaDollars, Magnitudes, Equity, WithinBounds, HedgeNotional;
    var a := account.State();
    equity := account.MarkedEquity(marks);
    var n, beta := Notionals(a, marks), BetaDollars(a, marks, betas);
    var gross := SumValues(Magnitudes(n));
    var net := SumValues(n);
    var betaNet := SumValues(beta);
    safe := WithinBounds(equity, gross, net, betaNet, n, beta, HedgeNotional(a, marks), minimumDeploy);
  }

  /** A published book is nearly neutral: if every mark moves by the same fraction, equity moves by at
      most that fraction of 11.5% of itself, up to the tolerances. */
  lemma CommonShockIsBounded(a: Account, marks: map<string, real>, betas: map<string, real>,
                             minimumDeploy: real, shock: real, shocked: map<string, real>)
    requires AchievedSafe(a, marks, betas, minimumDeploy)
    requires shocked.Keys == marks.Keys
    requires forall s :: s in marks ==> shocked[s] == marks[s] + Scale(shock, marks[s])
    ensures Abs(Equity(a, shocked) - Equity(a, marks))
         <= Scale(Abs(shock), (DOLLAR_RESIDUAL_MAX + TOLERANCE) * (DEPLOY_MAX + TOLERANCE) * Equity(a, marks))
  {
    var n := Notionals(a, marks);
    ShockedEquity(a, marks, shock, shocked);
    hide Sum, Notionals, Equity, Scale;
    ShockBound(shock, Sum(n), Sum(Magnitudes(n)), Equity(a, marks));
  }

  lemma ShockedEquity(a: Account, marks: map<string, real>, shock: real, shocked: map<string, real>)
    requires shocked.Keys == marks.Keys
    requires forall s :: s in marks ==> shocked[s] == marks[s] + Scale(shock, marks[s])
    ensures Equity(a, shocked) == Equity(a, marks) + Scale(shock, Sum(Notionals(a, marks)))
  {
    hide Scale, SignedQty, Unrealized, Sum;
    var n := Notionals(a, marks);
    var before, after := UnrealizedBySymbol(a, marks), UnrealizedBySymbol(a, shocked);
    var move := map s | s in n :: Scale(shock, n[s]);
    forall s | s in before ensures after[s] == before[s] + move[s] {
      ShockOne(a.positions[s], marks[s], shock);
    }
    SumPlus(before, move, after);
    SumScaled(n, shock, move);
  }

  lemma ShockOne(p: Position, mark: real, shock: real)
    ensures Unrealized(p, mark + Scale(shock, mark))
        == Unrealized(p, mark) + Scale(shock, Scale(SignedQty(Some(p)), mark))
  {
    hide Scale, Unrealized, SignedQty;
    var q, e, d := SignedQty(Some(p)), p.entryPrice, Scale(shock, mark);
    UnrealizedIsSigned(p, mark + d);
    UnrealizedIsSigned(p, mark);
    ScaleLaws(q, 0.0, mark - e, d);
    assert mark + d - e == mark - e + d;
    ScalesCommute(q, shock, mark);
  }

  lemma ShockBound(shock: real, net: real, gross: real, equity: real)
    requires gross <= (DEPLOY_MAX + TOLERANCE) * equity
    requires Abs(net) <= (DOLLAR_RESIDUAL_MAX + TOLERANCE) * gross
    ensures Abs(Scale(shock, net))
         <= Scale(Abs(shock), (DOLLAR_RESIDUAL_MAX + TOLERANCE) * (DEPLOY_MAX + TOLERANCE) * equity)
  {
    var bound := (DOLLAR_RESIDUAL_MAX + TOLERANCE) * (DEPLOY_MAX + TOLERANCE) * equity;
    assert Abs(net) <= bound;
    ScaleOfSizes(shock, net);
    if shock == 0.0 {
      ScaleLaws(0.0, 0.0, bound, 0.0);
    } else {
      ScaleKeepsOrder(Abs(shock), Abs(net), bound);
    }
    hide Scale;
  }

  lemma ScaleOfSizes(f: real, x: real)
    ensures Abs(Scale(f, x)) == Scale(Abs(f), Abs(x)) && (f == 0.0 ==> Scale(f, x) == 0.0)
  {
    ScaleSigns(f, x);
  }

  // ----- Validation before persisting -----

  /** The field constraints re-parsed before anything is published. */
  predicate Persistable(a: Account)
  {
    && a.cash >= 0.0 && a.feesPaid >= 0.0 && a.slippagePaid >= 0.0
    && a.fundingReceived >= 0.0 && a.fundingPaid >= 0.0
    && (forall s | s in a.positions ::
          var p := a.positions[s];
          p.symbol == s && s != "" && p.qty > 0.0 && p.entryPrice > 0.0 && p.accruedFees >= 0.0
            && p.accruedSlippage >= 0.0)
    && (forall i | 0 <= i < |a.closedLegs| ::
          a.closedLegs[i].symbol != "" && a.closedLegs[i].fees >= 0.0 && a.closedLegs[i].slippage >= 0.0)
    && a.intervals.Keys <= a.positions.Keys
    && (forall s | s in a.intervals :: IsInterval(a.intervals[s]))
    && (a.positions != map[] ==> a.clock.Some?)
  }

  // ----- The reconciliation -----

  /** What the caller knows about funding: exact events, one rate per symbol, or nothing. */
  datatype FundingInput = Events(events: map<string, seq<FundingEvent>>) | Rates(rates: map<string, real>) | NoFunding

  function OrEmpty(m: Option<map<string, int>>): map<string, int>
  {
    if m.Some? then m.value else map[]
  }

  ghost function Funded(a: Account, input: FundingInput, fillTs: int, intervals: Option<map<string, int>>,
                        marks: map<string, real>): Option<Account>
  {
    match input
    case Events(events) => SettleEvents(a, events, fillTs, OrEmpty(intervals))
    case Rates(rates) =>
      if a.positions != map[] && a.clock.None? then None
      else SettleRates(a, if a.clock.Some? then a.clock.value else fillTs, fillTs, rates, OrEmpty(intervals), marks)
    case NoFunding => Some(if a.positions == map[] && a.clock.None? then a.(clock := Some(fillTs)) else a)
  }

  /** Legs whose symbol has no positive execution mark are not filled. */
  function Priced(fills: seq<FillLeg>, marks: map<string, real>): seq<FillLeg>
  {
    if fills == [] then []
    else
      var leg := fills[|fills| - 1];
      Priced(fills[..|fills| - 1], marks) + (if leg.symbol in marks && marks[leg.symbol] > 0.0 then [leg] else [])
  }

  function Observed(a: Account, intervals: Option<map<string, int>>): Account
  {
    if intervals.Some? then Restamped(a, intervals.value) else a
  }

  /** A reconciliation of `a` that settles `input`, fills `legs` in `order`, and ends in `b`. */
  ghost predicate ReconciledVia(a: Account, settled: Account, order: seq<string>, b: Account,
                                legs: seq<FillLeg>, x: Execution, input: FundingInput,
                                  intervals: Option<map<string, int>>)
  {
    && Sound(a)
    && Funded(a, input, x.defaultTs, intervals, x.marks) == Some(settled)
    && Sound(settled)
    && (var c := Consolidate(legs);
        var net := WithDropped(c, settled.positions);
        var reqs := RequestsFor(net, c, x);
        && Enumerates(order, net)
        && Admissible(settled, net, c, x)
        && RunAll(settled, order, reqs).Ok?
        && b == Observed(RunAll(settled, order, reqs).value, intervals))
  }

  /** Why staging `a` raises: funding cannot be settled, the targets are not admissible, or the run over the
      book stops at some symbol. */
  ghost predicate Halted(a: Account, settled: Account, order: seq<string>, legs: seq<FillLeg>, x: Execution,
                         input: FundingInput, intervals: Option<map<string, int>>)
  {
    var funded := Funded(a, input, x.defaultTs, intervals, x.marks);
    funded.None? ||
    (funded == Some(settled) && Sound(settled) &&
     var c := Consolidate(legs);
     var net := WithDropped(c, settled.positions);
     !Admissible(settled, net, c, x) ||
     ((forall s :: s in order ==> s in net)
      && exists s, b :: StoppedAt(settled, order, RequestsFor(net, c, x), s, b)))
  }

  /** Why a completely staged account is not published. */
  ghost predicate Unpublishable(b: Account, marks: map<string, real>, betas: map<string, real>, enforce: bool,
                                minimumDeploy: real)
  {
    || !Persistable(b)
    || (exists s :: s in b.positions && !(s in marks && marks[s] > 0.0))
    || !(0.0 <= minimumDeploy <= 0.75)
    || (enforce && !AchievedSafe(b, marks, betas, minimumDeploy))
  }

  datatype CycleReport = CycleReport(equity: real, turnover: real, feesPaid: real, slippagePaid: real,
                                     fundingSettled: real,
                                     nLegs: nat)

  function Turnover(before: map<string, real>, after: map<string, real>): map<string, real>
  {
    map s | s in before.Keys + after.Keys ::
      Abs((if s in after then after[s] else 0.0) - (if s in before then before[s] else 0.0))
  }

  method SettleInput(working: PaperAccount, input: FundingInput, fillTs: int, intervals: Option<map<string, int>>,
                     marks: map<string, real>) returns (result: FillResult)
    modifies working
    ensures result.Applied? <==> Funded(old(working.State()), input, fillTs, intervals, marks).Some?
    ensures result.Applied? ==> Some(working.State()) == Funded(old(working.State()), input, fillTs, intervals, marks)
  {
    match input
    case Events(events) =>
      result := working.SettleFundingEvents(events, fillTs, OrEmpty(intervals));
    case Rates(rates) =>
      if working.positions != map[] && working.lastFundingTs.None? {
        return Raised("held account has no funding clock");
      }
      var previous := if working.lastFundingTs.Some? then working.lastFundingTs.value else fillTs;
      result := working.SettleFunding(previous, fillTs, rates, OrEmpty(intervals), marks);
    case NoFunding =>
      if working.positions == map[] && working.lastFundingTs.None? {
        working.lastFundingTs := Some(fillTs);
      }
      result := Applied;
  }

  /** Settle, fill and restamp the staged generation; `settled` is the account between the two. */
  method Stage(working: PaperAccount, fills: seq<FillLeg>, x: Execution, input: FundingInput,
               intervals: Option<map<string, int>>)
    returns (result: FillResult, settled: Account, order: seq<string>)
    requires Sound(working.State())
    modifies working
    ensures result.Applied? ==>
      ReconciledVia(old(working.State()), settled, order, working.State(), fills, x, input, intervals)
    ensures result.Raised? ==> Halted(old(working.State()), settled, order, fills, x, input, intervals)
  {
    hide Sound;
    ghost var start := working.State();
    settled, order := working.State(), [];
    result := SettleInput(working, input, x.defaultTs, intervals, x.marks);
    if result.Raised? {
      return;
    }
    FundingKeepsSound(start, input, x.defaultTs, intervals, x.marks);
    settled := working.State();
    hide Funded, RunAll, Admissible, Consolidate, WithDropped, RequestsFor;
    result, order := working.ApplyFills(fills, x);
    if result.Applied? && intervals.Some? {
      working.fundingIntervalsObserved :=
        map s | s in working.positions && s in intervals.value :: intervals.value[s];
    }
  }

  /** Stage everything on a copy; publish every field only when nothing raised. */
  method ReconcileBook(account: PaperAccount, book: seq<FillLeg>, decision: map<string, real>, x: Execution,
                       betas: map<string, real>, input: FundingInput, intervals: Option<map<string, int>>,
                       enforce: bool, minimumDeploy: real)
    returns (r: Result<CycleReport>, settled: Account, order: seq<string>, staged: Account)
    requires Sound(account.State())
    modifies account
    ensures r.Err? ==> account.State() == old(account.State())
    ensures r.Err? ==>
      var legs := Priced(AnchoredFills(book, decision, x.marks), x.marks);
      || Halted(old(account.State()), settled, order, legs, x, input, intervals)
      || (ReconciledVia(old(account.State()), settled, order, staged, legs, x, input, intervals)
          && Unpublishable(staged, x.marks, betas, enforce, minimumDeploy))
    ensures r.Ok? ==>
      ReconciledVia(old(account.State()), settled, order, account.State(),
                    Priced(AnchoredFills(book, decision, x.marks), x.marks), x, input, intervals)
    ensures r.Ok? ==> Persistable(account.State())
    ensures r.Ok? && enforce ==> AchievedSafe(account.State(), x.marks, betas, minimumDeploy)
    ensures r.Ok? ==> Reports(r.value, old(account.State()), settled, account.State(), x.marks)
  {
    hide AchievedSafe, Notionals, Turnover, Equity, AnchoredFills, Priced, ReconciledVia, Persistable, Halted, Sound,
        Sum,
         WellFormed;
    ghost var start := account.State();
    var working := new PaperAccount.CopyOf(account);
    var fundingBefore := working.fundingReceived - working.fundingPaid;
    var fills := Priced(AnchoredFills(book, decision, x.marks), x.marks);
    var result;
    result, settled, order := Stage(working, fills, x, input, intervals);
    staged := working.State();
    if result.Raised? {
      return Err(result.reason), settled, order, staged;
    }
    StagedFees(start, settled, order, working.State(), fills, x, input, intervals);
    if !Persistable(working.State()) {
      return Err("staged account is not persistable"), settled, order, staged;
    }
    var turnover := SumValues(Turnover(Notionals(settled, x.marks), Notionals(working.State(), x.marks)));
    if exists s :: s in working.positions && !(s in x.marks && x.marks[s] > 0.0) {
      return Err("held symbols lack valid achieved execution marks"), settled, order, staged;
    }
    if !(0.0 <= minimumDeploy <= 0.75) {
      return Err("minimum achieved deployment must be in [0, 0.75]"), settled, order, staged;
    }
    var safe, equity := CheckAchieved(working, x.marks, betas, minimumDeploy);
    if enforce && !safe {
      return Err("post-execution basket violates achieved safety"), settled, order, staged;
    }
    var report := CycleReport(equity, turnover, working.feesPaid - settled.feesPaid,
                              working.slippagePaid - settled.slippagePaid,
                              (working.fundingReceived - working.fundingPaid) - fundingBefore, |working.positions|);
    account.Publish(working);
    return Ok(report), settled, order, staged;
  }

  /** What the report says about the cycle that took `a` to `b`. */
  ghost predicate Reports(r: CycleReport, a: Account, settled: Account, b: Account, marks: map<string, real>)
  {
    && r.equity == Equity(b, marks)
    && r.feesPaid == b.feesPaid - a.feesPaid
    && r.slippagePaid == b.slippagePaid - a.slippagePaid
    && r.fundingSettled == (b.fundingReceived - b.fundingPaid) - (a.fundingReceived - a.fundingPaid)
    && r.turnover == Sum(Turnover(Notionals(settled, marks), Notionals(b, marks)))
    && r.nLegs == |b.positions|
  }

  lemma StagedFees(a: Account, settled: Account, order: seq<string>, b: Account,
                   legs: seq<FillLeg>, x: Execution, input: FundingInput, intervals: Option<map<string, int>>)
    requires ReconciledVia(a, settled, order, b, legs, x, input, intervals)
    ensures settled.feesPaid == a.feesPaid && settled.slippagePaid == a.slippagePaid
  {
    hide Funded, RunAll;
    FundingKeepsSound(a, input, x.defaultTs, intervals, x.marks);
  }

  lemma FundingKeepsSound(a: Account, input: FundingInput, fillTs: int, intervals: Option<map<string, int>>,
                          marks: map<string, real>)
    requires Sound(a) && Funded(a, input, fillTs, intervals, marks).Some?
    ensures var b := Funded(a, input, fillTs, intervals, marks).value;
      Sound(b) && b.feesPaid == a.feesPaid && b.slippagePaid == a.slippagePaid && b.positions.Keys == a.positions.Keys
  {
    hide Boundaries, EventsAdmissible, RateCredit, EventCredits;
  }

  lemma {:induction false} RunKeepsFunding(a: Account, order: seq<string>, reqs: Requests)
    requires Sound(a)
    requires forall s :: s in order ==> s in reqs
    requires RunAll(a, order, reqs).Ok?
    ensures var b := RunAll(a, order, reqs).value;
      b.fundingReceived == a.fundingReceived && b.fundingPaid == a.fundingPaid && b.clock == a.clock
  {
    hide LegStep;
    if order == [] {
    } else {
      RunKeepsFunding(a, order[..|order| - 1], reqs);
    }
  }

  lemma FundingConserves(a: Account, input: FundingInput, fillTs: int, intervals: Option<map<string, int>>,
                         marks: map<string, real>)
    requires Funded(a, input, fillTs, intervals, marks).Some?
    ensures var b := Funded(a, input, fillTs, intervals, marks).value;
      Equity(b, marks) == Equity(a, marks) + (b.fundingReceived - b.fundingPaid) - (a.fundingReceived - a.fundingPaid)
  {
    hide Posted, EventsAdmissible, RateCredit, EventCredits, Boundaries, Sum;
    match input
    case Events(events) => PostingConserves(a, AllEventCredits(a, events), marks);
    case Rates(rates) =>
      var previous := if a.clock.Some? then a.clock.value else fillTs;
      PostingConserves(a, RateCredits(a, previous, fillTs, rates, OrEmpty(intervals), marks), marks);
    case NoFunding =>
  }

  /** The conservation law of a cycle: equity at the execution marks moves by exactly the funding settled
      less the fees and slippage charged, less the residuals popped as dust, over every mix of opens,
      increases, reductions, closes, flips and role transfers. */
  lemma ReconciliationConserves(a: Account, settled: Account, order: seq<string>, b: Account,
                                legs: seq<FillLeg>, x: Execution, input: FundingInput,
                                intervals: Option<map<string, int>>)
    requires ReconciledVia(a, settled, order, b, legs, x, input, intervals)
    ensures var c := Consolidate(legs);
      var popped := ForgoneBySymbol(settled, order, RequestsFor(WithDropped(c, settled.positions), c, x));
      && Equity(b, x.marks) == Equity(a, x.marks)
           + ((b.fundingReceived - b.fundingPaid) - (a.fundingReceived - a.fundingPaid))
           - (b.feesPaid - a.feesPaid) - (b.slippagePaid - a.slippagePaid) - Sum(popped)
      && (forall s :: s in popped ==>
            Popped(settled, s, RequestFor(WithDropped(c, settled.positions), c, x, s), x.marks, popped[s]))
  {
    hide Consolidate, WithDropped, Admissible, Funded, Equity, RunAll, Forgone, Sum;
    var c := Consolidate(legs);
    var reqs := RequestsFor(WithDropped(c, settled.positions), c, x);
    FundingConserves(a, input, x.defaultTs, intervals, x.marks);
    FundingKeepsSound(a, input, x.defaultTs, intervals, x.marks);
    RunConserves(settled, order, reqs, x.marks);
    RunKeepsFunding(settled, order, reqs);
    var run := RunAll(settled, order, reqs).value;
    ObservedKeepsEquity(run, intervals, x.marks);
    forall s | s in order ensures Popped(settled, s, reqs[s], x.marks, ForgoneAt(settled, s, reqs[s])) {
      PoppedIsDust(settled, s, reqs[s], x.marks);
    }
  }

  lemma ObservedKeepsEquity(a: Account, intervals: Option<map<string, int>>, marks: map<string, real>)
    ensures Equity(Observed(a, intervals), marks) == Equity(a, marks)
  {
    assert UnrealizedBySymbol(Observed(a, intervals), marks) == UnrealizedBySymbol(a, marks);
  }

  /** `lost` is at most the value of a sub-dust residual, and nothing unless the target itself is dust. */
  ghost predicate Popped(a: Account, s: string, r: Request, marks: map<string, real>, lost: real)
  {
    && (s !in a.positions || s !in marks ==> lost == 0.0)
    && (s in a.positions && s in marks ==> Abs(lost) <= Scale(DUST, Abs(marks[s] - a.positions[s].entryPrice)))
    && (r.mark.Some? && r.mark.value > 0.0 && (Target(r) == 0.0 || Abs(Target(r)) > DUST) ==> lost == 0.0)
  }

  lemma PoppedIsDust(a: Account, s: string, r: Request, marks: map<string, real>)
    requires r.mark == Lookup(marks, s)
    ensures Popped(a, s, r, marks, ForgoneAt(a, s, r))
  {
    hide Forgone, Scale;
    if r.mark.Some? && r.mark.value > 0.0 {
      ForgoneIsDust(Held(a, s), r);
    } else if s in a.positions && s in marks {
      ScaleGap(0.0, marks[s] - a.positions[s].entryPrice);
    }
  }

  // ----- Published accounts are reachable -----

  lemma Onward(cash: real, ops: seq<Op>, op: Op)
    ensures RunOps(cash, ops + [op]).0 == Next(RunOps(cash, ops).0, RunOps(cash, ops).1, op).0
  {
    hide Next, Balanced, AboveDust;
    assert (ops + [op])[..|ops|] == ops;
  }

  lemma FundingIsAnOperation(a: Account, h: History, input: FundingInput, fillTs: int,
                             intervals: Option<map<string, int>>, marks: map<string, real>)
      returns (op: Op)
    requires Sound(a) && Funded(a, input, fillTs, intervals, marks).Some?
    ensures Next(a, h, op).0 == Funded(a, input, fillTs, intervals, marks).value
  {
    hide SettleEvents, SettleRates, Boundaries, RunAll, Posted;
    match input
    case Events(events) => op := Settle(events, fillTs, OrEmpty(intervals));
    case Rates(rates) =>
      op := SettleRate(if a.clock.Some? then a.clock.value else fillTs, fillTs, rates, OrEmpty(intervals), marks);
    case NoFunding => op := StartClock(fillTs);
  }

  /** What a successful reconciliation of a reachable account publishes is reachable: its books balance, its
      net P&L is the equity gained, and nothing it holds is dust. */
  lemma PublishedIsReachable(cash: real, ops: seq<Op>, settled: Account, order: seq<string>, b: Account,
                             legs: seq<FillLeg>, x: Execution, input: FundingInput,
                             intervals: Option<map<string, int>>) returns (more: seq<Op>)
    requires ReconciledVia(RunOps(cash, ops).0, settled, order, b, legs, x, input, intervals)
    ensures RunOps(cash, more).0 == b
  {
    hide Funded, Next, Restamped, Consolidate, WithDropped, RequestsFor, Admissible, RunAll, Balanced;
    var (a, h) := RunOps(cash, ops);
    var op := FundingIsAnOperation(a, h, input, x.defaultTs, intervals, x.marks);
    Onward(cash, ops, op);
    more := ops + [op];
    assert RunOps(cash, more).0 == settled;
    FilledNext(settled, RunOps(cash, more).1, order, legs, x);
    Onward(cash, more, Fill(legs, x, order, None));
    more := more + [Fill(legs, x, order, None)];
    if intervals.Some? {
      RestampedNext(RunOps(cash, more).0, RunOps(cash, more).1, intervals.value);
      Onward(cash, more, Restamp(intervals.value));
      more := more + [Restamp(intervals.value)];
    }
  }

  lemma FilledNext(a: Account, h: History, order: seq<string>, legs: seq<FillLeg>, x: Execution)
    requires Sound(a)
    requires var c := Consolidate(legs);
      var net := WithDropped(c, a.positions);
      Enumerates(order, net) && RunAll(a, order, RequestsFor(net, c, x)).Ok?
    ensures var c := Consolidate(legs);
      Next(a, h, Fill(legs, x, order, None)).0 == RunAll(a, order, RequestsFor(WithDropped(c, a.positions), c, x)).value
  {
    hide RunAll, Orphaned, Consolidate;
  }

  lemma RestampedNext(a: Account, h: History, observations: map<string, int>)
    requires Sound(a)
    ensures Next(a, h, Restamp(observations)).0 == Restamped(a, observations)
  {
  }
}
