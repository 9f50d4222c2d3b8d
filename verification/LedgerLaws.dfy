/** Conservation laws of the account: equity over a reconciliation, the books over every run. */
module LedgerLaws {
  import opened Results
  import opened Sums
  import opened LegLifecycle
  import opened LegLaws
  import opened FundingSchedule
  import opened Ledger

  ghost predicate Distinct(order: seq<string>)
  {
    forall i, j :: 0 <= i < j < |order| ==> order[i] != order[j]
  }

  lemma DistinctFront(order: seq<string>)
    requires Distinct(order) && order != []
    ensures Distinct(order[..|order| - 1])
    ensures order[|order| - 1] !in order[..|order| - 1]
    ensures forall s :: s in order <==> s in order[..|order| - 1] || s == order[|order| - 1]
  {
  }

  // ----- What a run does to each symbol -----

  /** Symbols are independent: the run succeeds exactly when every leg's own step does, and each symbol
      ends as its own step leaves it. */
  lemma {:induction false} RunHolds(a: Account, order: seq<string>, reqs: Requests)
    requires Sound(a) && Distinct(order)
    requires forall s :: s in order ==> s in reqs
    ensures RunAll(a, order, reqs).Ok? <==> forall s :: s in order ==> LegStep(s, Held(a, s), reqs[s]).Ok?
    ensures RunAll(a, order, reqs).Ok? ==>
      forall s :: Held(RunAll(a, order, reqs).value, s)
               == if s in order then LegStep(s, Held(a, s), reqs[s]).value.held else Held(a, s)
  {
    if order == [] {
    } else {
      var front, s := order[..|order| - 1], order[|order| - 1];
      DistinctFront(order);
      RunHolds(a, front, reqs);
      hide LegStep;
      if RunAll(a, front, reqs).Ok? {
        var b := RunAll(a, front, reqs).value;
        assert Held(b, s) == Held(a, s);
        assert RunAll(a, order, reqs) == StepOne(b, s, reqs[s]);
      } else {
        var t :| t in front && LegStep(t, Held(a, t), reqs[t]).Err?;
        assert t in order;
      }
    }
  }

  // ----- Equity -----

  ghost function ForgoneAt(a: Account, s: string, r: Request): real
  {
    if r.mark.Some? && r.mark.value > 0.0 then Forgone(Held(a, s), r) else 0.0
  }

  /** One symbol's reconciliation costs exactly its frictions, up to a sub-dust residual. */
  lemma StepConserves(a: Account, s: string, r: Request, marks: map<string, real>)
    requires Sound(a)
    requires StepOne(a, s, r).Ok?
    requires r.mark == Lookup(marks, s)
    ensures var b := StepOne(a, s, r).value;
      Equity(b, marks) == Equity(a, marks) - (b.feesPaid - a.feesPaid) - (b.slippagePaid - a.slippagePaid)
                          - ForgoneAt(a, s, r)
  {
    hide LegStep, Forgone, Scale, Unrealized;
    var b := StepOne(a, s, r).value;
    var o := LegStep(s, Held(a, s), r).value;
    var before, after := UnrealizedBySymbol(a, marks), UnrealizedBySymbol(b, marks);
    if r.mark.Some? && r.mark.value > 0.0 {
      var m := r.mark.value;
      LegConserves(s, Held(a, s), r, m);
      ScaleLaws(SignedQty(o.held) - SignedQty(Held(a, s)), 0.0, m - m, 0.0);
      assert after - {s} == before - {s};
      Replace(before, after, s, ValueOf(o.held, m));
    } else {
      SkippedIsFlat(s, Held(a, s), r);
      assert after == before;
    }
  }

  lemma SkippedIsFlat(s: string, held: Option<Position>, r: Request)
    requires WellFormed(s, held)
    requires LegStep(s, held, r).Ok? && !(r.mark.Some? && r.mark.value > 0.0)
    ensures held.None? && LegStep(s, held, r).value == Unchanged(None)
  {
  }

  ghost function ForgoneBySymbol(a: Account, order: seq<string>, reqs: Requests): map<string, real>
    requires forall s :: s in order ==> s in reqs
  {
    map s | s in order :: ForgoneAt(a, s, reqs[s])
  }

  /** A whole reconciliation moves equity at the execution marks by its frictions and the popped dust. */
  lemma {:induction false} RunConserves(a: Account, order: seq<string>, reqs: Requests, marks: map<string, real>)
    requires Sound(a) && Distinct(order)
    requires forall s :: s in order ==> s in reqs && reqs[s].mark == Lookup(marks, s)
    requires RunAll(a, order, reqs).Ok?
    ensures var b := RunAll(a, order, reqs).value;
      Equity(b, marks) == Equity(a, marks) - (b.feesPaid - a.feesPaid) - (b.slippagePaid - a.slippagePaid)
                          - Sum(ForgoneBySymbol(a, order, reqs))
  {
    hide Forgone, Equity, LegStep;
    if order == [] {
      assert ForgoneBySymbol(a, order, reqs) == map[];
    } else {
      var front, s := order[..|order| - 1], order[|order| - 1];
      DistinctFront(order);
      RunConserves(a, front, reqs, marks);
      RunHolds(a, front, reqs);
      var b := RunAll(a, front, reqs).value;
      StepConserves(b, s, reqs[s], marks);
      assert Held(b, s) == Held(a, s);
      var lost := ForgoneBySymbol(a, order, reqs);
      SumRemove(lost, s);
      assert lost - {s} == ForgoneBySymbol(a, front, reqs);
    }
  }

  // ----- The books -----

  /** What a run has to be remembered for besides the account itself. */
  datatype History = History(initial: real, drained: seq<ClosedLeg>, orphanFees: real, orphanSlippage: real)

  datatype Aggregate = Fees | Slippage | Funding | Realized

  function Share(p: Position, g: Aggregate): real
  {
    match g
    case Fees => p.accruedFees
    case Slippage => p.accruedSlippage
    case Funding => p.accruedFunding
    case Realized => p.realizedPnl
  }

  function Column(ps: map<string, Position>, g: Aggregate): map<string, real>
  {
    map s | s in ps :: Share(ps[s], g)
  }

  ghost function OpenTotals(ps: map<string, Position>): Totals
  {
    Totals(Sum(Column(ps, Fees)), Sum(Column(ps, Slippage)), Sum(Column(ps, Funding)), Sum(Column(ps, Realized)))
  }

  /** Cash is explained by the aggregates, and each aggregate by the open legs, the lifecycles waiting to
      be drained and those already drained; only orphan flip frictions belong to no leg. */
  ghost predicate Balanced(a: Account, h: History)
  {
    && Sound(a)
    && a.cash == h.initial + a.realizedPnl + (a.fundingReceived - a.fundingPaid) - a.feesPaid - a.slippagePaid
    && Totals(a.feesPaid - h.orphanFees, a.slippagePaid - h.orphanSlippage,
              a.fundingReceived - a.fundingPaid, a.realizedPnl)
       == Plus(OpenTotals(a.positions), ClosedTotals(h.drained + a.closedLegs))
  }

  function WithHeld(ps: map<string, Position>, s: string, held: Option<Position>): map<string, Position>
  {
    if held.Some? then ps[s := held.value] else ps - {s}
  }

  function HeldShare(held: Option<Position>, g: Aggregate): real
  {
    if held.Some? then Share(held.value, g) else 0.0
  }

  lemma ColumnReplace(ps: map<string, Position>, s: string, held: Option<Position>, g: Aggregate)
    ensures Sum(Column(WithHeld(ps, s, held), g))
         == Sum(Column(ps, g)) - HeldShare(Lookup(ps, s), g) + HeldShare(held, g)
  {
    hide Share;
    Replace(Column(ps, g), Column(WithHeld(ps, s, held), g), s, HeldShare(held, g));
  }

  lemma OpenTotalsReplace(ps: map<string, Position>, s: string, held: Option<Position>)
    ensures Plus(OpenTotals(WithHeld(ps, s, held)), HeldTotals(Lookup(ps, s))) == Plus(OpenTotals(ps), HeldTotals(held))
  {
    hide Sum, Column, WithHeld;
    ColumnReplace(ps, s, held, Fees);
    ColumnReplace(ps, s, held, Slippage);
    ColumnReplace(ps, s, held, Funding);
    ColumnReplace(ps, s, held, Realized);
  }

  lemma Replace(m: map<string, real>, n: map<string, real>, s: string, v: real)
    requires n - {s} == m - {s}
    requires (if s in n then n[s] else 0.0) == v
    ensures Sum(n) == Sum(m) - (if s in m then m[s] else 0.0) + v
  {
    SumUpdate(m, s, v);
    SumUpdate(n, s, v);
  }

  lemma StepBalances(a: Account, s: string, r: Request, h: History)
    requires Balanced(a, h)
    requires StepOne(a, s, r).Ok?
    ensures var o := LegStep(s, Held(a, s), r).value;
      Balanced(StepOne(a, s, r).value,
               h.(orphanFees := h.orphanFees + o.orphanFee, orphanSlippage := h.orphanSlippage + o.orphanSlip))
  {
    hide LegStep, OpenTotals, ClosedTotals, HeldTotals;
    var o := LegStep(s, Held(a, s), r).value;
    var b := StepOne(a, s, r).value;
    LegJournals(s, Held(a, s), r);
    OpenTotalsReplace(a.positions, s, o.held);
    assert h.drained + b.closedLegs == (h.drained + a.closedLegs) + o.closed;
    ClosedTotalsConcat(h.drained + a.closedLegs, o.closed);
    Rebalance(OpenTotals(a.positions), OpenTotals(b.positions), HeldTotals(Held(a, s)), HeldTotals(o.held),
              ClosedTotals(h.drained + a.closedLegs), ClosedTotals(o.closed), Charged(o));
    assert Totals(b.feesPaid - (h.orphanFees + o.orphanFee), b.slippagePaid - (h.orphanSlippage + o.orphanSlip),
                  b.fundingReceived - b.fundingPaid, b.realizedPnl)
        == Plus(Totals(a.feesPaid - h.orphanFees, a.slippagePaid - h.orphanSlippage,
                       a.fundingReceived - a.fundingPaid, a.realizedPnl), Charged(o));
  }

  lemma Rebalance(before: Totals, after: Totals, was: Totals, now: Totals, old0: Totals, closed: Totals,
                  charged: Totals)
    requires Plus(after, was) == Plus(before, now)
    requires Plus(now, closed) == Plus(was, charged)
    ensures Plus(after, Plus(old0, closed)) == Plus(Plus(before, old0), charged)
  {
  }

  /** A step that raises part-way balances too: at most a role transfer has happened. */
  lemma InterruptionBalances(a: Account, s: string, r: Request, h: History)
    requires Balanced(a, h)
    ensures Balanced(Interrupted(a, s, r), h)
  {
    hide OpenTotals, ClosedTotals, HeldTotals, Unrealized;
    if RollsFirst(Held(a, s), r) {
      var p := PlanFor(Held(a, s), r);
      var o := Roll(a.positions[s], p.mark, r.opening, p.role, p.thesis);
      var b := Absorb(a, s, o);
      RollJournals(a.positions[s], p.mark, r.opening, p.role, p.thesis);
      RollWellFormed(s, a.positions[s], p.mark, r.opening, p.role, p.thesis);
      OpenTotalsReplace(a.positions, s, o.held);
      assert h.drained + b.closedLegs == (h.drained + a.closedLegs) + o.closed;
      ClosedTotalsConcat(h.drained + a.closedLegs, o.closed);
      Rebalance(OpenTotals(a.positions), OpenTotals(b.positions), HeldTotals(Held(a, s)), HeldTotals(o.held),
                ClosedTotals(h.drained + a.closedLegs), ClosedTotals(o.closed), Charged(o));
    }
  }

  /** The orphan frictions of a run. */
  ghost function Orphaned(a: Account, order: seq<string>, reqs: Requests, h: History): History
    requires Sound(a)
    requires forall s :: s in order ==> s in reqs
    requires RunAll(a, order, reqs).Ok?
  {
    if order == [] then h
    else
      var front, s := order[..|order| - 1], order[|order| - 1];
      var g := Orphaned(a, front, reqs, h);
      var o := LegStep(s, Held(RunAll(a, front, reqs).value, s), reqs[s]).value;
      g.(orphanFees := g.orphanFees + o.orphanFee, orphanSlippage := g.orphanSlippage + o.orphanSlip)
  }

  /** What each symbol of a run charges the account without any leg carrying it. */
  ghost function OrphanFees(a: Account, order: seq<string>, reqs: Requests): map<string, real>
    requires Sound(a) && forall s :: s in order ==> s in reqs
  {
    map s | s in order :: OrphanBill(Held(a, s), reqs[s]).fee
  }

  ghost function OrphanSlips(a: Account, order: seq<string>, reqs: Requests): map<string, real>
    requires Sound(a) && forall s :: s in order ==> s in reqs
  {
    map s | s in order :: OrphanBill(Held(a, s), reqs[s]).slip
  }

  /** The orphan frictions of a run are those of its sub-dust flips. */
  lemma {:induction false} RunOrphans(a: Account, order: seq<string>, reqs: Requests, h: History)
    requires Sound(a) && Distinct(order)
    requires forall s :: s in order ==> s in reqs
    requires RunAll(a, order, reqs).Ok?
    ensures Orphaned(a, order, reqs, h)
         == h.(orphanFees := h.orphanFees + Sum(OrphanFees(a, order, reqs)),
               orphanSlippage := h.orphanSlippage + Sum(OrphanSlips(a, order, reqs)))
  {
    hide LegStep, OrphanBill, Sum;
    if order == [] {
      assert OrphanFees(a, order, reqs) == map[] && OrphanSlips(a, order, reqs) == map[];
      NothingSums();
    } else {
      var front, s := order[..|order| - 1], order[|order| - 1];
      DistinctFront(order);
      RunOrphans(a, front, reqs, h);
      RunHolds(a, front, reqs);
      assert Held(RunAll(a, front, reqs).value, s) == Held(a, s);
      OrphansExactly(s, Held(a, s), reqs[s]);
      var fees, slips := OrphanFees(a, order, reqs), OrphanSlips(a, order, reqs);
      SumRemove(fees, s);
      SumRemove(slips, s);
      assert fees - {s} == OrphanFees(a, front, reqs) && slips - {s} == OrphanSlips(a, front, reqs);
    }
  }

  lemma NothingSums()
    ensures Sum(map[]) == 0.0
  {
  }

  lemma {:induction false} ZerosSum(m: map<string, real>)
    requires forall s | s in m :: m[s] == 0.0
    ensures Sum(m) == 0.0
    decreases |m|
  {
    if m == map[] {
    } else {
      var s :| s in m;
      SumRemove(m, s);
      ZerosSum(m - {s});
    }
  }

  /** No symbol of the run crosses to a quantity too small to be held. */
  ghost predicate NoSubDustFlip(a: Account, order: seq<string>, reqs: Requests)
    requires forall s :: s in order ==> s in reqs
  {
    forall s | s in order :: !SubDustFlip(Held(a, s), reqs[s])
  }

  lemma NoOrphansWithoutFlips(a: Account, order: seq<string>, reqs: Requests, h: History)
    requires Sound(a) && Distinct(order)
    requires forall s :: s in order ==> s in reqs
    requires RunAll(a, order, reqs).Ok? && NoSubDustFlip(a, order, reqs)
    ensures Orphaned(a, order, reqs, h) == h
  {
    hide RunAll, SubDustFlip, Frictions;
    RunOrphans(a, order, reqs, h);
    ZerosSum(OrphanFees(a, order, reqs));
    ZerosSum(OrphanSlips(a, order, reqs));
  }

  /** A run keeps the books balanced, and the part of them no leg carries grows only in its sub-dust
      flips. */
  lemma {:induction false} RunBalances(a: Account, order: seq<string>, reqs: Requests, h: History)
    requires Balanced(a, h)
    requires forall s :: s in order ==> s in reqs
    requires RunAll(a, order, reqs).Ok?
    ensures Balanced(RunAll(a, order, reqs).value, Orphaned(a, order, reqs, h))
    ensures Distinct(order) && NoSubDustFlip(a, order, reqs) ==> Orphaned(a, order, reqs, h) == h
  {
    hide OpenTotals, ClosedTotals, LegStep, NoSubDustFlip, Distinct;
    if order == [] {
    } else {
      var front, s := order[..|order| - 1], order[|order| - 1];
      RunBalances(a, front, reqs, h);
      StepBalances(RunAll(a, front, reqs).value, s, reqs[s], Orphaned(a, front, reqs, h));
    }
    if Distinct(order) && NoSubDustFlip(a, order, reqs) {
      NoOrphansWithoutFlips(a, order, reqs, h);
    }
  }

  // ----- Funding -----

  lemma {:induction false} GainsLessLosses(xs: seq<real>)
    ensures Gains(xs) - Losses(xs) == Total(xs)
    ensures Gains(xs) >= 0.0 && Losses(xs) >= 0.0
  {
    if xs == [] {
    } else {
      GainsLessLosses(xs[..|xs| - 1]);
    }
  }

  /** What posting adds to each total. */
  lemma PostedTotals(a: Account, credits: Credits)
    requires a.positions.Keys <= credits.Keys
    ensures var b := Posted(a, credits, a.positions.Keys);
      && b.fundingReceived >= a.fundingReceived && b.fundingPaid >= a.fundingPaid
      && b.cash - a.cash == (b.fundingReceived - b.fundingPaid) - (a.fundingReceived - a.fundingPaid)
  {
    var keys := a.positions.Keys;
    var total, gains, losses := TotalBySymbol(credits, keys), GainsBySymbol(credits, keys),
        LossesBySymbol(credits, keys);
    var zero := map s | s in keys :: 0.0;
    forall s | s in keys
      ensures total[s] + losses[s] == gains[s] && zero[s] <= gains[s] && zero[s] <= losses[s]
    {
      GainsLessLosses(credits[s]);
    }
    SumPlus(total, losses, gains);
    SumPlus(zero, zero, zero);
    SumBounded(zero, gains);
    SumBounded(zero, losses);
  }

  lemma PostedColumns(a: Account, credits: Credits)
    requires a.positions.Keys <= credits.Keys
    ensures var b := Posted(a, credits, a.positions.Keys);
      && (forall g :: g != Funding ==> Column(b.positions, g) == Column(a.positions, g))
      && Sum(Column(b.positions, Funding)) - Sum(Column(a.positions, Funding)) == b.cash - a.cash
  {
    hide Sum, Total, Gains, Losses;
    var b := Posted(a, credits, a.positions.Keys);
    SumPlus(Column(a.positions, Funding), TotalBySymbol(credits, a.positions.Keys), Column(b.positions, Funding));
  }

  lemma PostingBalances(a: Account, credits: Credits, h: History)
    requires Balanced(a, h) && a.positions.Keys <= credits.Keys
    ensures Balanced(Posted(a, credits, a.positions.Keys), h)
  {
    hide ClosedTotals, Column, Sum;
    PostedTotals(a, credits);
    PostedColumns(a, credits);
  }

  lemma SameValues(a: Account, b: Account, marks: map<string, real>)
    requires b.positions.Keys == a.positions.Keys
    requires forall s :: s in a.positions ==>
      b.positions[s].(accruedFunding := 0.0) == a.positions[s].(accruedFunding := 0.0)
    ensures UnrealizedBySymbol(b, marks) == UnrealizedBySymbol(a, marks)
  {
    forall s | s in a.positions && s in marks
      ensures Unrealized(b.positions[s], marks[s]) == Unrealized(a.positions[s], marks[s])
    {
      assert b.positions[s].(accruedFunding := 0.0) == a.positions[s].(accruedFunding := 0.0);
    }
  }

  /** Settling funding moves equity by exactly the funding settled: no quantity or price changes. */
  lemma PostingConserves(a: Account, credits: Credits, marks: map<string, real>)
    requires a.positions.Keys <= credits.Keys
    ensures var b := Posted(a, credits, a.positions.Keys);
      Equity(b, marks) == Equity(a, marks) + (b.fundingReceived - b.fundingPaid) - (a.fundingReceived - a.fundingPaid)
  {
    hide Total, Sum;
    var b := Posted(a, credits, a.positions.Keys);
    PostedTotals(a, credits);
    SameValues(a, b, marks);
  }

  // ----- Nothing held is dust -----

  /** Positions the ledger opens are never dust. */
  ghost predicate AboveDust(a: Account)
  {
    forall s :: s in a.positions ==> a.positions[s].qty > DUST
  }

  lemma LegStaysAboveDust(s: string, held: Option<Position>, r: Request)
    requires WellFormed(s, held) && LegStep(s, held, r).Ok?
    requires held.Some? ==> held.value.qty > DUST
    ensures var o := LegStep(s, held, r).value; o.held.Some? ==> o.held.value.qty > DUST
  {
    LegStaysWellFormed(s, held, r);
    if r.mark.Some? && r.mark.value > 0.0 {
      LegConserves(s, held, r, 0.0);
      hide LegStep, ValueOf, Scale, Forgone;
    } else {
      SkippedIsFlat(s, held, r);
    }
  }

  lemma RunStaysAboveDust(a: Account, order: seq<string>, reqs: Requests)
    requires Sound(a) && AboveDust(a) && Distinct(order)
    requires forall s :: s in order ==> s in reqs
    requires RunAll(a, order, reqs).Ok?
    ensures AboveDust(RunAll(a, order, reqs).value)
  {
    RunHolds(a, order, reqs);
    hide LegStep, RunAll;
    var b := RunAll(a, order, reqs).value;
    forall s | s in b.positions ensures b.positions[s].qty > DUST {
      assert Held(b, s) == Some(b.positions[s]);
      if s in order {
        LegStaysAboveDust(s, Held(a, s), reqs[s]);
      }
    }
  }

  // ----- Every run of the account -----

  datatype Op =
    | Settle(events: map<string, seq<FundingEvent>>, now: int, observed: map<string, int>)
    | SettleRate(previous: int, end: int, rates: map<string, real>, intervals: map<string, int>,
      marks: map<string, real>)
    | Fill(legs: seq<FillLeg>, x: Execution, order: seq<string>, failing: Option<string>)
    | Drain
    | StartClock(ts: int)
    | Restamp(observations: map<string, int>)

  /** A prefix of the consolidated symbols, each at most once: what a fill that raises part-way, or one
      that completes, has reconciled. */
  ghost predicate Prefix(a: Account, op: Op)
    requires op.Fill? && Sound(a)
  {
    var c := Consolidate(op.legs);
    var net := WithDropped(c, a.positions);
    && (forall s :: s in op.order ==> s in net)
    && (op.failing.Some? ==> op.failing.value in net)
    && Distinct(op.order)
    && RunAll(a, op.order, RequestsFor(net, c, op.x)).Ok?
  }

  /** The account and its history after one operation; an operation that raises before mutating, or
      whose steps do not fit, leaves both alone. */
  ghost function Next(a: Account, h: History, op: Op): (Account, History)
    requires Sound(a)
  {
    match op
    case Settle(events, now, observed) =>
      (match SettleEvents(a, events, now, observed)
       case None => (a, h)
       case Some(b) => (b, h))
    case SettleRate(previous, end, rates, intervals, marks) =>
      (match SettleRates(a, previous, end, rates, intervals, marks)
       case None => (a, h)
       case Some(b) => (b, h))
    case Fill(legs, x, order, failing) =>
      if Prefix(a, op) then
        var c := Consolidate(legs);
        var reqs := RequestsFor(WithDropped(c, a.positions), c, x);
        var b := RunAll(a, order, reqs).value;
        (if failing.Some? then Interrupted(b, failing.value, reqs[failing.value]) else b, Orphaned(a, order, reqs, h))
      else (a, h)
    case Drain => (Drained(a), h.(drained := h.drained + a.closedLegs))
    case StartClock(ts) => (if a.positions == map[] && a.clock.None? then a.(clock := Some(ts)) else a, h)
    case Restamp(observations) => (Restamped(a, observations), h)
  }

  lemma NextBalances(a: Account, h: History, op: Op)
    requires Balanced(a, h)
    ensures Balanced(Next(a, h, op).0, Next(a, h, op).1)
    ensures Next(a, h, op).1.initial == h.initial
  {
    hide Posted, RunAll, Orphaned, OpenTotals, ClosedTotals, EventsAdmissible, IsInterval, Boundaries;
    match op
    case Settle(events, now, observed) =>
      if SettleEvents(a, events, now, observed).Some? {
        PostingBalances(a, AllEventCredits(a, events), h);
      }
    case SettleRate(previous, end, rates, intervals, marks) =>
      if SettleRates(a, previous, end, rates, intervals, marks).Some? {
        PostingBalances(a, RateCredits(a, previous, end, rates, intervals, marks), h);
      }
    case Fill(legs, x, order, failing) =>
      if Prefix(a, op) {
        var c := Consolidate(legs);
        var reqs := RequestsFor(WithDropped(c, a.positions), c, x);
        RunBalances(a, order, reqs, h);
        OrphanedInitial(a, order, reqs, h);
        if failing.Some? {
          InterruptionBalances(RunAll(a, order, reqs).value, failing.value, reqs[failing.value],
            Orphaned(a, order, reqs, h));
        }
      }
    case Drain =>
      assert h.drained + a.closedLegs + [] == h.drained + a.closedLegs;
    case StartClock(ts) =>
    case Restamp(observations) =>
  }

  lemma PostedStaysAboveDust(a: Account, credits: Credits)
    requires AboveDust(a) && a.positions.Keys <= credits.Keys
    ensures AboveDust(Posted(a, credits, a.positions.Keys))
  {
    hide Sum, Total;
  }

  lemma InterruptedStaysAboveDust(a: Account, s: string, r: Request)
    requires AboveDust(a)
    ensures AboveDust(Interrupted(a, s, r))
  {
    hide Unrealized;
  }

  lemma FillStaysAboveDust(a: Account, h: History, op: Op)
    requires Sound(a) && AboveDust(a) && op.Fill? && Prefix(a, op)
    ensures AboveDust(Next(a, h, op).0)
  {
    hide RunAll, Orphaned, LegStep, Interrupted, AboveDust;
    var c := Consolidate(op.legs);
    var reqs := RequestsFor(WithDropped(c, a.positions), c, op.x);
    RunStaysAboveDust(a, op.order, reqs);
    if op.failing.Some? {
      InterruptedStaysAboveDust(RunAll(a, op.order, reqs).value, op.failing.value, reqs[op.failing.value]);
    }
  }

  lemma NextStaysAboveDust(a: Account, h: History, op: Op)
    requires Sound(a) && AboveDust(a)
    ensures AboveDust(Next(a, h, op).0)
  {
    if op.Fill? && Prefix(a, op) {
      FillStaysAboveDust(a, h, op);
    } else {
      hide RunAll, Orphaned, EventsAdmissible, IsInterval, Boundaries, LegStep, Posted, Interrupted, Prefix, Sum;
      if op.Settle? && SettleEvents(a, op.events, op.now, op.observed).Some? {
        PostedStaysAboveDust(a, AllEventCredits(a, op.events));
      } else if op.SettleRate? && SettleRates(a, op.previous, op.end, op.rates, op.intervals, op.marks).Some? {
        PostedStaysAboveDust(a, RateCredits(a, op.previous, op.end, op.rates, op.intervals, op.marks));
      }
    }
  }

  lemma {:induction false} OrphanedInitial(a: Account, order: seq<string>, reqs: Requests, h: History)
    requires Sound(a)
    requires forall s :: s in order ==> s in reqs
    requires RunAll(a, order, reqs).Ok?
    ensures Orphaned(a, order, reqs, h).initial == h.initial
  {
    if order == [] {
    } else {
      OrphanedInitial(a, order[..|order| - 1], reqs, h);
    }
  }

  function Fresh(cash: real): Account
  {
    Account(cash, map[], 0.0, None, map[], 0.0, 0.0, 0.0, 0.0, [])
  }

  /** In every reachable account the books balance and nothing held is dust. */
  ghost function RunOps(cash: real, ops: seq<Op>): (res: (Account, History))
    ensures Balanced(res.0, res.1) && res.1.initial == cash && AboveDust(res.0)
  {
    if ops == [] then
      FreshBalances(cash);
      (Fresh(cash), History(cash, [], 0.0, 0.0))
    else
      var (a, h) := RunOps(cash, ops[..|ops| - 1]);
      NextBalances(a, h, ops[|ops| - 1]);
      NextStaysAboveDust(a, h, ops[|ops| - 1]);
      Next(a, h, ops[|ops| - 1])
  }

  lemma FreshBalances(cash: real)
    ensures Balanced(Fresh(cash), History(cash, [], 0.0, 0.0))
  {
    NothingTotals();
    hide OpenTotals, ClosedTotals;
    assert [] + Fresh(cash).closedLegs == [];
  }

  lemma NothingTotals()
    ensures OpenTotals(map[]) == NOTHING && ClosedTotals([]) == NOTHING
  {
    forall g ensures Column(map[], g) == map[] {
    }
  }

  /** The operation is a fill that crosses to a quantity too small to be held. */
  ghost predicate FlipsIntoDust(a: Account, op: Op)
    requires Sound(a)
  {
    op.Fill? && Prefix(a, op) &&
    var c := Consolidate(op.legs);
    !NoSubDustFlip(a, op.order, RequestsFor(WithDropped(c, a.positions), c, op.x))
  }

  lemma NextWithoutFlips(a: Account, h: History, op: Op)
    requires Sound(a) && !FlipsIntoDust(a, op)
    ensures var g := Next(a, h, op).1; g.orphanFees == h.orphanFees && g.orphanSlippage == h.orphanSlippage
  {
    hide RunAll, Orphaned, NoSubDustFlip, Consolidate, WithDropped, SettleEvents, SettleRates, Interrupted;
    if op.Fill? && Prefix(a, op) {
      var c := Consolidate(op.legs);
      NoOrphansWithoutFlips(a, op.order, RequestsFor(WithDropped(c, a.positions), c, op.x), h);
    }
  }

  /** In every account reached without such a fill, every fee and every slippage is on a leg: still open,
      waiting to be drained, or drained. */
  lemma BooksBalanceExactly(cash: real, ops: seq<Op>)
    requires forall k | 0 <= k < |ops| :: !FlipsIntoDust(RunOps(cash, ops[..k]).0, ops[k])
    ensures var (a, h) := RunOps(cash, ops);
      Totals(a.feesPaid, a.slippagePaid, a.fundingReceived - a.fundingPaid, a.realizedPnl)
      == Plus(OpenTotals(a.positions), ClosedTotals(h.drained + a.closedLegs))
  {
    hide OpenTotals, ClosedTotals, FlipsIntoDust, Next;
    NoOrphans(cash, ops);
  }

  lemma {:induction false} NoOrphans(cash: real, ops: seq<Op>)
    requires forall k | 0 <= k < |ops| :: !FlipsIntoDust(RunOps(cash, ops[..k]).0, ops[k])
    ensures var h := RunOps(cash, ops).1; h.orphanFees == h.orphanSlippage == 0.0
  {
    hide FlipsIntoDust, Next, AboveDust, OpenTotals, ClosedTotals, WellFormed, Plus;
    if ops == [] {
    } else {
      var front := ops[..|ops| - 1];
      forall k | 0 <= k < |front| ensures !FlipsIntoDust(RunOps(cash, front[..k]).0, front[k]) {
        assert front[..k] == ops[..k];
      }
      NoOrphans(cash, front);
      NextWithoutFlips(RunOps(cash, front).0, RunOps(cash, front).1, ops[|ops| - 1]);
    }
  }

  // ----- The per-cycle P&L record -----

  datatype CyclePnl = CyclePnl(realizedPnl: real, unrealizedPnl: real, fundingNet: real, grossPnl: real,
                               netPnl: real, closingEquity: real)

  ghost function BuildCyclePnl(a: Account, marks: map<string, real>): CyclePnl
  {
    var unrealized := Sum(UnrealizedBySymbol(a, marks));
    var fundingNet := a.fundingReceived - a.fundingPaid;
    var gross := a.realizedPnl + unrealized + fundingNet;
    CyclePnl(a.realizedPnl, unrealized, fundingNet, gross, gross - a.feesPaid - a.slippagePaid, Equity(a, marks))
  }

  /** In every reachable account and at any marks, reported net P&L is closing equity less the cash the
      account started with. */
  lemma NetPnlIsEquityGained(cash: real, ops: seq<Op>, marks: map<string, real>)
    ensures var pnl := BuildCyclePnl(RunOps(cash, ops).0, marks);
      pnl.netPnl == pnl.closingEquity - cash
  {
    var (a, h) := RunOps(cash, ops);
    assert Balanced(a, h) && h.initial == cash;
  }
}
