/** Where a whole reconciliation ends, told from the PM's book, the marks and the inputs alone. */
module CycleFacts {
  import opened Results
  import opened Sums
  import opened LegLifecycle
  import opened LegLaws
  import opened FundingSchedule
  import opened Ledger
  import opened LedgerLaws
  import opened BookLaws
  import opened DecisionBook
  import opened Reconcile

  // ----- The legs that are filled -----

  lemma PricedStep(fills: seq<FillLeg>, marks: map<string, real>)
    requires fills != []
    ensures var front, leg := fills[..|fills| - 1], fills[|fills| - 1];
      Priced(fills, marks) == Priced(front, marks) + if MarkOf(marks, leg.symbol) > 0.0 then [leg] else []
  {
  }

  /** Legs of a symbol with a positive mark are all filled, and those of any other symbol are not. */
  lemma {:induction false} PricedSize(fills: seq<FillLeg>, marks: map<string, real>, s: string, d: Direction)
    ensures SizeOn(Priced(fills, marks), s, d) == if MarkOf(marks, s) > 0.0 then SizeOn(fills, s, d) else 0.0
  {
    if fills == [] {
    } else {
      var front, leg := fills[..|fills| - 1], fills[|fills| - 1];
      PricedSize(front, marks, s, d);
      PricedStep(fills, marks);
      hide Priced, Abs, MarkOf;
      var before := Priced(front, marks);
      assert before + [] == before;
      assert (before + [leg])[..|before + [leg]| - 1] == before;
    }
  }

  // ----- Turnover -----

  /** What each symbol traded, at its mark. */
  function TradedNotional(before: Account, after: Account, marks: map<string, real>): map<string, real>
  {
    map s | s in before.positions.Keys + after.positions.Keys && s in marks ::
      Scale(Abs(SignedQty(Held(after, s)) - SignedQty(Held(before, s))), marks[s])
  }

  lemma NotionalChange(q: real, p: real, mark: real)
    requires mark > 0.0
    ensures Abs(Scale(q, mark) - Scale(p, mark)) == Scale(Abs(q - p), mark)
    ensures Scale(0.0, mark) == 0.0
  {
    ScaleLaws(q, -p, mark, 0.0);
    ScaleLaws(q - p, 0.0, mark, 0.0);
    ScaleSigns(q - p, mark);
  }

  /** The reported turnover is the sum over the symbols of the quantity traded at the mark. */
  lemma TurnoverIsTraded(before: Account, after: Account, marks: map<string, real>)
    requires forall s | s in marks && (s in before.positions || s in after.positions) :: marks[s] > 0.0
    ensures Sum(Turnover(Notionals(before, marks), Notionals(after, marks)))
         == Sum(TradedNotional(before, after, marks))
  {
    var turnover, traded := Turnover(Notionals(before, marks), Notionals(after, marks)),
                            TradedNotional(before, after, marks);
    forall s | s in traded ensures s in turnover && turnover[s] == traded[s] {
      NotionalChange(SignedQty(Held(after, s)), SignedQty(Held(before, s)), marks[s]);
    }
    hide Scale, SignedQty, Sum;
    assert turnover == traded;
  }

  // ----- Where the cycle ends -----

  lemma PostedHolds(a: Account, credits: Credits, s: string)
    requires a.positions.Keys <= credits.Keys
    ensures SignedQty(Held(Posted(a, credits, a.positions.Keys), s)) == SignedQty(Held(a, s))
  {
    hide Sum, Total, Gains, Losses;
  }

  lemma FundedHolds(a: Account, input: FundingInput, fillTs: int, intervals: Option<map<string, int>>,
                    marks: map<string, real>, s: string)
    requires AboveDust(a) && Funded(a, input, fillTs, intervals, marks).Some?
    ensures var b := Funded(a, input, fillTs, intervals, marks).value;
      AboveDust(b) && SignedQty(Held(b, s)) == SignedQty(Held(a, s))
  {
    hide Posted, EventsAdmissible, RateCredit, EventCredits, Boundaries;
    match input
    case Events(events) =>
      PostedHolds(a, AllEventCredits(a, events), s);
      PostedStaysAboveDust(a, AllEventCredits(a, events));
    case Rates(rates) =>
      var previous := if a.clock.Some? then a.clock.value else fillTs;
      PostedHolds(a, RateCredits(a, previous, fillTs, rates, OrEmpty(intervals), marks), s);
      PostedStaysAboveDust(a, RateCredits(a, previous, fillTs, rates, OrEmpty(intervals), marks));
    case NoFunding =>
  }

  /** A notional in contracts. */
  function Contracts(notional: real, mark: real): real
    requires mark > 0.0
  {
    notional / mark
  }

  /** The quantity a cycle is to end at: the explicit execution target; else what the book is worth at the
      decision mark, or at the execution mark without one. */
  function Aim(book: seq<FillLeg>, decision: map<string, real>, x: Execution, s: string): real
    requires MarkOf(x.marks, s) > 0.0
  {
    if x.targets.Some? && s in x.targets.value then x.targets.value[s]
    else Contracts(SizeOn(book, s, Long) - SizeOn(book, s, Short),
                   if MarkOf(decision, s) > 0.0 then MarkOf(decision, s) else x.marks[s])
  }

  lemma NetOfPriced(a: Account, fills: seq<FillLeg>, marks: map<string, real>, s: string)
    requires MarkOf(marks, s) > 0.0
    ensures var net := WithDropped(Consolidate(Priced(fills, marks)), a.positions);
      (if s in net then net[s] else 0.0) == NetAt(fills, s)
  {
    PricedSize(fills, marks, s, Long);
    PricedSize(fills, marks, s, Short);
    NetIsLongsLessShorts(Priced(fills, marks), s);
    NetIsLongsLessShorts(fills, s);
    hide SizeOn, NetAt, Priced, Consolidate;
  }

  lemma NetOfBook(a: Account, book: seq<FillLeg>, decision: map<string, real>, x: Execution, s: string)
    requires MarkOf(x.marks, s) > 0.0
    ensures var net := WithDropped(Consolidate(Priced(AnchoredFills(book, decision, x.marks), x.marks)), a.positions);
      Contracts(if s in net then net[s] else 0.0, x.marks[s])
      == Contracts(SizeOn(book, s, Long) - SizeOn(book, s, Short),
                   if MarkOf(decision, s) > 0.0 then MarkOf(decision, s) else x.marks[s])
  {
    NetOfPriced(a, AnchoredFills(book, decision, x.marks), x.marks, s);
    NetIsLongsLessShorts(book, s);
    AnchoredOverMark(book, decision, x.marks, s);
    hide WithDropped, Consolidate, SizeOn, NetAt, AnchoredFills, Priced, Contracts;
  }

  lemma AnchoredOverMark(book: seq<FillLeg>, decision: map<string, real>, execution: map<string, real>, s: string)
    requires MarkOf(execution, s) > 0.0
    ensures Contracts(NetAt(AnchoredFills(book, decision, execution), s), execution[s])
         == Contracts(NetAt(book, s), if MarkOf(decision, s) > 0.0 then MarkOf(decision, s) else execution[s])
  {
    hide NetAt, AnchoredFills, Scale;
    if MarkOf(decision, s) > 0.0 {
      AnchoredNet(book, decision, execution, s);
      CancelMark(NetAt(book, s), decision[s], execution[s]);
    } else {
      UnanchoredNet(book, decision, execution, s);
    }
  }

  /** Every symbol with an execution mark ends within the comparison tolerance of what the book asks for, whatever
      was held before and however funding was settled; what is held is above dust. */
  lemma CycleReachesTheBook(a: Account, settled: Account, order: seq<string>, b: Account,
                            book: seq<FillLeg>, decision: map<string, real>, x: Execution,
                            input: FundingInput, intervals: Option<map<string, int>>, s: string)
    requires ReconciledVia(a, settled, order, b, Priced(AnchoredFills(book, decision, x.marks), x.marks), x, input,
                           intervals)
    requires AboveDust(a) && MarkOf(x.marks, s) > 0.0
    ensures var after, aim, before := SignedQty(Held(b, s)), Aim(book, decision, x, s), SignedQty(Held(a, s));
      Abs(after - aim) <= Max(0.000000000001 * Max(Abs(aim), Abs(before)), 0.000000000001)
  {
    var legs := Priced(AnchoredFills(book, decision, x.marks), x.marks);
    NetOfBook(settled, book, decision, x, s);
    RunOfCycle(a, settled, order, b, legs, x, input, intervals, s);
    hide AnchoredFills, Priced, Consolidate, SizeOn, Sound, WithDropped, ReconciledVia, RunAll, Admissible, AboveDust,
         Enumerates, Contracts, SignedQty, Held;
    var c := Consolidate(legs);
    RunReaches(settled, order, WithDropped(c, settled.positions), c, x, s);
  }

  lemma RunOfCycle(a: Account, settled: Account, order: seq<string>, b: Account,
                   legs: seq<FillLeg>, x: Execution, input: FundingInput, intervals: Option<map<string, int>>,
                   s: string)
    requires ReconciledVia(a, settled, order, b, legs, x, input, intervals) && AboveDust(a)
    ensures var c := Consolidate(legs);
      var net := WithDropped(c, settled.positions);
      && Sound(settled) && AboveDust(settled) && Enumerates(order, net) && Admissible(settled, net, c, x)
      && settled.positions.Keys <= net.Keys
      && RunAll(settled, order, RequestsFor(net, c, x)).Ok?
      && Held(b, s) == Held(RunAll(settled, order, RequestsFor(net, c, x)).value, s)
      && SignedQty(Held(settled, s)) == SignedQty(Held(a, s))
  {
    FundedHolds(a, input, x.defaultTs, intervals, x.marks, s);
    hide Funded, Consolidate, Sound, RunAll, Admissible, AboveDust;
  }

  lemma RunReaches(a: Account, order: seq<string>, net: map<string, real>, c: Consolidated, x: Execution, s: string)
    requires Sound(a) && AboveDust(a) && Enumerates(order, net) && Admissible(a, net, c, x)
    requires a.positions.Keys <= net.Keys
    requires RunAll(a, order, RequestsFor(net, c, x)).Ok? && MarkOf(x.marks, s) > 0.0
    ensures var after, before := SignedQty(Held(RunAll(a, order, RequestsFor(net, c, x)).value, s)),
                                 SignedQty(Held(a, s));
      var aim := if x.targets.Some? && s in x.targets.value then x.targets.value[s]
                 else Contracts(if s in net then net[s] else 0.0, x.marks[s]);
      Abs(after - aim) <= Max(0.000000000001 * Max(Abs(aim), Abs(before)), 0.000000000001)
  {
    var reqs := RequestsFor(net, c, x);
    hide RunAll, ProvenComplete, LegStep;
    if s in net {
      FillsReachTargets(a, order, reqs, s);
    } else {
      RunHolds(a, order, reqs);
    }
  }

  /** A cycle that settles funding leaves the clock at the fill; without funding it only starts the clock of an
      empty account that has none.  Observed intervals are kept for exactly the symbols still held. */
  lemma CycleStamps(a: Account, settled: Account, order: seq<string>, b: Account,
                    legs: seq<FillLeg>, x: Execution, input: FundingInput, intervals: Option<map<string, int>>)
    requires ReconciledVia(a, settled, order, b, legs, x, input, intervals)
    ensures b.clock ==
      if input.NoFunding? && (a.positions != map[] || a.clock.Some?) then a.clock else Some(x.defaultTs)
    ensures intervals.Some? ==> forall s ::
      && (s in b.intervals <==> s in b.positions && s in intervals.value)
      && (s in b.intervals ==> b.intervals[s] == intervals.value[s])
  {
    var c := Consolidate(legs);
    var reqs := RequestsFor(WithDropped(c, settled.positions), c, x);
    FundedClock(a, input, x.defaultTs, intervals, x.marks);
    hide Consolidate, WithDropped, RunAll, Admissible, Funded, Sound;
    RunKeepsFunding(settled, order, reqs);
  }

  lemma FundedClock(a: Account, input: FundingInput, fillTs: int, intervals: Option<map<string, int>>,
                    marks: map<string, real>)
    requires Funded(a, input, fillTs, intervals, marks).Some?
    ensures Funded(a, input, fillTs, intervals, marks).value.clock
         == if input.NoFunding? && (a.positions != map[] || a.clock.Some?) then a.clock else Some(fillTs)
  {
    hide Posted, EventsAdmissible, RateCredit, EventCredits, Boundaries, Sum;
  }
}
