/** What a run of funding settlements does to one position of the account. */
module FundingRuns {
  import opened Results
  import opened Sums
  import opened FundingSchedule
  import opened FundingHistory
  import opened ExecutionWindow
  import opened LegLifecycle
  import opened Ledger

  datatype Settlement = Settlement(events: map<string, seq<FundingEvent>>, now: int, observed: map<string, int>)

  /** The account after every settlement, unless one raises. */
  ghost function SettleAll(a: Account, ss: seq<Settlement>): Option<Account>
  {
    if ss == [] then Some(a)
    else
      var last := ss[|ss| - 1];
      match SettleAll(a, ss[..|ss| - 1])
      case None => None
      case Some(b) => SettleEvents(b, last.events, last.now, last.observed)
  }

  /** What collection accepts at the account's clock, the account admits: a settlement of collected windows
      can only fail for cash. */
  lemma AcceptedIsAdmissible(a: Account, st: Settlement, priors: map<string, int>)
    requires a.positions != map[] ==> a.clock.Some?
    requires a.clock.Some? ==> a.clock.value <= st.now
    requires forall s | s in a.positions ::
      s in st.events && s in st.observed && s in priors
      && Accepted(a.clock.value, st.now, priors[s], st.observed[s], st.events[s])
    ensures SettlementAdmissible(a, st.events, st.now, st.observed)
    ensures SettleEvents(a, st.events, st.now, st.observed).None? <==>
      SettledEvents(a, st.events, st.now, st.observed).cash < 0.0
  {
    hide Posted, Covered, NominalBoundary;
    forall s | s in a.positions ensures EventsAdmissible(st.events[s], a.clock.value, st.now) {
      assert Accepted(a.clock.value, st.now, priors[s], st.observed[s], st.events[s]);
    }
  }

  /** The windows of one symbol along the run. */
  ghost predicate WindowsOf(windows: seq<Window>, ss: seq<Settlement>, s: string)
  {
    |windows| == |ss| && forall k | 0 <= k < |ss| ::
      windows[k].end == ss[k].now && s in ss[k].events && windows[k].events == ss[k].events[s]
  }

  function AllEvents(windows: seq<Window>): seq<FundingEvent>
  {
    if windows == [] then [] else AllEvents(windows[..|windows| - 1]) + windows[|windows| - 1].events
  }

  lemma {:induction false} SettledFirstAdds(xs: seq<FundingEvent>, ys: seq<FundingEvent>, q: real)
    ensures SettledFirst(xs + ys, q) == SettledFirst(xs, q) + SettledFirst(ys, q)
  {
    if ys == [] {
      assert xs + ys == xs;
    } else {
      SettledFirstAdds(xs, ys[..|ys| - 1], q);
      assert (xs + ys)[..|xs + ys| - 1] == xs + ys[..|ys| - 1];
    }
  }

  /** The events of the run, one by one, are the boundaries it charges. */
  lemma {:induction false} EventsAreCharged(windows: seq<Window>)
    ensures NominalSeq(AllEvents(windows)) == Charged(windows)
  {
    if windows == [] {
    } else {
      EventsAreCharged(windows[..|windows| - 1]);
    }
  }

  /** One settlement credits the position its signed quantity's share and changes nothing else of it. */
  lemma SettledPosition(a: Account, st: Settlement, s: string)
    requires s in a.positions && SettleEvents(a, st.events, st.now, st.observed).Some?
    ensures var b, p := SettleEvents(a, st.events, st.now, st.observed).value, a.positions[s];
      && s in b.positions && b.clock == Some(st.now)
      && b.positions[s] == p.(accruedFunding := p.accruedFunding + SettledFirst(st.events[s], SignedQty(Some(p))))
  {
    hide EventCredits, SettledFirst, EventsAdmissible, IsInterval;
    CreditsAreSettledFirst(a.positions[s], st.events[s]);
  }

  /** Over any run of settlements a position is credited -q * mark * rate for every event, q being its signed
      quantity, and nothing else of it changes. */
  lemma {:induction false} RunCredits(a: Account, ss: seq<Settlement>, s: string, windows: seq<Window>)
    requires s in a.positions && SettleAll(a, ss).Some? && WindowsOf(windows, ss, s)
    ensures var b, p := SettleAll(a, ss).value, a.positions[s];
      && s in b.positions && (ss != [] ==> b.clock == Some(ss[|ss| - 1].now))
      && b.positions[s] == p.(accruedFunding := p.accruedFunding + SettledFirst(AllEvents(windows), SignedQty(Some(p))))
  {
    hide SettleEvents, SettledFirst;
    var p := a.positions[s];
    if ss == [] {
      assert SettledFirst([], SignedQty(Some(p))) == 0.0 by { NothingSettled(SignedQty(Some(p))); }
    } else {
      var front, earlier := ss[..|ss| - 1], windows[..|windows| - 1];
      RunCredits(a, front, s, earlier);
      SettledPosition(SettleAll(a, front).value, ss[|ss| - 1], s);
      SettledFirstAdds(AllEvents(earlier), windows[|windows| - 1].events, SignedQty(Some(p)));
    }
  }

  lemma NothingSettled(q: real)
    ensures SettledFirst([], q) == 0.0
  {
  }

  /** On a stable schedule the funding a position accrues over a run of collected settlements is
      -q * mark * rate summed over exactly the schedule's boundaries between the account's first clock and
      its last, each once. */
  lemma AccruedIsExact(a: Account, ss: seq<Settlement>, s: string, windows: seq<Window>, start: int, interval: int)
    requires s in a.positions && a.clock == Some(start) && SettleAll(a, ss).Some? && WindowsOf(windows, ss, s)
    requires IsInterval(interval) && AcceptedRun(start, windows)
    requires forall k | 0 <= k < |windows| :: windows[k].prior == windows[k].current == interval
    ensures var b, p, events := SettleAll(a, ss).value, a.positions[s], AllEvents(windows);
      && s in b.positions && b.clock.Some?
      && b.positions[s].accruedFunding == p.accruedFunding + SettledFirst(events, SignedQty(Some(p)))
      && Once(NominalSeq(events)) && Elements(NominalSeq(events)) == Boundaries(start, b.clock.value, interval)
  {
    hide SettleEvents, SettledFirst, Boundaries, Accepted;
    RunCredits(a, ss, s, windows);
    EventsAreCharged(windows);
    StableRunIsExact(start, windows, interval);
  }

  // ----- Settling at observed rates -----

  /** What a signed quantity is credited at one rate over the boundaries between two instants: the difference
      of two floor divisions. */
  function RateCharge(q: real, mark: real, rate: real, previous: int, now: int, interval: int): real
    requires IsInterval(interval)
  {
    Scale(-(q * mark * rate), (now / Step(interval) - previous / Step(interval)) as real)
  }

  /** Settling at observed rates moves a position's accrued funding by minus its signed quantity times mark
      times rate, once for every boundary between the clocks, and changes nothing else of it. */
  lemma RatesAreCharged(a: Account, previous: int, now: int, rates: map<string, real>, intervals: map<string, int>,
                        marks: map<string, real>, s: string)
    requires s in a.positions && SettleRates(a, previous, now, rates, intervals, marks).Some?
    ensures s in rates && s in intervals && s in marks && IsInterval(intervals[s])
    ensures var b, p := SettleRates(a, previous, now, rates, intervals, marks).value, a.positions[s];
      var charge := RateCharge(SignedQty(Some(p)), marks[s], rates[s], previous, now, intervals[s]);
      && s in b.positions && b.clock == Some(now)
      && b.positions[s] == p.(accruedFunding := p.accruedFunding + charge)
  {
    hide SettleRates, RateCredit, SignedQty, RateCharge, Total;
    CreditedAtRates(a, previous, now, rates, intervals, marks, s);
    RateCreditIsCharge(a.positions[s], previous, now, rates[s], intervals[s], marks[s]);
  }

  lemma CreditedAtRates(a: Account, previous: int, now: int, rates: map<string, real>, intervals: map<string, int>,
                        marks: map<string, real>, s: string)
    requires s in a.positions && SettleRates(a, previous, now, rates, intervals, marks).Some?
    ensures s in rates && s in intervals && s in marks && IsInterval(intervals[s]) && previous <= now
    ensures var b, p := SettleRates(a, previous, now, rates, intervals, marks).value, a.positions[s];
      && s in b.positions && b.clock == Some(now)
      && b.positions[s] == p.(accruedFunding := p.accruedFunding
           + Total(RateCredit(p, previous, now, rates[s], intervals[s], marks[s])))
  {
    hide RateCredit, Sum, Total, Gains, Losses;
  }

  lemma RateCreditIsCharge(p: Position, previous: int, now: int, rate: real, interval: int, mark: real)
    requires IsInterval(interval) && previous <= now
    ensures Total(RateCredit(p, previous, now, rate, interval, mark))
         == RateCharge(SignedQty(Some(p)), mark, rate, previous, now, interval)
  {
    CountInClosedForm(previous, now, interval);
    OneCredit(p, FundingEvent(now, rate, mark));
    var amount, n := RealizedFunding(mark, p.qty, rate, p.direction), |Boundaries(previous, now, interval)|;
    hide Boundaries, RealizedFunding, SignedQty;
    assert Scale(amount, 0.0) == 0.0;
    assert RateCredit(p, previous, now, rate, interval, mark) == if n == 0 then [] else [Scale(amount, n as real)];
  }
}
