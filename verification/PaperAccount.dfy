/** The PAPER account as the mutable object it is: every method is proved to take the account from one
    value of Ledger.dfy to the next. */
module PaperAccounts {
  import opened Results
  import opened Sums
  import opened LegLifecycle
  import opened LegLaws
  import opened FundingSchedule
  import opened Ledger
  import opened LedgerLaws
  import opened BookLaws

  datatype FillResult = Applied | Raised(reason: string)

  /** `b` is what a reconciliation of `a` that raised at symbol `s`, after completing `order`, leaves. */
  ghost predicate StoppedAt(a: Account, order: seq<string>, reqs: Requests, s: string, b: Account)
    requires Sound(a)
    requires forall t :: t in order ==> t in reqs
  {
    && s in reqs && s !in order
    && LegStep(s, Held(a, s), reqs[s]).Err?
    && RunAll(a, order, reqs).Ok?
    && b == Interrupted(RunAll(a, order, reqs).value, s, reqs[s])
  }

  class PaperAccount {
    var cash: real
    var positions: map<string, Position>
    var realizedPnl: real
    var lastFundingTs: Option<int>
    var fundingIntervalsObserved: map<string, int>
    var feesPaid: real
    var slippagePaid: real
    var fundingReceived: real
    var fundingPaid: real
    var closedLegs: seq<ClosedLeg>

    function State(): Account
      reads this
    {
      Account(cash, positions, realizedPnl, lastFundingTs, fundingIntervalsObserved, feesPaid, slippagePaid,
              fundingReceived, fundingPaid, closedLegs)
    }

    constructor (cash: real)
      ensures State() == Fresh(cash)
    {
      this.cash := cash;
      positions, realizedPnl, lastFundingTs, fundingIntervalsObserved := map[], 0.0, None, map[];
      feesPaid, slippagePaid, fundingReceived, fundingPaid, closedLegs := 0.0, 0.0, 0.0, 0.0, [];
    }

    /** The staging copy a reconciliation works on. */
    constructor CopyOf(account: PaperAccount)
      ensures State() == account.State()
    {
      cash, positions, realizedPnl := account.cash, account.positions, account.realizedPnl;
      lastFundingTs, fundingIntervalsObserved := account.lastFundingTs, account.fundingIntervalsObserved;
      feesPaid, slippagePaid := account.feesPaid, account.slippagePaid;
      fundingReceived, fundingPaid := account.fundingReceived, account.fundingPaid;
      closedLegs := account.closedLegs;
    }

    /** Copy every field back from the staged generation. */
    method Publish(working: PaperAccount)
      modifies this
      ensures State() == old(working.State())
    {
      cash, positions, realizedPnl := working.cash, working.positions, working.realizedPnl;
      lastFundingTs, fundingIntervalsObserved := working.lastFundingTs, working.fundingIntervalsObserved;
      feesPaid, slippagePaid := working.feesPaid, working.slippagePaid;
      fundingReceived, fundingPaid := working.fundingReceived, working.fundingPaid;
      closedLegs := working.closedLegs;
    }

    method DrainClosedLegs() returns (drained: seq<ClosedLeg>)
      modifies this
      ensures drained == old(closedLegs)
      ensures State() == Drained(old(State()))
    {
      drained := closedLegs;
      closedLegs := [];
    }

    /** Cash plus the unrealized P&L of every marked position. */
    method MarkedEquity(marks: map<string, real>) returns (equity: real)
      ensures equity == Equity(State(), marks)
    {
      hide Unrealized, Sum;
      ghost var values := UnrealizedBySymbol(State(), marks);
      equity := cash;
      var todo := positions.Keys;
      ghost var left := values;
      while todo != {}
        invariant todo <= positions.Keys
        invariant left == map s | s in values && s in todo :: values[s]
        invariant equity == cash + Sum(values) - Sum(left)
        decreases todo
      {
        var s :| s in todo;
        todo := todo - {s};
        if s in marks {
          SumRemove(left, s);
          equity := equity + Unrealized(positions[s], marks[s]);
        } else {
          assert left - {s} == left;
        }
        left := left - {s};
        assert left == map t | t in values && t in todo :: values[t];
      }
      assert left == map[] && Sum(left) == 0.0 by {
        EmptySum();
      }
    }

    // ----- Reconciling one symbol -----

    method ChargeFrictions(sym: string, fee: real, slip: real, onLeg: bool)
      requires onLeg ==> sym in positions
      modifies this
      ensures State() == old(State()).(cash := old(cash) - (fee + slip),
        feesPaid := old(feesPaid) + fee, slippagePaid := old(slippagePaid) + slip,
        positions := if onLeg then
          var p := old(positions)[sym];
          old(positions)[sym := p.(accruedFees := p.accruedFees + fee, accruedSlippage := p.accruedSlippage + slip)]
          else old(positions))
    {
      cash := cash - (fee + slip);
      feesPaid := feesPaid + fee;
      slippagePaid := slippagePaid + slip;
      if onLeg {
        var p := positions[sym];
        positions := positions[sym := p.(accruedFees := p.accruedFees + fee,
                                         accruedSlippage := p.accruedSlippage + slip)];
      }
    }

    /** Close and reopen attribution at one mark: no trade, no friction, equity unchanged. */
    method RollSeatLifecycle(sym: string, mark: real, opening: Opening, role: SeatRole, thesis: Option<Thesis>)
      requires sym in positions
      modifies this
      ensures State() == Absorb(old(State()), sym, Roll(old(positions)[sym], mark, opening, role, thesis))
      ensures forall marks: map<string, real> | sym in marks :: Equity(State(), marks) == Equity(old(State()), marks)
    {
      ghost var before := State();
      hide Unrealized, Equity;
      var position := positions[sym];
      var realized := Unrealized(position, mark);
      realizedPnl := realizedPnl + realized;
      position := position.(realizedPnl := position.realizedPnl + realized);
      cash := cash + realized;
      closedLegs := closedLegs + [Snapshot(position)];
      position := position.(entryPrice := mark, opening := opening, seatRole := role);
      position := position.(accruedFunding := 0.0, accruedFees := 0.0, accruedSlippage := 0.0, realizedPnl := 0.0);
      position := position.(thesis := Rethought(position.thesis, thesis));
      positions := positions[sym := position];
      RolledKeepsEquity(before, sym, mark, opening, role, thesis);
    }

    /** Drive the held quantity towards `target`: reduce, close, or flip. */
    method ReconcileOpposite(sym: string, direction: Direction, target: real, mark: real, bill: Bill,
                             opening: Opening, role: SeatRole, thesis: Option<Thesis>)
      requires sym in positions && positions[sym].symbol == sym
      modifies this
      ensures State() == Absorb(old(State()), sym,
        Opposite(old(positions)[sym], direction, target, mark, bill,
                 OldBill(old(positions)[sym], target, bill), opening, role, thesis))
    {
      hide Closing, Absorb, Unrealized, ClosedQty, OldShare;
      var existing := positions[sym];
      var closedQty := ClosedQty(existing, target);
      var own := OldBill(existing, target, bill);
      var realized := Unrealized(existing.(qty := closedQty), mark);
      CloseSide(sym, direction, target, mark, closedQty, realized, bill, own, opening, role, thesis);
    }

    method CloseSide(sym: string, direction: Direction, target: real, mark: real, closedQty: real, realized: real,
                     bill: Bill, own: Bill, opening: Opening, role: SeatRole, thesis: Option<Thesis>)
      requires sym in positions && positions[sym].symbol == sym
      modifies this
      ensures State() == Absorb(old(State()), sym,
        Closing(old(positions)[sym], direction, target, mark, closedQty, realized, bill, own, opening, role, thesis))
    {
      var newFee, newSlip := bill.fee - own.fee, bill.slip - own.slip;
      ChargeFrictions(sym, own.fee, own.slip, true);
      realizedPnl := realizedPnl + realized;
      var existing := positions[sym].(realizedPnl := positions[sym].realizedPnl + realized);
      cash := cash + realized;

      var residualHeld := existing.qty - closedQty;
      if residualHeld > DUST {
        existing := existing.(qty := residualHeld, seatRole := role, thesis := Rethought(existing.thesis, thesis));
        positions := positions[sym := existing];
        assert closedLegs == old(closedLegs) + [];
        return;
      }
      CloseOut(sym, existing, direction, target, mark, newFee, newSlip, opening, role, thesis);
    }

    /** Journal the finished leg, pop it, and on a flip open the other side; its share of the frictions
        bills the new leg, or the account alone when nothing is left to carry it. */
    method CloseOut(sym: string, existing: Position, direction: Direction, target: real, mark: real,
                    newFee: real, newSlip: real, opening: Opening, role: SeatRole, thesis: Option<Thesis>)
      modifies this
      ensures State() == old(State()).(cash := old(cash) - (newFee + newSlip),
        feesPaid := old(feesPaid) + newFee, slippagePaid := old(slippagePaid) + newSlip,
        closedLegs := old(closedLegs) + [Snapshot(existing)],
        positions := if Abs(target) > DUST then
          old(positions)[sym := Position(sym, direction, Abs(target), mark, opening, role,
                                         Rethought(NO_THESIS, thesis), 0.0, newFee, newSlip, 0.0)]
          else old(positions) - {sym})
    {
      closedLegs := closedLegs + [Snapshot(existing)];
      positions := positions - {sym};
      if Abs(target) > DUST {
        var entrant := Position(sym, direction, Abs(target), mark, opening, role, NO_THESIS, 0.0, 0.0, 0.0, 0.0);
        positions := positions[sym := entrant.(thesis := Rethought(NO_THESIS, thesis))];
        ChargeFrictions(sym, newFee, newSlip, true);
        assert positions == old(positions)[sym := positions[sym]];
      } else if newFee != 0.0 || newSlip != 0.0 {
        ChargeFrictions(sym, newFee, newSlip, false);
      }
    }

    /** The body of the reconcile loop for one symbol. */
    method ReconcileSymbol(sym: string, r: Request) returns (result: FillResult)
      requires Sound(State())
      modifies this
      ensures Sound(State())
      ensures result.Applied? <==> LegStep(sym, Held(old(State()), sym), r).Ok?
      ensures result.Applied? ==> StepOne(old(State()), sym, r) == Ok(State())
      ensures result.Raised? ==> State() == Interrupted(old(State()), sym, r)
    {
      ghost var before := State();
      LegStepShape(sym, Held(before, sym), r);
      if r.mark.None? || r.mark.value <= 0.0 {
        if sym in positions || Abs(r.net) > NET_CUTOFF {
          return Raised("no finite positive mark");
        }
        assert before == Absorb(before, sym, Unchanged(None)) by {
          assert positions - {sym} == positions;
          assert closedLegs + [] == closedLegs;
        }
        return Applied;
      }
      var plan := PlanFor(Held(State(), sym), r);
      if plan.rolled {
        RollSeatLifecycle(sym, plan.mark, r.opening, plan.role, plan.thesis);
        RollWellFormed(sym, before.positions[sym], plan.mark, r.opening, plan.role, plan.thesis);
      }
      ghost var mid := State();
      result := Trade(sym, plan, r);
      if result.Applied? && plan.rolled {
        AbsorbThen(before, sym, Roll(before.positions[sym], plan.mark, r.opening, plan.role, plan.thesis),
                   Traded(sym, Held(mid, sym), plan, r).value);
      }
    }

    method Trade(sym: string, plan: Plan, r: Request) returns (result: FillResult)
      requires Sound(State()) && plan.mark > 0.0
      requires sym in positions || !plan.rolledAfter
      modifies this
      ensures Sound(State())
      ensures result.Applied? <==> Traded(sym, Held(old(State()), sym), plan, r).Ok?
      ensures result.Applied? ==>
        State() == Absorb(old(State()), sym, Traded(sym, Held(old(State()), sym), plan, r).value)
      ensures result.Raised? ==> State() == old(State())
    {
      ghost var before := State();
      var held := Held(State(), sym);
      var current := SignedQty(held);
      var delta := plan.target - current;
      if Near(plan.target, current) {
        if held.Some? {
          positions := positions[sym := held.value.(seatRole := plan.role,
                                                    thesis := Rethought(held.value.thesis, plan.thesis))];
        }
        assert positions - {sym} == positions || held.Some?;
        assert closedLegs + [] == closedLegs;
        return Applied;
      }
      var frictions := Frictions(r, delta, plan.mark);
      if frictions.Err? {
        return Raised(frictions.reason);
      }
      var bill := frictions.value;
      TradedStaysWellFormed(sym, held, plan, r);
      hide Frictions, Opposite, Roll, Increase, Absorb;
      if held.Some? && MovesAway(current, plan.target) {
        ReconcileOpposite(sym, plan.direction, plan.target, plan.mark, bill, r.opening,
                          if plan.rolledAfter then held.value.seatRole else plan.role,
                          if plan.rolledAfter then None else plan.thesis);
        if plan.rolledAfter && sym in positions {
          ghost var first := Opposite(held.value, plan.direction, plan.target, plan.mark, bill,
                                      OldBill(held.value, plan.target, bill), r.opening, held.value.seatRole, None);
          RollSeatLifecycle(sym, plan.mark, r.opening, plan.role, plan.thesis);
          AbsorbThen(before, sym, first, Roll(first.held.value, plan.mark, r.opening, plan.role, plan.thesis));
        }
        return Applied;
      }
      Grow(sym, plan.direction, Abs(delta), plan.mark, bill, r.opening, plan.role, plan.thesis);
      return Applied;
    }

    /** Same-side open or increase at the mark. */
    method Grow(sym: string, direction: Direction, fill: real, mark: real, bill: Bill,
                opening: Opening, role: SeatRole, thesis: Option<Thesis>)
      requires Sound(State()) && fill > 0.0
      modifies this
      ensures State() == Absorb(old(State()), sym,
        Increase(sym, Held(old(State()), sym), direction, fill, mark, bill, opening, role, thesis))
    {
      hide BlendedEntry;
      ghost var held := Held(State(), sym);
      if sym !in positions {
        ChargeFrictions(sym, bill.fee, bill.slip, false);
        FreshEntry(fill, mark);
        var entrant := Position(sym, direction, fill, mark, opening, role, NO_THESIS, 0.0, bill.fee, bill.slip, 0.0);
        positions := positions[sym := entrant.(thesis := Rethought(NO_THESIS, thesis))];
      } else {
        ChargeFrictions(sym, bill.fee, bill.slip, true);
        var existing := positions[sym].(seatRole := role);
        var entry := BlendedEntry(Some(existing), fill, mark);
        SameBlend(held.value, existing, fill, mark);
        existing := existing.(entryPrice := entry, qty := existing.qty + fill);
        positions := positions[sym := existing.(thesis := Rethought(existing.thesis, thesis))];
      }
      assert closedLegs + [] == closedLegs;
    }

    // ----- Reconciling the whole book -----

    /** Net the executed legs by symbol, keeping first-seen order. */
    static method ConsolidateLegs(legs: seq<FillLeg>) returns (c: Consolidated)
      ensures c == Consolidate(legs)
    {
      var net: map<string, real> := map[];
      var roles: map<string, SeatRole> := map[];
      var theses: map<string, Thesis> := map[];
      var order: seq<string> := [];
      for i := 0 to |legs|
        invariant Consolidated(net, roles, theses, order) == Consolidate(legs[..i])
      {
        var leg := legs[i];
        var s := leg.symbol;
        if s !in net {
          order := order + [s];
        }
        net := net[s := (if s in net then net[s] else 0.0) + SignedNotional(leg)];
        if leg.role.Alpha? || s !in roles {
          roles := roles[s := leg.role];
          if leg.thesis.Some? {
            theses := theses[s := leg.thesis.value];
          }
        }
        assert legs[..i + 1][..i] == legs[..i];
      }
      assert legs[..|legs|] == legs;
      c := Consolidated(net, roles, theses, order);
    }

    /** The checks that precede every mutation. */
    method CheckExecution(net: map<string, real>, c: Consolidated, x: Execution) returns (ok: bool)
      ensures ok <==> Admissible(State(), net, c, x)
    {
      if x.targets.None? {
        return true;
      }
      if x.targets.value.Keys != net.Keys {
        return false;
      }
      var todo := net.Keys;
      while todo != {}
        invariant todo <= net.Keys
        invariant forall s :: s in net && s !in todo ==> ProvenComplete(State(), net, c, x, s)
        decreases todo
      {
        var s :| s in todo;
        todo := todo - {s};
        if s in positions && s in x.marks && x.marks[s] > 0.0 {
          if ChangesLifecycle(positions[s], net[s], x.marks[s], Lookup(c.roles, s))
             && !(s in x.completed && x.completed[s]) {
            assert !ProvenComplete(State(), net, c, x, s);
            return false;
          }
        }
      }
      return true;
    }

    /** Reconcile the whole held book to the intended book.  `order` is the sequence in which symbols
        were completed. */
    method ApplyFills(legs: seq<FillLeg>, x: Execution) returns (result: FillResult, order: seq<string>)
      requires Sound(State())
      modifies this
      ensures Sound(State())
      ensures var c := Consolidate(legs);
        var net := WithDropped(c, old(positions));
        var reqs := RequestsFor(net, c, x);
        && Distinct(order)
        && (forall s :: s in order ==> s in net)
        && (result.Applied? ==>
              Admissible(old(State()), net, c, x)
              && Enumerates(order, net)
              && RunAll(old(State()), order, reqs) == Ok(State()))
        && (result.Raised? ==>
              if Admissible(old(State()), net, c, x) then
                RunAll(old(State()), order, reqs).Ok?
                && (exists s :: StoppedAt(old(State()), order, reqs, s, State()))
              else order == [] && State() == old(State()))
    {
      order := [];
      var c := ConsolidateLegs(legs);
      var net := WithDropped(c, positions);
      ghost var before := State();
      ghost var reqs := RequestsFor(net, c, x);
      var admissible := CheckExecution(net, c, x);
      if !admissible {
        return Raised("execution targets are not admissible"), [];
      }
      OrderEnumerates(legs);
      var todo := net.Keys;
      while todo != {}
        invariant Sound(State())
        invariant Distinct(order)
        invariant todo <= net.Keys
        invariant forall s :: s in order <==> s in net && s !in todo
        invariant RunAll(before, order, reqs) == Ok(State())
        decreases todo
      {
        var s := NextSymbol(c.order, |order|, todo);
        todo := todo - {s};
        ghost var mid := State();
        RunHolds(before, order, reqs);
        var step := ReconcileSymbol(s, RequestFor(net, c, x, s));
        assert Held(mid, s) == Held(before, s);
        if step.Raised? {
          assert StoppedAt(before, order, reqs, s, State());
          return step, order;
        }
        assert (order + [s])[..|order|] == order;
        order := order + [s];
      }
      return Applied, order;
    }

    /** Intended symbols come first, in first-seen order; dropped symbols follow. */
    static method NextSymbol(seen: seq<string>, k: nat, todo: set<string>) returns (s: string)
      requires todo != {}
      ensures s in todo
      ensures k < |seen| && seen[k] in todo ==> s == seen[k]
    {
      if k < |seen| && seen[k] in todo {
        s := seen[k];
      } else {
        s :| s in todo;
      }
    }

    // ----- Settling funding -----

    /** Post one leg's staged amounts. */
    method PostLeg(sym: string, amounts: seq<real>)
      requires sym in positions
      modifies this
      ensures State() == LegPosted(old(State()), sym, amounts)
    {
      ghost var before := State();
      assert positions[sym := positions[sym].(accruedFunding := positions[sym].accruedFunding + 0.0)] == positions;
      for i := 0 to |amounts|
        invariant State() == LegPosted(before, sym, amounts[..i])
      {
        var settled := amounts[i];
        assert amounts[..i + 1][..i] == amounts[..i];
        var p := positions[sym];
        positions := positions[sym := p.(accruedFunding := p.accruedFunding + settled)];
        cash := cash + settled;
        if settled >= 0.0 {
          fundingReceived := fundingReceived + settled;
        } else {
          fundingPaid := fundingPaid + -settled;
        }
      }
      assert amounts[..|amounts|] == amounts;
    }

    /** The cash the staged amounts would leave. */
    method StagedCash(credits: Credits) returns (newCash: real)
      requires credits.Keys == positions.Keys
      ensures newCash == Posted(State(), credits, credits.Keys).cash
    {
      hide Posted, Total, Gains, Losses, Sum, Credited, TotalBySymbol, GainsBySymbol, LossesBySymbol;
      newCash := cash;
      var todo := credits.Keys;
      ghost var done: set<string> := {};
      PostedNone(State(), credits);
      while todo != {}
        invariant todo <= credits.Keys && done == credits.Keys - todo
        invariant newCash == Posted(State(), credits, done).cash
        decreases todo
      {
        var s :| s in todo;
        todo := todo - {s};
        PostedOne(State(), credits, done, s);
        done := done + {s};
        newCash := newCash + Total(credits[s]);
      }
      assert done == credits.Keys;
    }

    /** Validate the resulting cash, then post every staged amount. */
    method PostAll(credits: Credits) returns (ok: bool)
      requires credits.Keys == positions.Keys
      modifies this
      ensures ok <==> Posted(old(State()), credits, credits.Keys).cash >= 0.0
      ensures State() == if ok then Posted(old(State()), credits, credits.Keys) else old(State())
    {
      hide Total, Gains, Losses, Sum, TotalBySymbol, GainsBySymbol, LossesBySymbol;
      ghost var before := State();
      var newCash := StagedCash(credits);
      if newCash < 0.0 {
        return false;
      }
      var todo := credits.Keys;
      ghost var done: set<string> := {};
      PostedNone(before, credits);
      hide Posted;
      while todo != {}
        invariant todo <= credits.Keys && done == credits.Keys - todo
        invariant positions.Keys == credits.Keys
        invariant State() == Posted(before, credits, done)
        decreases todo
      {
        var s :| s in todo;
        todo := todo - {s};
        PostedOne(before, credits, done, s);
        done := done + {s};
        PostLeg(s, credits[s]);
      }
      assert done == credits.Keys;
      return true;
    }

    /** The amounts of one symbol's events; a repeated instant, one outside the window or a bad mark is
        refused. */
    method StageSymbol(p: Position, events: seq<FundingEvent>, previous: int, end: int) returns (r: Result<seq<real>>)
      ensures r.Ok? <==> EventsAdmissible(events, previous, end)
      ensures r.Ok? ==> r.value == EventCredits(p, events)
    {
      hide RealizedFunding;
      var staged: seq<real> := [];
      var seen: set<int> := {};
      for i := 0 to |events|
        invariant staged == EventCredits(p, events[..i])
        invariant forall t :: t in seen <==> exists k :: 0 <= k < i && events[k].ts == t
        invariant EventsAdmissible(events[..i], previous, end)
      {
        var e := events[i];
        if e.ts in seen {
          return Err("duplicate funding event");
        }
        seen := seen + {e.ts};
        if !(previous < e.ts <= end) {
          return Err("funding event outside the settlement window");
        }
        if e.mark <= 0.0 {
          return Err("invalid historical funding mark");
        }
        staged := staged + [RealizedFunding(e.mark, p.qty, e.rate, p.direction)];
        assert events[..i + 1] == events[..i] + [e];
      }
      assert events[..|events|] == events;
      return Ok(staged);
    }

    /** The amounts of every held symbol. */
    method StageHeldEvents(held: map<string, Position>, events: map<string, seq<FundingEvent>>, previous: int, end: int)
      returns (r: Result<Credits>)
      requires held.Keys <= events.Keys
      ensures r.Ok? <==> forall s | s in held :: EventsAdmissible(events[s], previous, end)
      ensures r.Ok? ==> r.value == map s | s in held :: EventCredits(held[s], events[s])
    {
      hide EventsAdmissible, EventCredits;
      var credits: Credits := map[];
      var todo := held.Keys;
      while todo != {}
        invariant todo <= held.Keys && credits.Keys == held.Keys - todo
        invariant forall s | s in credits :: EventsAdmissible(events[s], previous, end)
        invariant forall s | s in credits :: credits[s] == EventCredits(held[s], events[s])
        decreases todo
      {
        var s :| s in todo;
        todo := todo - {s};
        var staged := StageSymbol(held[s], events[s], previous, end);
        if staged.Err? {
          return Err(staged.reason);
        }
        credits := credits[s := staged.value];
      }
      return Ok(credits);
    }

    /** The checks of an exact settlement that look at no event. */
    method EventsRefused(symbols: set<string>, now: int, observed: map<string, int>) returns (refused: Option<string>)
      ensures refused.None? <==>
        && (positions.Keys != {} ==> lastFundingTs.Some?) && (lastFundingTs.Some? ==> lastFundingTs.value <= now)
        && positions.Keys <= symbols && positions.Keys <= observed.Keys
        && forall s | s in positions.Keys :: IsInterval(observed[s])
    {
      hide IsInterval;
      var held := positions.Keys;
      if held != {} && lastFundingTs.None? {
        return Some("held account has no funding clock");
      }
      if lastFundingTs.Some? && now < lastFundingTs.value {
        return Some("funding settlement timestamp precedes the account funding clock");
      }
      if !(held <= symbols) {
        return Some("funding events missing held symbols");
      }
      if !(held <= observed.Keys) {
        return Some("observed funding intervals missing held symbols");
      }
      if exists s | s in held :: !IsInterval(observed[s]) {
        return Some("invalid observed funding intervals");
      }
      return None;
    }

    /** Every check of an exact settlement, and the amounts it would post. */
    method StageEvents(events: map<string, seq<FundingEvent>>, now: int, observed: map<string, int>)
      returns (r: Result<Credits>)
      ensures r.Ok? <==> SettlementAdmissible(State(), events, now, observed)
      ensures r.Ok? ==> r.value == AllEventCredits(State(), events)
    {
      hide EventsAdmissible, EventCredits, IsInterval;
      var refused := EventsRefused(events.Keys, now, observed);
      if refused.Some? {
        return Err(refused.value);
      }
      r := StageHeldEvents(positions, events, if lastFundingTs.Some? then lastFundingTs.value else now, now);
    }

    /** Settle exact historical events, then advance the funding clock. */
    method SettleFundingEvents(events: map<string, seq<FundingEvent>>, now: int, observed: map<string, int>)
      returns (result: FillResult)
      modifies this
      ensures result.Applied? <==> SettleEvents(old(State()), events, now, observed).Some?
      ensures State() == if result.Applied? then SettleEvents(old(State()), events, now, observed).value
          else old(State())
    {
      hide Sum, Total, EventsAdmissible, EventCredits, IsInterval;
      var credits := StageEvents(events, now, observed);
      if credits.Err? {
        return Raised(credits.reason);
      }
      var ok := PostAll(credits.value);
      if !ok {
        return Raised("funding settlement would make PAPER cash invalid");
      }
      lastFundingTs := Some(now);
      fundingIntervalsObserved := map s | s in positions :: observed[s];
      return Applied;
    }

    /** Settle one observed rate per held symbol over every boundary crossed, then advance the clock. */
    method SettleFunding(previous: int, now: int, rates: map<string, real>, intervals: map<string, int>,
                         marks: map<string, real>) returns (result: FillResult)
      modifies this
      ensures result.Applied? <==> SettleRates(old(State()), previous, now, rates, intervals, marks).Some?
      ensures State() == if result.Applied? then SettleRates(old(State()), previous, now, rates, intervals, marks).value
                         else old(State())
    {
      var credits := StageRates(previous, now, rates, intervals, marks);
      if credits.Err? {
        return Raised(credits.reason);
      }
      hide RateCredits;
      var ok := PostAll(credits.value);
      if !ok {
        return Raised("funding settlement would make PAPER cash invalid");
      }
      lastFundingTs := Some(now);
      return Applied;
    }

    /** One symbol's aggregate amount, or none if no boundary was crossed. */
    method StageRate(p: Position, previous: int, now: int, rate: real, interval: int, mark: real)
      returns (r: Result<seq<real>>)
      ensures r.Ok? <==> IsInterval(interval) && mark > 0.0
      ensures r.Ok? ==> r.value == RateCredit(p, previous, now, rate, interval, mark)
    {
      hide Boundaries, RealizedFunding, Scale;
      if mark <= 0.0 || !IsInterval(interval) {
        return Err("invalid funding rate, mark or interval");
      }
      var n := CountFundingEvents(previous, now, interval);
      return Ok(if n == 0 then [] else [Scale(RealizedFunding(mark, p.qty, rate, p.direction), n as real)]);
    }

    /** The amounts of every held symbol. */
    method StageHeld(held: map<string, Position>, previous: int, now: int, rates: map<string, real>,
                     intervals: map<string, int>, marks: map<string, real>) returns (r: Result<Credits>)
      requires held.Keys <= rates.Keys && held.Keys <= intervals.Keys && held.Keys <= marks.Keys
      ensures r.Ok? <==> forall s | s in held :: IsInterval(intervals[s]) && marks[s] > 0.0
      ensures r.Ok? ==>
        r.value == map s | s in held :: RateCredit(held[s], previous, now, rates[s], intervals[s], marks[s])
    {
      hide RateCredit, IsInterval;
      var credits: Credits := map[];
      var todo := held.Keys;
      while todo != {}
        invariant todo <= held.Keys && credits.Keys == held.Keys - todo
        invariant forall s | s in credits :: IsInterval(intervals[s]) && marks[s] > 0.0
        invariant forall s | s in credits ::
          credits[s] == RateCredit(held[s], previous, now, rates[s], intervals[s], marks[s])
        decreases todo
      {
        var s :| s in todo;
        todo := todo - {s};
        var staged := StageRate(held[s], previous, now, rates[s], intervals[s], marks[s]);
        if staged.Err? {
          return Err(staged.reason);
        }
        credits := credits[s := staged.value];
      }
      return Ok(credits);
    }

    /** The checks of a settlement at observed rates that look at no value. */
    method RatesRefused(previous: int, now: int, rates: map<string, real>, intervals: map<string, int>,
                        marks: map<string, real>) returns (refused: Option<string>)
      ensures refused.None? <==>
        && (positions.Keys != {} ==> lastFundingTs.Some?) && previous <= now
        && (lastFundingTs.Some? ==> lastFundingTs.value == previous)
        && positions.Keys <= rates.Keys && positions.Keys <= intervals.Keys && positions.Keys <= marks.Keys
    {
      var held := positions.Keys;
      if held != {} && lastFundingTs.None? {
        return Some("held account has no funding clock");
      }
      if now < previous {
        return Some("funding settlement timestamp precedes previous timestamp");
      }
      if lastFundingTs.Some? && previous != lastFundingTs.value {
        return Some("funding settlement start does not equal the account clock");
      }
      if !(held <= rates.Keys) {
        return Some("funding rates missing held symbols");
      }
      if !(held <= intervals.Keys) {
        return Some("funding intervals missing held symbols");
      }
      if !(held <= marks.Keys) {
        return Some("funding marks missing held symbols");
      }
      return None;
    }

    /** Every check of a settlement at observed rates, and the amounts it would post. */
    method StageRates(previous: int, now: int, rates: map<string, real>, intervals: map<string, int>,
                      marks: map<string, real>) returns (r: Result<Credits>)
      ensures r.Ok? <==> RatesAdmissible(State(), previous, now, rates, intervals, marks)
      ensures r.Ok? ==> r.value == RateCredits(State(), previous, now, rates, intervals, marks)
    {
      hide RateCredit, IsInterval;
      var refused := RatesRefused(previous, now, rates, intervals, marks);
      if refused.Some? {
        return Err(refused.value);
      }
      r := StageHeld(positions, previous, now, rates, intervals, marks);
    }
  }

  lemma PostedNone(a: Account, credits: Credits)
    ensures Posted(a, credits, {}) == a
  {
    EmptySum();
    assert TotalBySymbol(credits, {}) == map[] && GainsBySymbol(credits, {}) == map[]
        && LossesBySymbol(credits, {}) == map[];
    assert Credited(a.positions, credits, {}) == a.positions;
  }

  /** What posting one leg's amounts makes of an account. */
  function LegPosted(b: Account, s: string, amounts: seq<real>): Account
    requires s in b.positions
  {
    var p := b.positions[s];
    b.(cash := b.cash + Total(amounts), fundingReceived := b.fundingReceived + Gains(amounts),
       fundingPaid := b.fundingPaid + Losses(amounts),
       positions := b.positions[s := p.(accruedFunding := p.accruedFunding + Total(amounts))])
  }

  /** Posting one more leg. */
  lemma PostedOne(a: Account, credits: Credits, done: set<string>, s: string)
    requires done <= credits.Keys && s in credits && s !in done && s in a.positions
    ensures s in Posted(a, credits, done).positions
    ensures Posted(a, credits, done + {s}) == LegPosted(Posted(a, credits, done), s, credits[s])
    ensures Posted(a, credits, done + {s}).positions.Keys == a.positions.Keys
  {
    hide Total, Gains, Losses, Sum, Credited, TotalBySymbol, GainsBySymbol, LossesBySymbol;
    SumsGrow(credits, done, s);
    CreditedOne(a.positions, credits, done, s);
  }

  lemma SumsGrow(credits: Credits, done: set<string>, s: string)
    requires done <= credits.Keys && s in credits && s !in done
    ensures Sum(TotalBySymbol(credits, done + {s})) == Sum(TotalBySymbol(credits, done)) + Total(credits[s])
    ensures Sum(GainsBySymbol(credits, done + {s})) == Sum(GainsBySymbol(credits, done)) + Gains(credits[s])
    ensures Sum(LossesBySymbol(credits, done + {s})) == Sum(LossesBySymbol(credits, done)) + Losses(credits[s])
  {
    hide Total, Gains, Losses, Sum;
    AddKey(TotalBySymbol(credits, done), TotalBySymbol(credits, done + {s}), s);
    AddKey(GainsBySymbol(credits, done), GainsBySymbol(credits, done + {s}), s);
    AddKey(LossesBySymbol(credits, done), LossesBySymbol(credits, done + {s}), s);
  }

  lemma CreditedOne(ps: map<string, Position>, credits: Credits, done: set<string>, s: string)
    requires done <= credits.Keys && s in credits && s !in done && s in ps
    ensures var b := Credited(ps, credits, done);
      && s in b && b.Keys == ps.Keys
      && Credited(ps, credits, done + {s}) == b[s := b[s].(accruedFunding := b[s].accruedFunding + Total(credits[s]))]
  {
    hide Total;
  }

  lemma AddKey(m: map<string, real>, n: map<string, real>, s: string)
    requires s in n && s !in m && n - {s} == m
    ensures Sum(n) == Sum(m) + n[s]
  {
    SumRemove(n, s);
  }

  /** At any marks that price the leg, a role transfer leaves the equity as it was. */
  lemma RolledKeepsEquity(a: Account, s: string, mark: real, opening: Opening, role: SeatRole,
                          thesis: Option<Thesis>)
    requires s in a.positions
    ensures forall marks: map<string, real> | s in marks ::
      Equity(Absorb(a, s, Roll(a.positions[s], mark, opening, role, thesis)), marks) == Equity(a, marks)
  {
    forall marks: map<string, real> | s in marks
      ensures Equity(Absorb(a, s, Roll(a.positions[s], mark, opening, role, thesis)), marks) == Equity(a, marks)
    {
      hide Unrealized, Sum;
      var o := Roll(a.positions[s], mark, opening, role, thesis);
      var values := UnrealizedBySymbol(a, marks);
      RollConserves(a.positions[s], mark, opening, role, thesis, marks[s]);
      SumUpdate(values, s, Unrealized(o.held.value, marks[s]));
      assert UnrealizedBySymbol(Absorb(a, s, o), marks) == values[s := Unrealized(o.held.value, marks[s])];
    }
  }

  /** First-seen order lists each consolidated symbol once. */
  lemma {:induction false} OrderEnumerates(legs: seq<FillLeg>)
    ensures Enumerates(Consolidate(legs).order, Consolidate(legs).net)
  {
    if legs == [] {
    } else {
      OrderEnumerates(legs[..|legs| - 1]);
    }
  }

  lemma EmptySum()
    ensures Sum(map[]) == 0.0
  {
  }

  lemma FreshEntry(fill: real, mark: real)
    requires fill > 0.0
    ensures BlendedEntry(None, fill, mark) == mark
  {
  }

  lemma SameBlend(p: Position, q: Position, fill: real, mark: real)
    requires fill > 0.0 && p.qty > 0.0 && q.qty == p.qty && q.entryPrice == p.entryPrice
    ensures BlendedEntry(Some(p), fill, mark) == BlendedEntry(Some(q), fill, mark)
  {
  }

  lemma AbsorbThen(a: Account, s: string, x: LegOutcome, y: LegOutcome)
    ensures Absorb(Absorb(a, s, x), s, y) == Absorb(a, s, Then(x, y))
  {
    assert a.closedLegs + x.closed + y.closed == a.closedLegs + (x.closed + y.closed);
    var b, c := Absorb(Absorb(a, s, x), s, y), Absorb(a, s, Then(x, y));
    assert b.positions == c.positions;
  }

  lemma LegStepShape(s: string, held: Option<Position>, r: Request)
    requires WellFormed(s, held)
    ensures r.mark.Some? && r.mark.value > 0.0 ==> (
      var p := PlanFor(held, r);
      var before := if p.rolled then Roll(held.value, p.mark, r.opening, p.role, p.thesis).held else held;
      && WellFormed(s, before)
      && (LegStep(s, held, r).Ok? <==> Traded(s, before, p, r).Ok?)
      && (LegStep(s, held, r).Ok? ==>
            LegStep(s, held, r).value ==
              (if p.rolled then
                 Then(Roll(held.value, p.mark, r.opening, p.role, p.thesis), Traded(s, before, p, r).value)
               else Traded(s, before, p, r).value)))
  {
    hide Traded;
  }
}
