/** The order in which legs arrive, and in which symbols are reconciled, cannot move money: only which
    thesis label a symbol carries depends on it. */
module LegOrder {
  import opened Results
  import opened Sums
  import opened LegLifecycle
  import opened LegLaws
  import opened Ledger
  import opened LedgerLaws
  import opened BookLaws

  // ----- Theses never touch money -----

  function Unlabelled(p: Position): Position
  {
    p.(thesis := NO_THESIS)
  }

  function UnlabelledHeld(held: Option<Position>): Option<Position>
  {
    if held.Some? then Some(Unlabelled(held.value)) else None
  }

  function UnlabelledLegs(legs: seq<ClosedLeg>): seq<ClosedLeg>
  {
    if legs == [] then []
    else UnlabelledLegs(legs[..|legs| - 1]) + [legs[|legs| - 1].(thesis := NO_THESIS)]
  }

  function UnlabelledOutcome(o: LegOutcome): LegOutcome
  {
    o.(held := UnlabelledHeld(o.held), closed := UnlabelledLegs(o.closed))
  }

  lemma {:induction false} UnlabelledConcat(a: seq<ClosedLeg>, b: seq<ClosedLeg>)
    ensures UnlabelledLegs(a + b) == UnlabelledLegs(a) + UnlabelledLegs(b)
  {
    if b == [] {
      assert a + b == a;
    } else {
      var front := b[..|b| - 1];
      assert (a + b)[..|a + b| - 1] == a + front;
      UnlabelledConcat(a, front);
    }
  }

  lemma UnlabelledOne(c: ClosedLeg)
    ensures UnlabelledLegs([c]) == [c.(thesis := NO_THESIS)]
    ensures UnlabelledLegs([]) == []
  {
    assert [c][..0] == [];
    assert UnlabelledLegs([c][..0]) == [];
  }

  lemma RollIgnoresThesis(p: Position, mark: real, opening: Opening, role: SeatRole, thesis: Option<Thesis>)
    ensures UnlabelledOutcome(Roll(p, mark, opening, role, thesis))
         == Roll(Unlabelled(p), mark, opening, role, None)
  {
    UnlabelledOne(Roll(p, mark, opening, role, thesis).closed[0]);
  }

  lemma ClosingIgnoresThesis(p: Position, d: Direction, target: real, mark: real, c: real, realized: real,
                             bill: Bill, own: Bill, opening: Opening, role: SeatRole, thesis: Option<Thesis>)
    ensures UnlabelledOutcome(Closing(p, d, target, mark, c, realized, bill, own, opening, role, thesis))
         == Closing(Unlabelled(p), d, target, mark, c, realized, bill, own, opening, role, None)
  {
    var o := Closing(p, d, target, mark, c, realized, bill, own, opening, role, thesis);
    if o.closed != [] {
      UnlabelledOne(o.closed[0]);
    } else {
      assert UnlabelledLegs(o.closed) == [];
    }
  }

  lemma TradeAwayIgnoresThesis(held: Position, p: Plan, bill: Bill, opening: Opening)
    ensures UnlabelledOutcome(TradeAway(held, p, bill, opening))
         == TradeAway(Unlabelled(held), p.(thesis := None), bill, opening)
  {
    hide Closing, Roll;
    var role, thesis := if p.rolledAfter then held.seatRole else p.role,
                        if p.rolledAfter then None else p.thesis;
    var own, c := OldBill(held, p.target, bill), ClosedQty(held, p.target);
    SameArithmetic(held, p.target, p.mark, bill);
    var realized := Unrealized(held.(qty := c), p.mark);
    ClosingIgnoresThesis(held, p.direction, p.target, p.mark, c, realized, bill, own, opening, role, thesis);
    hide OldBill, ClosedQty, Unrealized;
    var first := Closing(held, p.direction, p.target, p.mark, c, realized, bill, own, opening, role, thesis);
    if p.rolledAfter && first.held.Some? {
      RollIgnoresThesis(first.held.value, p.mark, opening, p.role, p.thesis);
      UnlabelledConcat(first.closed, Roll(first.held.value, p.mark, opening, p.role, p.thesis).closed);
    }
  }

  lemma SameArithmetic(held: Position, target: real, mark: real, bill: Bill)
    ensures OldBill(Unlabelled(held), target, bill) == OldBill(held, target, bill)
    ensures ClosedQty(Unlabelled(held), target) == ClosedQty(held, target)
    ensures var c := ClosedQty(held, target);
      Unrealized(Unlabelled(held).(qty := c), mark) == Unrealized(held.(qty := c), mark)
  {
  }

  function UnlabelledResult(o: Result<LegOutcome>): Result<LegOutcome>
  {
    match o
    case Err(e) => Err(e)
    case Ok(v) => Ok(UnlabelledOutcome(v))
  }

  lemma TradedIgnoresThesis(s: string, held: Option<Position>, p: Plan, r: Request)
    requires WellFormed(s, held)
    ensures UnlabelledResult(Traded(s, held, p, r))
         == Traded(s, UnlabelledHeld(held), p.(thesis := None), r.(thesis := None))
  {
    hide Frictions, TradeAway;
    var delta := p.target - SignedQty(held);
    SameFrictions(r, delta, p.mark);
    assert UnlabelledLegs([]) == [];
    if !Near(p.target, SignedQty(held)) && Frictions(r, delta, p.mark).Ok? {
      var bill := Frictions(r, delta, p.mark).value;
      if held.Some? && MovesAway(SignedQty(held), p.target) {
        TradeAwayIgnoresThesis(held.value, p, bill, r.opening);
      } else {
        GrownIgnoresThesis(s, held, p.direction, Abs(delta), p.mark, bill, r.opening, p.role, p.thesis);
        hide Increase;
      }
    }
  }

  lemma SameFrictions(r: Request, delta: real, mark: real)
    ensures Frictions(r.(thesis := None), delta, mark) == Frictions(r, delta, mark)
  {
    hide TradeFee;
    var t := r.(thesis := None);
    assert t.slippage(delta, mark) == r.slippage(delta, mark);
    assert Quote(t, delta, mark) == Quote(r, delta, mark);
  }

  lemma GrownIgnoresThesis(s: string, held: Option<Position>, d: Direction, fill: real, mark: real,
                           bill: Bill, opening: Opening, role: SeatRole, thesis: Option<Thesis>)
    requires fill > 0.0 && WellFormed(s, held)
    ensures UnlabelledOutcome(Increase(s, held, d, fill, mark, bill, opening, role, thesis))
         == Increase(s, UnlabelledHeld(held), d, fill, mark, bill, opening, role, None)
  {
    assert UnlabelledLegs([]) == [];
    assert BlendedEntry(UnlabelledHeld(held), fill, mark) == BlendedEntry(held, fill, mark);
    hide BlendedEntry;
  }

  /** A step's money, quantities, roles and journal amounts are the same whatever thesis it carries. */
  lemma StepIgnoresThesis(s: string, held: Option<Position>, r: Request)
    requires WellFormed(s, held)
    ensures UnlabelledResult(LegStep(s, held, r)) == LegStep(s, UnlabelledHeld(held), r.(thesis := None))
  {
    hide Traded, Roll;
    assert UnlabelledLegs([]) == [];
    if r.mark.Some? && r.mark.value > 0.0 {
      var p := PlanFor(held, r);
      assert PlanFor(UnlabelledHeld(held), r.(thesis := None)) == p.(thesis := None);
      if p.rolled {
        var roll := Roll(held.value, p.mark, r.opening, p.role, p.thesis);
        RollIgnoresThesis(held.value, p.mark, r.opening, p.role, p.thesis);
        RollWellFormed(s, held.value, p.mark, r.opening, p.role, p.thesis);
        TradedIgnoresThesis(s, roll.held, p, r);
        var next := Traded(s, roll.held, p, r);
        if next.Ok? {
          UnlabelledConcat(roll.closed, next.value.closed);
        }
      } else {
        TradedIgnoresThesis(s, held, p, r);
      }
    }
  }

  // ----- Each aggregate is a sum over symbols -----

  datatype Flow = Cash | RealizedPnl | FeesPaid | SlippagePaid | Journal(leg: ClosedLeg)

  function Occurrences(legs: seq<ClosedLeg>, leg: ClosedLeg): real
  {
    multiset(UnlabelledLegs(legs))[leg] as real
  }

  function Amount(a: Account, f: Flow): real
  {
    match f
    case Cash => a.cash
    case RealizedPnl => a.realizedPnl
    case FeesPaid => a.feesPaid
    case SlippagePaid => a.slippagePaid
    case Journal(leg) => Occurrences(a.closedLegs, leg)
  }

  function Contribution(o: LegOutcome, f: Flow): real
  {
    match f
    case Cash => o.realized - o.fee - o.slip
    case RealizedPnl => o.realized
    case FeesPaid => o.fee
    case SlippagePaid => o.slip
    case Journal(leg) => Occurrences(o.closed, leg)
  }

  lemma AbsorbAdds(a: Account, s: string, o: LegOutcome, f: Flow)
    ensures Amount(Absorb(a, s, o), f) == Amount(a, f) + Contribution(o, f)
  {
    if f.Journal? {
      UnlabelledConcat(a.closedLegs, o.closed);
    }
  }

  ghost function Contributions(a: Account, order: seq<string>, reqs: Requests, f: Flow): map<string, real>
    requires Sound(a)
    requires forall s :: s in order ==> s in reqs && LegStep(s, Held(a, s), reqs[s]).Ok?
  {
    map s | s in order :: Contribution(LegStep(s, Held(a, s), reqs[s]).value, f)
  }

  lemma {:induction false} RunAdds(a: Account, order: seq<string>, reqs: Requests, f: Flow)
    requires Sound(a) && Distinct(order)
    requires forall s :: s in order ==> s in reqs && LegStep(s, Held(a, s), reqs[s]).Ok?
    ensures RunAll(a, order, reqs).Ok?
    ensures Amount(RunAll(a, order, reqs).value, f) == Amount(a, f) + Sum(Contributions(a, order, reqs, f))
  {
    hide LegStep, Contribution, Amount, Absorb;
    RunHolds(a, order, reqs);
    if order == [] {
      assert Contributions(a, order, reqs, f) == map[];
    } else {
      hide Sum;
      var front, s := order[..|order| - 1], order[|order| - 1];
      DistinctFront(order);
      RunAdds(a, front, reqs, f);
      RunHolds(a, front, reqs);
      var b := RunAll(a, front, reqs).value;
      assert Held(b, s) == Held(a, s);
      var o := LegStep(s, Held(a, s), reqs[s]).value;
      AbsorbAdds(b, s, o, f);
      assert RunAll(a, order, reqs).value == Absorb(b, s, o);
      SumRemove(Contributions(a, order, reqs, f), s);
      assert Contributions(a, order, reqs, f) - {s} == Contributions(a, front, reqs, f);
    }
  }

  // ----- Same book, any order -----

  /** Equal in everything except which thesis labels a leg, and in which order lifecycles were closed. */
  ghost predicate SameBook(a: Account, b: Account)
  {
    && (forall s :: UnlabelledHeld(Held(a, s)) == UnlabelledHeld(Held(b, s)))
    && (forall f :: Amount(a, f) == Amount(b, f))
  }

  /** Two request maps that agree on everything but theses. */
  ghost predicate SameRequests(reqs1: Requests, reqs2: Requests)
  {
    reqs1.Keys == reqs2.Keys && forall s :: s in reqs1 ==> reqs1[s].(thesis := None) == reqs2[s].(thesis := None)
  }

  lemma StepsAgree(s: string, held: Option<Position>, r1: Request, r2: Request)
    requires WellFormed(s, held)
    requires r1.(thesis := None) == r2.(thesis := None)
    ensures UnlabelledResult(LegStep(s, held, r1)) == UnlabelledResult(LegStep(s, held, r2))
    ensures LegStep(s, held, r1).Ok? ==>
      forall f :: Contribution(LegStep(s, held, r1).value, f) == Contribution(LegStep(s, held, r2).value, f)
  {
    StepIgnoresThesis(s, held, r1);
    StepIgnoresThesis(s, held, r2);
    hide LegStep;
  }

  lemma RunsAgree(a: Account, order1: seq<string>, order2: seq<string>, reqs1: Requests, reqs2: Requests)
    requires Sound(a) && Distinct(order1) && Distinct(order2)
    requires SameRequests(reqs1, reqs2)
    requires forall s :: (s in order1 <==> s in order2) && (s in order1 ==> s in reqs1)
    ensures RunAll(a, order1, reqs1).Ok? <==> RunAll(a, order2, reqs2).Ok?
    ensures RunAll(a, order1, reqs1).Ok? ==> forall s ::
      UnlabelledHeld(Held(RunAll(a, order1, reqs1).value, s)) == UnlabelledHeld(Held(RunAll(a, order2, reqs2).value, s))
  {
    RunHolds(a, order1, reqs1);
    RunHolds(a, order2, reqs2);
    hide LegStep, RunAll, UnlabelledResult, Contribution;
    forall s | s in order1
      ensures LegStep(s, Held(a, s), reqs1[s]).Ok? == LegStep(s, Held(a, s), reqs2[s]).Ok?
      ensures LegStep(s, Held(a, s), reqs1[s]).Ok? ==>
        UnlabelledHeld(LegStep(s, Held(a, s), reqs1[s]).value.held)
          == UnlabelledHeld(LegStep(s, Held(a, s), reqs2[s]).value.held)
    {
      StepsAgree(s, Held(a, s), reqs1[s], reqs2[s]);
      HeldAgrees(LegStep(s, Held(a, s), reqs1[s]), LegStep(s, Held(a, s), reqs2[s]));
    }
  }

  lemma {:induction false} AmountsAgree(a: Account, order1: seq<string>, order2: seq<string>, reqs1: Requests,
                                        reqs2: Requests, f: Flow)
    requires Sound(a) && Distinct(order1) && Distinct(order2)
    requires SameRequests(reqs1, reqs2)
    requires forall s :: (s in order1 <==> s in order2) && (s in order1 ==> s in reqs1)
    requires RunAll(a, order1, reqs1).Ok? && RunAll(a, order2, reqs2).Ok?
    ensures Amount(RunAll(a, order1, reqs1).value, f) == Amount(RunAll(a, order2, reqs2).value, f)
  {
    RunHolds(a, order1, reqs1);
    RunHolds(a, order2, reqs2);
    hide LegStep, RunAll, UnlabelledResult, Contribution, Amount;
    RunAdds(a, order1, reqs1, f);
    RunAdds(a, order2, reqs2, f);
    forall s | s in order1
      ensures Contribution(LegStep(s, Held(a, s), reqs1[s]).value, f)
          == Contribution(LegStep(s, Held(a, s), reqs2[s]).value, f)
    {
      StepsAgree(s, Held(a, s), reqs1[s], reqs2[s]);
    }
    assert Contributions(a, order1, reqs1, f) == Contributions(a, order2, reqs2, f);
  }

  /** Reconciling the same targets in any two orders raises in both or neither, and ends in the same book. */
  lemma RunOrderIsImmaterial(a: Account, order1: seq<string>, order2: seq<string>, reqs1: Requests, reqs2: Requests)
    requires Sound(a) && Distinct(order1) && Distinct(order2)
    requires SameRequests(reqs1, reqs2)
    requires forall s :: (s in order1 <==> s in order2) && (s in order1 ==> s in reqs1)
    ensures RunAll(a, order1, reqs1).Ok? <==> RunAll(a, order2, reqs2).Ok?
    ensures RunAll(a, order1, reqs1).Ok? ==>
      SameBook(RunAll(a, order1, reqs1).value, RunAll(a, order2, reqs2).value)
  {
    hide RunAll, Amount;
    RunsAgree(a, order1, order2, reqs1, reqs2);
    if RunAll(a, order1, reqs1).Ok? {
      forall f
        ensures Amount(RunAll(a, order1, reqs1).value, f) == Amount(RunAll(a, order2, reqs2).value, f)
      {
        AmountsAgree(a, order1, order2, reqs1, reqs2, f);
      }
    }
  }

  lemma HeldAgrees(o1: Result<LegOutcome>, o2: Result<LegOutcome>)
    requires UnlabelledResult(o1) == UnlabelledResult(o2)
    ensures o1.Ok? == o2.Ok?
    ensures o1.Ok? ==> UnlabelledHeld(o1.value.held) == UnlabelledHeld(o2.value.held)
  {
  }

  // ----- Permuting legs -----

  /** Same net targets and roles: what consolidation hands on, apart from theses and first-seen order. */
  ghost predicate SameTargets(c: Consolidated, d: Consolidated)
  {
    c.net == d.net && c.roles == d.roles
  }

  lemma SwapNet(c: Consolidated, x: FillLeg, y: FillLeg)
    ensures Netted(Netted(c, x), y).net == Netted(Netted(c, y), x).net
  {
    hide SignedNotional;
    var d, e := Netted(Netted(c, x), y).net, Netted(Netted(c, y), x).net;
    assert d.Keys == e.Keys;
    forall s | s in d ensures d[s] == e[s] {
    }
  }

  lemma SwapRoles(c: Consolidated, x: FillLeg, y: FillLeg)
    ensures Netted(Netted(c, x), y).roles == Netted(Netted(c, y), x).roles
  {
    hide SignedNotional;
    var d, e := Netted(Netted(c, x), y).roles, Netted(Netted(c, y), x).roles;
    forall s ensures (s in d <==> s in e) && (s in d ==> d[s] == e[s]) {
    }
  }

  lemma NettedCongruent(c: Consolidated, d: Consolidated, x: FillLeg)
    requires SameTargets(c, d)
    ensures SameTargets(Netted(c, x), Netted(d, x))
  {
  }

  lemma ConsolidateLast(legs: seq<FillLeg>, x: FillLeg)
    ensures Consolidate(legs + [x]) == Netted(Consolidate(legs), x)
    ensures Consolidate(legs).roles.Keys == Consolidate(legs).net.Keys
  {
    assert (legs + [x])[..|legs|] == legs;
    ConsolidatedNet(legs, "");
  }

  /** A leg may be moved to the end. */
  lemma {:induction false} MoveToEnd(l: seq<FillLeg>, x: FillLeg, r: seq<FillLeg>)
    ensures SameTargets(Consolidate(l + [x] + r), Consolidate(l + r + [x]))
  {
    hide Netted;
    if r == [] {
      assert l + [x] + r == l + r + [x];
    } else {
      var front, y := r[..|r| - 1], r[|r| - 1];
      MoveToEnd(l, x, front);
      assert l + [x] + r == (l + [x] + front) + [y];
      assert l + r + [x] == (l + front + [y]) + [x];
      ConsolidateLast(l + [x] + front, y);
      ConsolidateLast(l + front, x);
      ConsolidateLast(l + front, y);
      ConsolidateLast(l + front + [y], x);
      NettedCongruent(Consolidate(l + [x] + front), Consolidate(l + front + [x]), y);
      SwapNet(Consolidate(l + front), x, y);
      SwapRoles(Consolidate(l + front), x, y);
    }
  }

  lemma {:induction false} PermutedTargets(legs1: seq<FillLeg>, legs2: seq<FillLeg>)
    requires multiset(legs1) == multiset(legs2)
    ensures SameTargets(Consolidate(legs1), Consolidate(legs2))
  {
    hide Netted;
    if legs1 == [] {
      assert |multiset(legs2)| == 0;
    } else {
      hide Consolidate;
      var front, x := legs1[..|legs1| - 1], legs1[|legs1| - 1];
      assert legs1 == front + [x];
      assert x in multiset(legs2);
      var k :| 0 <= k < |legs2| && legs2[k] == x;
      var l, r := legs2[..k], legs2[k + 1..];
      assert legs2 == l + [x] + r;
      DropOne(front, l, x, r);
      PermutedTargets(front, l + r);
      MoveToEnd(l, x, r);
      ConsolidateLast(front, x);
      ConsolidateLast(l + r, x);
      NettedCongruent(Consolidate(front), Consolidate(l + r), x);
    }
  }

  lemma DropOne<T>(front: seq<T>, l: seq<T>, x: T, r: seq<T>)
    requires multiset(front + [x]) == multiset(l + [x] + r)
    ensures multiset(front) == multiset(l + r)
  {
    assert multiset(l + [x] + r) == multiset(l + r) + multiset{x};
    assert multiset(front + [x]) == multiset(front) + multiset{x};
    assert multiset(front) == multiset(front + [x]) - multiset{x};
    assert multiset(l + r) == multiset(l + [x] + r) - multiset{x};
  }

  /** However the legs of a book are ordered, applying it raises or succeeds alike and ends in the same
      quantities, entry prices, roles, cash, fees, slippage, realized P&L and journal. */
  lemma LegOrderIsImmaterial(a: Account, legs1: seq<FillLeg>, legs2: seq<FillLeg>, x: Execution,
                             order1: seq<string>, order2: seq<string>)
    requires Sound(a) && multiset(legs1) == multiset(legs2)
    requires Enumerates(order1, WithDropped(Consolidate(legs1), a.positions))
    requires Enumerates(order2, WithDropped(Consolidate(legs2), a.positions))
    ensures var c1, c2 := Consolidate(legs1), Consolidate(legs2);
      var r1 := RunAll(a, order1, RequestsFor(WithDropped(c1, a.positions), c1, x));
      var r2 := RunAll(a, order2, RequestsFor(WithDropped(c2, a.positions), c2, x));
      && (r1.Ok? <==> r2.Ok?)
      && (r1.Ok? ==> SameBook(r1.value, r2.value))
  {
    PermutedTargets(legs1, legs2);
    var c1, c2 := Consolidate(legs1), Consolidate(legs2);
    var reqs1 := RequestsFor(WithDropped(c1, a.positions), c1, x);
    var reqs2 := RequestsFor(WithDropped(c2, a.positions), c2, x);
    assert SameRequests(reqs1, reqs2);
    RunOrderIsImmaterial(a, order1, order2, reqs1, reqs2);
  }
}
