/** What `apply_fills` reaches: targets, leg-order independence, re-sending, decision anchoring. */
module BookLaws {
  import opened Results
  import opened Sums
  import opened LegLifecycle
  import opened LegLaws
  import opened Ledger
  import opened LedgerLaws

  /** `order` lists exactly the symbols of the consolidated book, each once. */
  ghost predicate Enumerates(order: seq<string>, net: map<string, real>)
  {
    Distinct(order) && forall s :: s in order <==> s in net
  }

  // ----- Reaching the targets -----

  /** After a completed reconciliation every symbol with a mark holds its target within the comparison
      tolerance, every symbol without one is flat, and nothing is left as dust. */
  lemma FillsReachTargets(a: Account, order: seq<string>, reqs: Requests, s: string)
    requires Sound(a) && AboveDust(a) && Distinct(order)
    requires forall t :: t in order ==> t in reqs
    requires RunAll(a, order, reqs).Ok?
    requires s in order
    ensures var held := Held(RunAll(a, order, reqs).value, s);
      && (held.Some? ==> held.value.qty > DUST)
      && (if reqs[s].mark.Some? && reqs[s].mark.value > 0.0 then
            var current, target := SignedQty(Held(a, s)), Target(reqs[s]);
            && Abs(SignedQty(held) - target) <= Max(DUST * Max(Abs(target), Abs(current)), DUST)
            && (Abs(target) <= DUST && held.Some? ==> Near(target, current))
          else held.None?)
  {
    RunHolds(a, order, reqs);
    LegStaysAboveDust(s, Held(a, s), reqs[s]);
    if reqs[s].mark.Some? && reqs[s].mark.value > 0.0 {
      LegConserves(s, Held(a, s), reqs[s], 0.0);
      ReachedIsTarget(SignedQty(Held(a, s)), Target(reqs[s]));
      hide LegStep, ValueOf, Scale, Forgone, RunAll;
    } else {
      SkippedIsFlat(s, Held(a, s), reqs[s]);
    }
  }

  /** The quantity a reconciliation steers a dropped symbol to: the explicit execution target, else zero. */
  function DroppedTarget(x: Execution, s: string): real
  {
    if x.targets.Some? && s in x.targets.value then x.targets.value[s] else 0.0
  }

  /** A held symbol absent from the new book is gone afterwards exactly when its target is dust and the
      holding is not already within tolerance of it; so always when no execution target stops short of
      flat, since nothing held is dust. */
  lemma DroppedIsFlat(a: Account, c: Consolidated, x: Execution, order: seq<string>, s: string)
    requires Sound(a)
    requires Enumerates(order, WithDropped(c, a.positions))
    requires RunAll(a, order, RequestsFor(WithDropped(c, a.positions), c, x)).Ok?
    requires s in a.positions && s !in c.net
    ensures var after := Held(RunAll(a, order, RequestsFor(WithDropped(c, a.positions), c, x)).value, s);
      var target, current := DroppedTarget(x, s), SignedQty(Held(a, s));
      && (after.None? <==> Abs(target) <= DUST && !Near(target, current))
      && (AboveDust(a) && target == 0.0 ==> after.None?)
  {
    hide LegStep, RunAll, Near, PlanFor;
    var reqs := RequestsFor(WithDropped(c, a.positions), c, x);
    RunHolds(a, order, reqs);
    FlatExactly(s, a.positions[s], reqs[s]);
    DroppedRequest(reqs[s], x, s);
    DustIsNotNear(SignedQty(Held(a, s)));
  }

  /** A held leg is closed exactly when its target is dust and it is not already within tolerance of it. */
  lemma FlatExactly(s: string, p: Position, r: Request)
    requires WellFormed(s, Some(p)) && LegStep(s, Some(p), r).Ok?
    ensures r.mark.Some? && r.mark.value > 0.0
    ensures LegStep(s, Some(p), r).value.held.None? <==> Abs(Target(r)) <= DUST && !Near(Target(r), SignedQty(Some(p)))
  {
    LegStaysWellFormed(s, Some(p), r);
    assert r.mark.Some? && r.mark.value > 0.0;
    LegConserves(s, Some(p), r, 0.0);
    hide LegStep, ValueOf, Scale, Forgone, Near;
  }

  lemma DroppedRequest(r: Request, x: Execution, s: string)
    requires r.mark.Some? && r.mark.value > 0.0 && r.net == 0.0
    requires r.explicit == if x.targets.Some? then Lookup(x.targets.value, s) else None
    ensures Target(r) == DroppedTarget(x, s)
  {
  }

  lemma DustIsNotNear(current: real)
    ensures Near(0.0, current) <==> Abs(current) <= DUST
  {
  }

  // ----- Re-sending the same book -----

  lemma {:induction false} UnchangedRun(b: Account, order: seq<string>, reqs: Requests)
    requires Sound(b)
    requires forall s :: s in order ==> s in reqs && LegStep(s, Held(b, s), reqs[s]) == Ok(Unchanged(Held(b, s)))
    ensures RunAll(b, order, reqs) == Ok(b)
  {
    hide LegStep, WellFormed;
    if order == [] {
    } else {
      var s := order[|order| - 1];
      UnchangedRun(b, order[..|order| - 1], reqs);
      assert StepOne(b, s, reqs[s]) == Ok(Absorb(b, s, Unchanged(Held(b, s))));
      assert b.closedLegs + [] == b.closedLegs;
      if s in b.positions {
        assert b.positions[s := b.positions[s]] == b.positions;
      } else {
        assert b.positions - {s} == b.positions;
      }
    }
  }

  /** The second execution asks for the same, symbol by symbol. */
  ghost predicate SameAsk(x: Execution, y: Execution, net: map<string, real>)
  {
    && y.(targets := None) == x.(targets := None)
    && forall s | s in net ::
         (if x.targets.Some? then Lookup(x.targets.value, s) else None)
         == (if y.targets.Some? then Lookup(y.targets.value, s) else None)
  }

  /** Re-sending a book that has just been applied is an exact no-op on the whole account, with or without
      explicit execution targets; symbols dropped meanwhile need no target any more. */
  lemma ResendIsNoOp(a: Account, c: Consolidated, x: Execution, order: seq<string>,
                     y: Execution, again: seq<string>)
    requires Sound(a)
    requires Enumerates(order, WithDropped(c, a.positions))
    requires RunAll(a, order, RequestsFor(WithDropped(c, a.positions), c, x)).Ok?
    requires var b := RunAll(a, order, RequestsFor(WithDropped(c, a.positions), c, x)).value;
      Enumerates(again, WithDropped(c, b.positions)) && SameAsk(x, y, WithDropped(c, b.positions))
    ensures var b := RunAll(a, order, RequestsFor(WithDropped(c, a.positions), c, x)).value;
      RunAll(b, again, RequestsFor(WithDropped(c, b.positions), c, y)) == Ok(b)
  {
    hide LegStep, RunAll, PlanFor;
    var reqs := RequestsFor(WithDropped(c, a.positions), c, x);
    RunHolds(a, order, reqs);
    var b := RunAll(a, order, reqs).value;
    var reqs2 := RequestsFor(WithDropped(c, b.positions), c, y);
    forall s | s in again
      ensures LegStep(s, Held(b, s), reqs2[s]) == Ok(Unchanged(Held(b, s)))
    {
      assert Held(b, s) == if s in order then LegStep(s, Held(a, s), reqs[s]).value.held else Held(a, s);
      StillAsked(a, b, c, x, y, s);
      Settled(s, Held(a, s), reqs[s]);
    }
    UnchangedRun(b, again, reqs2);
  }

  lemma StillAsked(a: Account, b: Account, c: Consolidated, x: Execution, y: Execution, s: string)
    requires s in WithDropped(c, b.positions) && s in WithDropped(c, a.positions)
    requires SameAsk(x, y, WithDropped(c, b.positions))
    ensures RequestFor(WithDropped(c, b.positions), c, y, s) == RequestFor(WithDropped(c, a.positions), c, x, s)
  {
  }

  lemma Settled(s: string, held: Option<Position>, r: Request)
    requires WellFormed(s, held) && LegStep(s, held, r).Ok?
    ensures WellFormed(s, LegStep(s, held, r).value.held)
    ensures LegStep(s, LegStep(s, held, r).value.held, r) == Ok(Unchanged(LegStep(s, held, r).value.held))
  {
    hide LegStep;
    LegStaysWellFormed(s, held, r);
    LegIdempotent(s, held, r);
  }

  // ----- Decision anchoring -----

  /** One leg of the PM's book, sized at the decision mark. */
  function Anchored(leg: FillLeg, decision: map<string, real>, execution: map<string, real>): FillLeg
  {
    var s := leg.symbol;
    if s in decision && s in execution && decision[s] > 0.0 && execution[s] > 0.0
    then leg.(targetNotional := leg.targetNotional * (execution[s] / decision[s]))
    else leg
  }

  function AnchoredFills(book: seq<FillLeg>, decision: map<string, real>, execution: map<string, real>): seq<FillLeg>
  {
    if book == [] then []
    else AnchoredFills(book[..|book| - 1], decision, execution)
         + [Anchored(book[|book| - 1], decision, execution)]
  }

  function NetAt(legs: seq<FillLeg>, s: string): real
  {
    if legs == [] then 0.0
    else NetAt(legs[..|legs| - 1], s)
         + (if legs[|legs| - 1].symbol == s then SignedNotional(legs[|legs| - 1]) else 0.0)
  }

  lemma {:induction false} ConsolidatedNet(legs: seq<FillLeg>, s: string)
    ensures var c := Consolidate(legs);
      && (s in c.net <==> exists i :: 0 <= i < |legs| && legs[i].symbol == s)
      && (if s in c.net then c.net[s] else 0.0) == NetAt(legs, s)
      && c.roles.Keys == c.net.Keys
  {
    if legs == [] {
    } else {
      var front := legs[..|legs| - 1];
      ConsolidatedNet(front, s);
      if s in Consolidate(front).net {
        var i :| 0 <= i < |front| && front[i].symbol == s;
        assert legs[i].symbol == s;
      }
      assert legs[|legs| - 1].symbol == s
          || forall i :: 0 <= i < |legs| && legs[i].symbol == s ==> front[i].symbol == s;
    }
  }

  lemma ScaledNotional(leg: FillLeg, f: real)
    requires f > 0.0
    ensures SignedNotional(leg.(targetNotional := leg.targetNotional * f)) == Scale(SignedNotional(leg), f)
  {
    var n := leg.targetNotional;
    ScaleSigns(n, f);
    assert Abs(n * f) == Abs(n) * f;
  }

  lemma {:induction false} AnchoredNet(book: seq<FillLeg>, decision: map<string, real>, execution: map<string, real>,
                                       s: string)
    requires s in decision && s in execution && decision[s] > 0.0 && execution[s] > 0.0
    ensures NetAt(AnchoredFills(book, decision, execution), s)
         == Scale(NetAt(book, s), execution[s] / decision[s])
  {
    hide Scale, SignedNotional;
    if book == [] {
      ScaleLaws(0.0, 0.0, execution[s] / decision[s], 0.0);
    } else {
      var front, leg := book[..|book| - 1], book[|book| - 1];
      AnchoredNet(front, decision, execution, s);
      var fills := AnchoredFills(book, decision, execution);
      assert fills[..|fills| - 1] == AnchoredFills(front, decision, execution);
      if leg.symbol == s {
        AnchoredScales(leg, decision, execution);
        ScaleLaws(NetAt(front, s), SignedNotional(leg), execution[s] / decision[s], 0.0);
      }
    }
  }

  lemma AnchoredScales(leg: FillLeg, decision: map<string, real>, execution: map<string, real>)
    requires leg.symbol in decision && leg.symbol in execution
    requires decision[leg.symbol] > 0.0 && execution[leg.symbol] > 0.0
    ensures SignedNotional(Anchored(leg, decision, execution))
         == Scale(SignedNotional(leg), execution[leg.symbol] / decision[leg.symbol])
  {
    var f := execution[leg.symbol] / decision[leg.symbol];
    assert f > 0.0;
    ScaledNotional(leg, f);
  }

  lemma CancelMark(n: real, dm: real, em: real)
    requires dm > 0.0 && em > 0.0
    ensures Scale(n, em / dm) / em == n / dm
  {
    assert n * (em / dm) == (n / dm) * em;
  }

  /** The quantity a decision asks for does not depend on the execution mark. */
  lemma AnchoredTarget(book: seq<FillLeg>, decision: map<string, real>, execution: map<string, real>, s: string)
    requires s in decision && s in execution && decision[s] > 0.0 && execution[s] > 0.0
    ensures var c := Consolidate(AnchoredFills(book, decision, execution));
      (if s in c.net then c.net[s] else 0.0) / execution[s] == NetAt(book, s) / decision[s]
  {
    ConsolidatedNet(AnchoredFills(book, decision, execution), s);
    AnchoredNet(book, decision, execution, s);
    CancelMark(NetAt(book, s), decision[s], execution[s]);
  }

  /** A leg the PM leaves unchanged is an exact no-op whatever the market did meanwhile: nothing traded,
      no friction, no lifecycle closed; only its thesis label is refreshed.  An explicit execution target
      must say the same. */
  lemma UnchangedLegIsNoOp(a: Account, book: seq<FillLeg>, decision: map<string, real>, x: Execution, s: string)
    requires Sound(a)
    requires x.targets.Some? ==> s in x.targets.value && Near(x.targets.value[s], SignedQty(Held(a, s)))
    requires s in a.positions && s in decision && s in x.marks && decision[s] > 0.0 && x.marks[s] > 0.0
    requires Near(NetAt(book, s) / decision[s], SignedQty(Held(a, s)))
    requires var c := Consolidate(AnchoredFills(book, decision, x.marks));
      s in c.net && Lookup(c.roles, s) == Some(a.positions[s].seatRole)
    ensures var c := Consolidate(AnchoredFills(book, decision, x.marks));
      var r := RequestFor(WithDropped(c, a.positions), c, x, s);
      var p := a.positions[s];
      LegStep(s, Held(a, s), r) == Ok(Unchanged(Some(p.(thesis := Rethought(p.thesis, PlanFor(Held(a, s), r).thesis)))))
  {
    var c := Consolidate(AnchoredFills(book, decision, x.marks));
    ConsolidatedNet(AnchoredFills(book, decision, x.marks), s);
    AnchoredTarget(book, decision, x.marks, s);
    var r := RequestFor(WithDropped(c, a.positions), c, x, s);
    assert x.targets.None? ==> Target(r) == NetAt(book, s) / decision[s];
    var p := PlanFor(Held(a, s), r);
    assert p.role == a.positions[s].seatRole;
  }
}
