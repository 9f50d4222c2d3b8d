/** Which lifecycle a leg belongs to after a reconciliation, and what the journal says of the one it ended. */
module LegIdentity {
  import opened Results
  import opened Sums
  import opened LegLifecycle
  import opened LegLaws

  /** The execution target leaves inventory although the book asks for none, or on the side the book does not ask
      for. */
  predicate StopsShort(r: Request)
    requires r.mark.Some? && r.mark.value > 0.0
  {
    r.explicit.Some? &&
    var desired, target := r.net / r.mark.value, r.explicit.value;
    && (target > 0.000000000001 || target < -0.000000000001)
    && (|| -0.000000000001 <= desired <= 0.000000000001
        || (desired > 0.0 && target < 0.0)
        || (desired < 0.0 && target > 0.0))
  }

  /** The role a leg has afterwards: that of the book, unless execution stopped short of it. */
  function RoleAfter(held: Option<Position>, r: Request): SeatRole
    requires r.mark.Some? && r.mark.value > 0.0
  {
    if r.role.None? || (held.Some? && StopsShort(r)) then if held.Some? then held.value.seatRole else Alpha
    else r.role.value
  }

  /** The thesis a leg has afterwards: that of the book, unless there is none or execution stopped short of it; then
      the one it had, or none on a side it did not have. */
  function ThesisAfter(held: Option<Position>, r: Request, side: Direction): Thesis
    requires r.mark.Some? && r.mark.value > 0.0
  {
    if r.thesis.Some? && !(held.Some? && StopsShort(r)) then r.thesis.value
    else if held.Some? && held.value.direction == side then held.value.thesis
    else NO_THESIS
  }

  /** The journal record is of the leg that was held, under the labels it had. */
  predicate RecordOf(c: ClosedLeg, p: Position)
  {
    && c.symbol == p.symbol && c.direction == p.direction && c.seatRole == p.seatRole && c.thesis == p.thesis
    && c.openedCycle == p.opening.cycle && c.openedCadence == p.opening.cadence
  }

  lemma KeepsExactly(held: Option<Position>, r: Request)
    requires r.mark.Some? && r.mark.value > 0.0
    ensures KeepsOldLifecycle(held, r) <==> held.Some? && StopsShort(r)
  {
    var desired := r.net / r.mark.value;
    ScaleSigns(desired, Target(r));
    if r.explicit.None? && Abs(desired) > DUST {
      assert desired * desired >= 0.0 by { ScaleSigns(desired, desired); }
    }
  }

  lemma PlannedLabels(held: Option<Position>, r: Request)
    requires r.mark.Some? && r.mark.value > 0.0
    ensures PlanFor(held, r).role == RoleAfter(held, r)
    ensures PlanFor(held, r).thesis == if held.Some? && StopsShort(r) then None else r.thesis
    ensures PlanFor(held, r).rolled ==> held.Some? && PlanFor(held, r).direction == held.value.direction
  {
    KeepsExactly(held, r);
    hide KeepsOldLifecycle, StopsShort;
  }

  /** What an outcome says of lifecycles, for a leg that is to have the given role and new thesis, if any. */
  predicate Identified(held: Option<Position>, o: LegOutcome, role: SeatRole, thesis: Option<Thesis>, opening: Opening)
  {
    && |o.closed| <= 1
    && (o.closed != [] ==> held.Some? && RecordOf(o.closed[0], held.value))
    && (held.Some? && o.closed == [] ==> o.held.Some? && o.held.value.direction == held.value.direction)
    && (o.held.Some? ==>
          var p := o.held.value;
          && p.seatRole == role
          && p.opening == (if held.Some? && o.closed == [] then held.value.opening else opening)
          && p.thesis == (if thesis.Some? then thesis.value
                          else if held.Some? && held.value.direction == p.direction then held.value.thesis
                          else NO_THESIS)
          && (held.Some? && p.direction == held.value.direction && p.seatRole == held.value.seatRole ==>
                o.closed == []))
  }

  /** The side a plan is on is that of its target, and the held one's when it has none. */
  predicate OnItsSide(held: Option<Position>, p: Plan)
  {
    && (p.target > 0.0 ==> p.direction.Long?) && (p.target < 0.0 ==> p.direction.Short?)
    && (p.target == 0.0 && held.Some? ==> p.direction == held.value.direction)
  }

  lemma PlanIsOnItsSide(held: Option<Position>, r: Request)
    requires r.mark.Some? && r.mark.value > 0.0
    ensures var p := PlanFor(held, r);
      && OnItsSide(held, p) && (p.rolled || p.rolledAfter ==> held.Some? && p.direction == held.value.direction)
      && (p.rolled || p.rolledAfter <==>
            held.Some? && p.direction == held.value.direction && p.role != held.value.seatRole)
      && (p.rolled ==> Abs(p.target) >= Abs(SignedQty(held)))
      && (p.rolledAfter ==> Abs(p.target) < Abs(SignedQty(held)) && !p.rolled)
  {
    hide KeepsOldLifecycle, Target;
  }

  lemma ReducedKeepsSide(p: Position, direction: Direction, target: real)
    requires p.qty > 0.0 && MovesAway(SignedQty(Some(p)), target)
    requires target > 0.0 ==> direction.Long?
    requires target < 0.0 ==> direction.Short?
    requires target == 0.0 ==> direction == p.direction
    ensures var residual := p.qty - ClosedQty(p, target);
      if direction == p.direction then residual == Abs(target) else residual == 0.0
  {
    ScaleSigns(target, SignedQty(Some(p)));
  }

  lemma AwayIdentified(p: Position, plan: Plan, bill: Bill, opening: Opening)
    requires p.qty > 0.0 && MovesAway(SignedQty(Some(p)), plan.target) && OnItsSide(Some(p), plan)
    requires plan.rolledAfter <==> plan.direction == p.direction && plan.role != p.seatRole
    ensures Identified(Some(p), TradeAway(p, plan, bill, opening), plan.role, plan.thesis, opening)
    ensures var o := TradeAway(p, plan, bill, opening); o.held.Some? ==> o.held.value.symbol == p.symbol
  {
    ReducedKeepsSide(p, plan.direction, plan.target);
    hide Unrealized, OldBill, ClosedQty, MovesAway;
  }

  lemma TradedIdentified(s: string, held: Option<Position>, p: Plan, r: Request)
    requires WellFormed(s, held) && OnItsSide(held, p) && Traded(s, held, p, r).Ok?
    requires !(p.rolledAfter && held.None?)
    requires held.Some? && !Near(p.target, SignedQty(held)) && MovesAway(SignedQty(held), p.target) ==>
               (p.rolledAfter <==> p.direction == held.value.direction && p.role != held.value.seatRole)
    ensures Identified(held, Traded(s, held, p, r).value, p.role, p.thesis, r.opening)
    ensures Traded(s, held, p, r).value.held.Some? ==> Traded(s, held, p, r).value.held.value.symbol == s
  {
    hide Frictions, Near, BlendedEntry, MovesAway;
    if held.Some? && !Near(p.target, SignedQty(held)) && MovesAway(SignedQty(held), p.target) {
      AwayIdentified(held.value, p, Frictions(r, p.target - SignedQty(held), p.mark).value, r.opening);
      hide TradeAway, Identified, OnItsSide;
    }
  }

  /** One reconciliation ends at most one lifecycle, always that of the leg held before and journaled under the
      labels it had; what is held afterwards carries the asked role and thesis, and continues the old lifecycle
      exactly when none was ended: it then keeps side and opening, and otherwise opens with this execution. */
  lemma LifecycleIdentity(s: string, held: Option<Position>, r: Request)
    requires WellFormed(s, held) && r.mark.Some? && r.mark.value > 0.0 && LegStep(s, held, r).Ok?
    ensures var o := LegStep(s, held, r).value;
      && |o.closed| <= 1
      && (o.closed != [] ==> held.Some? && RecordOf(o.closed[0], held.value))
      && (held.Some? && o.closed == [] ==> o.held.Some? && o.held.value.direction == held.value.direction)
      && (o.held.Some? ==>
            var p := o.held.value;
            && p.symbol == s && p.seatRole == RoleAfter(held, r) && p.thesis == ThesisAfter(held, r, p.direction)
            && p.opening == (if held.Some? && o.closed == [] then held.value.opening else r.opening)
            && (held.Some? && p.direction == held.value.direction && p.seatRole == held.value.seatRole ==>
                  o.closed == []))
  {
    PlannedLabels(held, r);
    PlanIsOnItsSide(held, r);
    var p := PlanFor(held, r);
    hide RoleAfter, StopsShort, PlanFor, Traded, Near, MovesAway;
    if p.rolled {
      RolledIdentified(s, held.value, p, r);
    } else {
      TradedIdentified(s, held, p, r);
    }
  }

  /** After a role transfer nothing is sold, so the transferred lifecycle goes on. */
  lemma RolledIdentified(s: string, p: Position, plan: Plan, r: Request)
    requires WellFormed(s, Some(p)) && OnItsSide(Some(p), plan) && plan.direction == p.direction
    requires plan.role != p.seatRole && Abs(plan.target) >= Abs(SignedQty(Some(p))) && !plan.rolledAfter
    requires var roll := Roll(p, plan.mark, r.opening, plan.role, plan.thesis);
      WellFormed(s, roll.held) && Traded(s, roll.held, plan, r).Ok?
    ensures var roll := Roll(p, plan.mark, r.opening, plan.role, plan.thesis);
      var o := Then(roll, Traded(s, roll.held, plan, r).value);
      Identified(Some(p), o, plan.role, plan.thesis, r.opening) && o.held.Some? && o.held.value.symbol == s
        && o.closed != []
  {
    var roll := Roll(p, plan.mark, r.opening, plan.role, plan.thesis);
    ScaleSigns(plan.target, SignedQty(Some(p)));
    assert !MovesAway(SignedQty(roll.held), plan.target);
    hide Frictions, Near, BlendedEntry, MovesAway, Unrealized;
  }
}
