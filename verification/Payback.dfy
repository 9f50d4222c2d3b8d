/** When a forecast pays back its frictions.

    The price part of a forecast accrues evenly up to its horizon and then stops; carry goes on at its own
    rate.  Time is counted in 8-hour funding intervals. */
module Payback {
  import opened Results
  import opened Sums

  /** Rates at or below this are treated as zero. */
  const CUTOFF: real := 0.000000001
  const MAX_PAYBACK: real := 10.0

  datatype Forecast = Forecast(price: real, carry: real, horizon: real)

  function Rate(w: Forecast): real
    requires w.horizon > 0.0
  {
    w.carry + w.price / w.horizon
  }

  /** What the forecast has earned after `t` intervals. */
  function Earned(w: Forecast, t: real): real
    requires w.horizon > 0.0
  {
    Scale(w.carry, t) + Scale(w.price / w.horizon, Min(t, w.horizon))
  }

  /** The first break-even time, or none. */
  function Intervals(friction: real, w: Forecast): Option<real>
  {
    if friction < 0.0 || w.horizon <= 0.0 then None
    else
      var rate := Rate(w);
      if rate > CUTOFF && friction / rate <= w.horizon then Some(friction / rate)
      else if w.carry > CUTOFF && (friction - w.price) / w.carry >= w.horizon then
        Some((friction - w.price) / w.carry)
      else None
  }

  predicate Repaid(friction: real, w: Forecast, t: real)
    requires w.horizon > 0.0
  {
    t >= 0.0 && Earned(w, t) >= friction
  }

  ghost predicate Least(friction: real, w: Forecast, t: real)
    requires w.horizon > 0.0
  {
    Repaid(friction, w, t) && forall s | 0.0 <= s < t :: !Repaid(friction, w, s)
  }

  // ----- The two pieces of the line -----

  lemma BeforeHorizon(w: Forecast, t: real)
    requires w.horizon > 0.0 && t <= w.horizon
    ensures Earned(w, t) == Scale(Rate(w), t)
  {
  }

  lemma AfterHorizon(w: Forecast, t: real)
    requires w.horizon > 0.0 && t >= w.horizon
    ensures Earned(w, t) == Scale(w.carry, t) + w.price
    ensures Earned(w, w.horizon) == Scale(Rate(w), w.horizon) == Scale(w.carry, w.horizon) + w.price
  {
    assert Scale(w.price / w.horizon, w.horizon) == w.price;
    BeforeHorizon(w, w.horizon);
  }

  lemma QuotientReaches(x: real, rate: real, t: real)
    requires rate > 0.0
    ensures Scale(rate, x / rate) == x
    ensures t < x / rate <==> Scale(rate, t) < x
    ensures t <= x / rate <==> Scale(rate, t) <= x
  {
    DivideThenMultiply(x, rate, t);
    assert Scale(rate, t) == t * rate;
  }

  /** Within the horizon a positive friction is repaid exactly from `friction / rate` on. */
  lemma RepaidWithin(friction: real, w: Forecast, t: real)
    requires friction > 0.0 && w.horizon > 0.0 && 0.0 <= t <= w.horizon
    ensures Repaid(friction, w, t) <==> Rate(w) > 0.0 && t >= friction / Rate(w)
  {
    BeforeHorizon(w, t);
    ScaleSign(Rate(w), t);
    if Rate(w) > 0.0 {
      QuotientReaches(friction, Rate(w), t);
    }
    hide Scale, Earned, Rate;
  }

  /** Past a horizon that did not repay it, it is repaid exactly from `(friction - price) / carry` on. */
  lemma RepaidBeyond(friction: real, w: Forecast, t: real)
    requires friction > 0.0 && w.horizon > 0.0 && t >= w.horizon && !Repaid(friction, w, w.horizon)
    ensures Repaid(friction, w, t) <==> w.carry > 0.0 && t >= (friction - w.price) / w.carry
    ensures w.carry > 0.0 ==> (friction - w.price) / w.carry > w.horizon
  {
    AfterHorizon(w, t);
    if w.carry > 0.0 {
      QuotientReaches(friction - w.price, w.carry, t);
      QuotientReaches(friction - w.price, w.carry, w.horizon);
    } else {
      ScaleDistributes(w.carry, w.horizon, t - w.horizon);
      ScaleSign(w.carry, t - w.horizon);
    }
    hide Scale, Earned, Rate;
  }

  /** The horizon repays the friction when the rate does. */
  lemma RepaidAtHorizon(friction: real, w: Forecast)
    requires friction > 0.0 && w.horizon > 0.0
    ensures Repaid(friction, w, w.horizon) <==> Rate(w) > 0.0 && friction / Rate(w) <= w.horizon
    ensures Repaid(friction, w, w.horizon) ==> forall t | t >= w.horizon && w.carry >= 0.0 :: Repaid(friction, w, t)
  {
    RepaidWithin(friction, w, w.horizon);
    forall t | t >= w.horizon && w.carry >= 0.0 && Repaid(friction, w, w.horizon) ensures Repaid(friction, w, t) {
      AfterHorizon(w, t);
      ScaleDistributes(w.carry, w.horizon, t - w.horizon);
      if w.carry > 0.0 {
        ScaleKeepsOrder(w.carry, 0.0, t - w.horizon);
      }
    }
    hide Scale, Earned, Rate;
  }

  // ----- The solver -----

  /** A break-even exists, but only at a rate the solver treats as zero. */
  predicate Missed(friction: real, w: Forecast)
    requires w.horizon > 0.0
  {
    if Repaid(friction, w, w.horizon) then
      Rate(w) <= CUTOFF && !(w.carry > CUTOFF && (friction - w.price) / w.carry >= w.horizon)
    else
      0.0 < w.carry <= CUTOFF
  }

  lemma FirstWithin(friction: real, w: Forecast)
    requires friction > 0.0 && w.horizon > 0.0 && Repaid(friction, w, w.horizon)
    ensures Rate(w) > 0.0 && Least(friction, w, friction / Rate(w))
    ensures w.carry > 0.0 && (friction - w.price) / w.carry >= w.horizon ==>
      (friction - w.price) / w.carry == w.horizon == friction / Rate(w)
  {
    RepaidAtHorizon(friction, w);
    var t := friction / Rate(w);
    QuotientReaches(friction, Rate(w), 0.0);
    ScaleDistributes(Rate(w), 0.0, 0.0);
    forall s | 0.0 <= s <= t ensures Repaid(friction, w, s) <==> s >= t {
      RepaidWithin(friction, w, s);
    }
    if w.carry > 0.0 && (friction - w.price) / w.carry >= w.horizon {
      AfterHorizon(w, w.horizon);
      QuotientReaches(friction - w.price, w.carry, w.horizon);
      QuotientReaches(friction, Rate(w), w.horizon);
    }
    hide Scale, Earned, Rate;
  }

  lemma FirstBeyond(friction: real, w: Forecast)
    requires friction > 0.0 && w.horizon > 0.0 && !Repaid(friction, w, w.horizon)
    ensures w.carry > 0.0 ==>
      (friction - w.price) / w.carry >= w.horizon && Least(friction, w, (friction - w.price) / w.carry)
    ensures w.carry <= 0.0 ==> forall t :: !Repaid(friction, w, t)
  {
    RepaidAtHorizon(friction, w);
    hide Earned, Rate;
    forall t | 0.0 <= t <= w.horizon ensures !Repaid(friction, w, t) {
      RepaidWithin(friction, w, t);
    }
    hide Repaid;
    forall t | t >= w.horizon
      ensures Repaid(friction, w, t) <==> w.carry > 0.0 && t >= (friction - w.price) / w.carry {
      RepaidBeyond(friction, w, t);
    }
    RepaidBeyond(friction, w, w.horizon);
    assert forall t | t < 0.0 :: !Repaid(friction, w, t) by { NeverBeforeStart(friction, w); }
  }

  lemma NeverBeforeStart(friction: real, w: Forecast)
    requires w.horizon > 0.0
    ensures forall t | t < 0.0 :: !Repaid(friction, w, t)
  {
  }

  /** For a positive friction the solver's time is the least break-even, and it reports none exactly when
      there is none or the only rate that reaches it is below the cut-off. */
  lemma PaybackIsLeast(friction: real, w: Forecast)
    requires friction > 0.0 && w.horizon > 0.0
    ensures var t := Intervals(friction, w);
      && (t.Some? ==> Least(friction, w, t.value))
      && (t.None? <==> (forall s :: !Repaid(friction, w, s)) || Missed(friction, w))
  {
    RepaidAtHorizon(friction, w);
    if Repaid(friction, w, w.horizon) {
      FirstWithin(friction, w);
    } else {
      FirstBeyond(friction, w);
    }
    hide Earned, Rate;
  }

  /** A forecast with nothing to repay is repaid at once, but the solver says so exactly when its rate
      clears the cut-off. */
  lemma NothingToRepay(w: Forecast)
    requires w.horizon > 0.0
    ensures Least(0.0, w, 0.0)
    ensures Intervals(0.0, w) == Some(0.0) <==> Rate(w) > CUTOFF
  {
    BeforeHorizon(w, 0.0);
    ScaleDistributes(Rate(w), 0.0, 0.0);
    hide Scale, Earned, Rate;
  }

  // ----- The threshold -----

  /** The price edge, as a fraction of the clip, that repays the friction within the longest payback. */
  function RequiredEdge(friction: real, carry: real, horizon: real, clip: real): Option<real>
  {
    if friction < 0.0 || horizon <= 0.0 || clip <= 0.0 then None
    else
      var available := Min(MAX_PAYBACK / horizon, 1.0);
      var intervals := if carry > 0.0 || MAX_PAYBACK <= horizon then MAX_PAYBACK else horizon;
      Some(Max(friction - Scale(carry, intervals), 0.0) / available / clip)
  }

  lemma RequirementInDollars(friction: real, carry: real, horizon: real, clip: real, edge: real)
    requires friction >= 0.0 && horizon > 0.0 && clip > 0.0 && edge >= 0.0
    ensures var available := Min(MAX_PAYBACK / horizon, 1.0);
      var intervals := if carry > 0.0 || MAX_PAYBACK <= horizon then MAX_PAYBACK else horizon;
      available > 0.0 &&
      (edge >= RequiredEdge(friction, carry, horizon, clip).value <==>
         Scale(available, Scale(edge, clip)) + Scale(carry, intervals) >= friction)
  {
    var available := Min(MAX_PAYBACK / horizon, 1.0);
    var intervals := if carry > 0.0 || MAX_PAYBACK <= horizon then MAX_PAYBACK else horizon;
    DivideThenMultiply(MAX_PAYBACK, horizon, 0.0);
    var needed := Max(friction - Scale(carry, intervals), 0.0);
    assert Scale(edge, clip) == Scale(clip, edge);
    ScaleKeepsOrder(clip, 0.0, edge);
    ScaleKeepsOrder(available, 0.0, Scale(clip, edge));
    ScaleDistributes(clip, 0.0, 0.0);
    ScaleDistributes(available, 0.0, 0.0);
    hide Scale;
    AtMostQuotient(needed / available, clip, edge);
    AtMostQuotient(needed, available, Scale(clip, edge));
  }

  lemma AtMostQuotient(x: real, rate: real, t: real)
    requires rate > 0.0
    ensures x / rate <= t <==> x <= Scale(rate, t)
  {
    QuotientReaches(x, rate, t);
    hide Scale;
  }

  /** The best a non-negative edge can show within the longest payback. */
  lemma RepaidInTime(friction: real, w: Forecast)
    requires friction > 0.0 && w.horizon > 0.0 && w.price >= 0.0
    ensures var available := Min(MAX_PAYBACK / w.horizon, 1.0);
      var intervals := if w.carry > 0.0 || MAX_PAYBACK <= w.horizon then MAX_PAYBACK else w.horizon;
      (exists t | t <= MAX_PAYBACK :: Repaid(friction, w, t)) <==>
        Scale(available, w.price) + Scale(w.carry, intervals) >= friction
  {
    var available := Min(MAX_PAYBACK / w.horizon, 1.0);
    var intervals := if w.carry > 0.0 || MAX_PAYBACK <= w.horizon then MAX_PAYBACK else w.horizon;
    EarnedAtBest(w);
    var best := Min(intervals, MAX_PAYBACK);
    hide Scale, Rate;
    if exists t | t <= MAX_PAYBACK :: Repaid(friction, w, t) {
      var t :| t <= MAX_PAYBACK && Repaid(friction, w, t);
      NoneBetter(friction, w, t);
    }
    if Scale(available, w.price) + Scale(w.carry, intervals) >= friction {
      assert Repaid(friction, w, intervals);
    }
  }

  lemma EarnedAtBest(w: Forecast)
    requires w.horizon > 0.0
    ensures var available := Min(MAX_PAYBACK / w.horizon, 1.0);
      var intervals := if w.carry > 0.0 || MAX_PAYBACK <= w.horizon then MAX_PAYBACK else w.horizon;
      0.0 <= intervals <= MAX_PAYBACK && Earned(w, intervals) == Scale(available, w.price) + Scale(w.carry, intervals)
  {
    DivideThenMultiply(MAX_PAYBACK, w.horizon, 1.0);
    assert Scale(w.price / w.horizon, w.horizon) == w.price;
    assert Scale(MAX_PAYBACK / w.horizon, w.price) == Scale(w.price / w.horizon, MAX_PAYBACK);
    assert Scale(1.0, w.price) == w.price;
    hide Scale;
  }

  lemma NoneBetter(friction: real, w: Forecast, t: real)
    requires friction > 0.0 && w.horizon > 0.0 && w.price >= 0.0 && t <= MAX_PAYBACK && Repaid(friction, w, t)
    ensures var intervals := if w.carry > 0.0 || MAX_PAYBACK <= w.horizon then MAX_PAYBACK else w.horizon;
      Repaid(friction, w, intervals)
  {
    RepaidAtHorizon(friction, w);
    assert w.price / w.horizon >= 0.0 by { DivideThenMultiply(w.price, w.horizon, 0.0); }
    if t <= w.horizon {
      RepaidWithin(friction, w, t);
      RepaidWithin(friction, w, Min(MAX_PAYBACK, w.horizon));
    } else if !Repaid(friction, w, w.horizon) {
      RepaidBeyond(friction, w, t);
      RepaidBeyond(friction, w, MAX_PAYBACK);
    }
    hide Scale, Earned, Repaid;
  }

  /** The solver's cut-off misses the break-even; one with nothing to repay is reached at once. */
  predicate Overlooked(friction: real, w: Forecast)
    requires w.horizon > 0.0
  {
    if friction == 0.0 then Rate(w) <= CUTOFF else Missed(friction, w)
  }

  /** With nothing to repay, the requirement asks for a rate that is not negative. */
  lemma RequirementOfNothing(carry: real, horizon: real, clip: real, edge: real)
    requires horizon > 0.0 && clip > 0.0 && edge >= 0.0
    ensures edge >= RequiredEdge(0.0, carry, horizon, clip).value
        <==> Rate(Forecast(Scale(edge, clip), carry, horizon)) >= 0.0
  {
    var w := Forecast(Scale(edge, clip), carry, horizon);
    assert w.price >= 0.0;
    RequirementInDollars(0.0, carry, horizon, clip, edge);
    EarnedAtBest(w);
    var intervals := if w.carry > 0.0 || MAX_PAYBACK <= w.horizon then MAX_PAYBACK else w.horizon;
    assert w.price / w.horizon >= 0.0 by { DivideThenMultiply(w.price, w.horizon, 0.0); }
    if intervals <= w.horizon {
      BeforeHorizon(w, intervals);
      ScaleSign(Rate(w), intervals);
    } else {
      AfterHorizon(w, intervals);
      ScaleSign(w.carry, intervals);
    }
    hide Scale, Earned, RequiredEdge;
  }

  lemma PaidAtOnce(w: Forecast)
    requires w.horizon > 0.0 && w.price >= 0.0
    ensures var t := Intervals(0.0, w);
      (t.Some? && t.value <= MAX_PAYBACK) <==> Rate(w) > CUTOFF
  {
    assert w.carry > CUTOFF ==> (0.0 - w.price) / w.carry <= 0.0 by {
      if w.carry > CUTOFF {
        DivideThenMultiply(0.0 - w.price, w.carry, 0.0);
      }
    }
    hide Rate;
  }

  /** The solver's payback is within the limit exactly when the price edge meets the requirement, unless
      the break-even is one the solver's cut-off misses. */
  lemma ThresholdInvertsPayback(friction: real, carry: real, horizon: real, clip: real, edge: real)
    requires friction >= 0.0 && horizon > 0.0 && clip > 0.0 && edge >= 0.0
    ensures var w := Forecast(Scale(edge, clip), carry, horizon);
      var t := Intervals(friction, w);
      ((t.Some? && t.value <= MAX_PAYBACK) <==> edge >= RequiredEdge(friction, carry, horizon, clip).value)
      <==> !(Overlooked(friction, w) && edge >= RequiredEdge(friction, carry, horizon, clip).value)
  {
    var w := Forecast(Scale(edge, clip), carry, horizon);
    assert w.price >= 0.0;
    if friction == 0.0 {
      RequirementOfNothing(carry, horizon, clip, edge);
      PaidAtOnce(w);
    } else {
      RequirementInDollars(friction, carry, horizon, clip, edge);
      RepaidInTime(friction, w);
      PaybackIsLeast(friction, w);
    }
    hide Scale, Earned, Rate, RequiredEdge, Intervals;
  }

  /** Such a break-even exists: a carry at half the cut-off repays the friction within eight intervals and
      meets the requirement at no edge at all, yet the solver reports no payback. */
  lemma CutOffMissesAPayback()
    ensures var friction, w := 0.000000004, Forecast(0.0, 0.0000000005, 10.0);
      && Repaid(friction, w, 8.0) && Missed(friction, w) && Intervals(friction, w) == None
      && RequiredEdge(friction, w.carry, w.horizon, 1.0) == Some(0.0)
  {
    var friction, w := 0.000000004, Forecast(0.0, 0.0000000005, 10.0);
    RepaidWithin(friction, w, 10.0);
    assert Rate(w) == 0.0000000005;
    assert Scale(w.carry, 10.0) == 0.000000005;
  }
}
