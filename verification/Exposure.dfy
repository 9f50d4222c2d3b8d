/** What the achieved-safety check buys, told by what market moves do to equity.

    A move gives every marked symbol the fraction its mark changes by.  Equity responds linearly, so each
    bound of the check is a bound on the response to one move; the check accepts exactly the accounts whose
    responses are within all of them. */
module Exposure {
  import opened Results
  import opened Sums
  import opened LegLifecycle
  import opened LegLaws
  import opened Ledger
  import opened Reconcile

  type Move = map<string, real>

  /** The marks after a move; a symbol the move does not name keeps its mark. */
  function Moved(marks: map<string, real>, move: Move): map<string, real>
  {
    map s | s in marks :: if s in move then marks[s] + move[s] * marks[s] else marks[s]
  }

  /** What a move adds to equity. */
  ghost function Response(a: Account, marks: map<string, real>, move: Move): real
  {
    Equity(a, Moved(marks, move)) - Equity(a, marks)
  }

  // ----- The moves -----

  /** Every held mark moves against its position by its whole value. */
  function Adverse(a: Account): Move
  {
    map s | s in a.positions :: if a.positions[s].direction.Long? then -1.0 else 1.0
  }

  function Everything(a: Account): Move
  {
    map s | s in a.positions :: 1.0
  }

  /** The market doubles, and each symbol follows by its beta; one without a beta follows one to one. */
  function WithMarket(a: Account, betas: map<string, real>): Move
  {
    map s | s in a.positions :: if s in betas then betas[s] else 1.0
  }

  function Alone(move: Move, symbol: string): Move
  {
    map s | s in move && s == symbol :: move[s]
  }

  function Scaled(move: Move, size: real): Move
  {
    map s | s in move :: size * move[s]
  }

  // ----- Equity responds linearly -----

  /** What one symbol contributes to the response. */
  function Part(a: Account, marks: map<string, real>, move: Move, s: string): real
    requires s in a.positions && s in marks
  {
    if s in move then Scale(move[s], Scale(SignedQty(Some(a.positions[s])), marks[s])) else 0.0
  }

  function Parts(a: Account, marks: map<string, real>, move: Move): map<string, real>
  {
    map s | s in a.positions && s in marks :: Part(a, marks, move, s)
  }

  lemma ResponseIsSum(a: Account, marks: map<string, real>, move: Move)
    ensures Response(a, marks, move) == Sum(Parts(a, marks, move))
  {
    var moved := Moved(marks, move);
    var before, after, parts := UnrealizedBySymbol(a, marks), UnrealizedBySymbol(a, moved), Parts(a, marks, move);
    hide Unrealized, SignedQty, Sum;
    forall s | s in before ensures after[s] == before[s] + parts[s] {
      if s in move {
        ShockOne(a.positions[s], marks[s], move[s]);
        assert moved[s] == marks[s] + Scale(move[s], marks[s]);
      }
    }
    SumPlus(before, parts, after);
  }

  /** A move `size` times as large changes equity by `size` times as much. */
  lemma ResponseScales(a: Account, marks: map<string, real>, move: Move, size: real)
    ensures Response(a, marks, Scaled(move, size)) == Scale(size, Response(a, marks, move))
  {
    hide Sum, SignedQty, Response;
    ResponseIsSum(a, marks, move);
    ResponseIsSum(a, marks, Scaled(move, size));
    var parts, scaled := Parts(a, marks, move), Parts(a, marks, Scaled(move, size));
    forall s | s in parts ensures scaled[s] == Scale(size, parts[s]) {
      if s in move {
        ScaleTwice(size, move[s], Scale(SignedQty(Some(a.positions[s])), marks[s]));
      } else {
        ScaleDistributes(size, 0.0, 0.0);
      }
    }
    SumScaled(parts, size, scaled);
  }

  lemma ScaleTwice(f: real, g: real, x: real)
    ensures Scale(f * g, x) == Scale(f, Scale(g, x)) && Scale(1.0, x) == x && Scale(-1.0, x) == -x
  {
  }

  /** A symbol's own move responds with its own part. */
  lemma AloneResponds(a: Account, marks: map<string, real>, move: Move, symbol: string)
    requires symbol in a.positions && symbol in marks
    ensures Response(a, marks, Alone(move, symbol)) == Part(a, marks, move, symbol)
  {
    hide Sum, SignedQty, Response, Scale;
    ResponseIsSum(a, marks, Alone(move, symbol));
    var parts := Parts(a, marks, Alone(move, symbol));
    SumRemove(parts, symbol);
    ZerosAddNothing(parts - {symbol});
  }

  lemma {:induction false} ZerosAddNothing(m: map<string, real>)
    requires forall s | s in m :: m[s] == 0.0
    ensures Sum(m) == 0.0
    decreases |m|
  {
    if m == map[] {
    } else {
      var s :| s in m;
      SumRemove(m, s);
      ZerosAddNothing(m - {s});
    }
  }

  // ----- The bounds as responses -----

  ghost predicate Marked(a: Account, marks: map<string, real>)
  {
    Sound(a) && forall s | s in a.positions :: s in marks && marks[s] > 0.0
  }

  /** What the account loses if every position goes against it: its gross exposure. */
  ghost function Gross(a: Account, marks: map<string, real>): real
  {
    -Response(a, marks, Adverse(a))
  }

  lemma AdverseIsGross(a: Account, marks: map<string, real>)
    requires Marked(a, marks)
    ensures Gross(a, marks) == Sum(Magnitudes(Notionals(a, marks)))
  {
    hide Sum, Response;
    ResponseIsSum(a, marks, Adverse(a));
    var parts, sizes := Parts(a, marks, Adverse(a)), Magnitudes(Notionals(a, marks));
    forall s | s in parts ensures parts[s] == Scale(-1.0, sizes[s]) {
      AdversePart(a.positions[s], marks[s]);
    }
    hide Scale, SignedQty;
    SumScaled(sizes, -1.0, parts);
    ScaleTwice(1.0, 1.0, Sum(sizes));
  }

  lemma AdversePart(p: Position, mark: real)
    requires p.qty > 0.0 && mark > 0.0
    ensures var n := Scale(SignedQty(Some(p)), mark);
      Scale(if p.direction.Long? then -1.0 else 1.0, n) == Scale(-1.0, Abs(n))
  {
    assert p.qty * mark > 0.0;
    assert (-p.qty) * mark == -(p.qty * mark);
  }

  lemma EverythingIsNet(a: Account, marks: map<string, real>)
    ensures Response(a, marks, Everything(a)) == Sum(Notionals(a, marks))
  {
    hide Sum, Response, SignedQty;
    ResponseIsSum(a, marks, Everything(a));
    assert Parts(a, marks, Everything(a)) == Notionals(a, marks);
  }

  lemma MarketPart(a: Account, marks: map<string, real>, betas: map<string, real>, s: string)
    requires s in a.positions && s in marks
    ensures Part(a, marks, WithMarket(a, betas), s) == BetaDollars(a, marks, betas)[s]
  {
    var n := Scale(SignedQty(Some(a.positions[s])), marks[s]);
    ScalesCommute(if s in betas then betas[s] else 1.0, n, 1.0);
    hide SignedQty;
  }

  lemma MarketIsBeta(a: Account, marks: map<string, real>, betas: map<string, real>)
    ensures Response(a, marks, WithMarket(a, betas)) == Sum(BetaDollars(a, marks, betas))
    ensures forall s | s in BetaDollars(a, marks, betas) ::
      Response(a, marks, Alone(WithMarket(a, betas), s)) == BetaDollars(a, marks, betas)[s]
  {
    hide Sum, Response, SignedQty, Part;
    ResponseIsSum(a, marks, WithMarket(a, betas));
    var beta := BetaDollars(a, marks, betas);
    forall s | s in beta
      ensures Parts(a, marks, WithMarket(a, betas))[s] == beta[s]
           && Response(a, marks, Alone(WithMarket(a, betas), s)) == beta[s]
    {
      MarketPart(a, marks, betas, s);
      AloneResponds(a, marks, WithMarket(a, betas), s);
    }
    assert Parts(a, marks, WithMarket(a, betas)) == beta;
  }

  lemma OwnMoveIsNotional(a: Account, marks: map<string, real>)
    ensures forall s | s in Notionals(a, marks) ::
      Response(a, marks, Alone(Everything(a), s)) == Notionals(a, marks)[s]
  {
    hide Sum, Response, SignedQty;
    var n := Notionals(a, marks);
    forall s | s in n ensures Response(a, marks, Alone(Everything(a), s)) == n[s] {
      AloneResponds(a, marks, Everything(a), s);
      ScaleTwice(1.0, 1.0, n[s]);
    }
  }

  /** The check accepts exactly the solvent accounts for which: gross exposure is between the minimum
      deployment and 1.15 of equity; a move common to all marks costs at most a tenth of gross, times the
      move; a market move followed by beta at most 0.15 of equity; one symbol's own move at most 0.35 of
      gross; its market move at most 0.60 of equity; and a move of bitcoin at most half of equity if it sits in a
      hedge seat.  Every bound carries the code's tolerance of 1e-12. */
  lemma SafeExactly(a: Account, marks: map<string, real>, betas: map<string, real>, minimumDeploy: real)
    requires Marked(a, marks)
    ensures AchievedSafe(a, marks, betas, minimumDeploy) <==>
      var equity, gross := Equity(a, marks), Gross(a, marks);
      && equity > 0.0
      && Scale(minimumDeploy - 0.000000000001, equity) <= gross <= Scale(1.150000000001, equity)
      && Abs(Response(a, marks, Everything(a))) <= Scale(0.100000000001, gross)
      && Abs(Response(a, marks, WithMarket(a, betas))) <= Scale(0.150000000001, equity)
      && (forall s | s in a.positions ::
            Abs(Response(a, marks, Alone(Everything(a), s))) <= Scale(0.350000000001, gross))
      && (forall s | s in a.positions ::
            Abs(Response(a, marks, Alone(WithMarket(a, betas), s))) <= Scale(0.600000000001, equity))
      && (BTC in a.positions && a.positions[BTC].seatRole.Hedge? ==>
            Abs(Response(a, marks, Alone(Everything(a), BTC))) <= Scale(0.500000000001, equity))
  {
    hide Sum, Response, Gross, Equity, BetaDollars, Notionals, Everything, WithMarket, Alone, Magnitudes, HedgeNotional,
         WithinBounds, Marked, Abs, Scale;
    AdverseIsGross(a, marks);
    EverythingIsNet(a, marks);
    MarketIsBeta(a, marks, betas);
    OwnMoveIsNotional(a, marks);
    ExposureKeys(a, marks, betas);
    HedgeIsItsNotional(a, marks);
    var n, beta := Notionals(a, marks), BetaDollars(a, marks, betas);
    NoSize(Equity(a, marks));
    BoundsInNumbers(Equity(a, marks), Sum(Magnitudes(n)), Sum(n), Sum(beta), n, beta, HedgeNotional(a, marks),
                    minimumDeploy);
  }

  lemma NoSize(equity: real)
    ensures Abs(0.0) == 0.0 && (equity > 0.0 ==> Scale(0.500000000001, equity) >= 0.0)
  {
  }

  lemma HedgeIsItsNotional(a: Account, marks: map<string, real>)
    requires Marked(a, marks)
    ensures HedgeNotional(a, marks) ==
      if BTC in a.positions && a.positions[BTC].seatRole.Hedge? then Notionals(a, marks)[BTC] else 0.0
  {
    hide SignedQty, Scale;
  }

  lemma BoundsInNumbers(equity: real, gross: real, net: real, betaNet: real, notionals: map<string, real>,
                        beta: map<string, real>, hedge: real, minimumDeploy: real)
    ensures WithinBounds(equity, gross, net, betaNet, notionals, beta, hedge, minimumDeploy) <==>
      && equity > 0.0
      && Scale(minimumDeploy - 0.000000000001, equity) <= gross <= Scale(1.150000000001, equity)
      && Abs(net) <= Scale(0.100000000001, gross)
      && Abs(betaNet) <= Scale(0.150000000001, equity)
      && (forall s | s in notionals :: Abs(notionals[s]) <= Scale(0.350000000001, gross))
      && (forall s | s in beta :: Abs(beta[s]) <= Scale(0.600000000001, equity))
      && Abs(hedge) <= Scale(0.500000000001, equity)
  {
    hide Abs;
  }

  lemma ExposureKeys(a: Account, marks: map<string, real>, betas: map<string, real>)
    requires Marked(a, marks)
    ensures BetaDollars(a, marks, betas).Keys == Notionals(a, marks).Keys == a.positions.Keys
  {
    hide SignedQty, Scale;
  }

  /** For a market move of any size and sign, an accepted account moves by at most 0.15 of equity times the
      move, up to the tolerance, and each leg by at most 0.60 of it. */
  lemma MarketShockIsBounded(a: Account, marks: map<string, real>, betas: map<string, real>, minimumDeploy: real,
                             shock: real)
    requires Marked(a, marks) && AchievedSafe(a, marks, betas, minimumDeploy)
    ensures Abs(Response(a, marks, Scaled(WithMarket(a, betas), shock)))
         <= Scale(Abs(shock), Scale(0.150000000001, Equity(a, marks)))
    ensures forall s | s in a.positions ::
      Abs(Response(a, marks, Scaled(Alone(WithMarket(a, betas), s), shock)))
      <= Scale(Abs(shock), Scale(0.600000000001, Equity(a, marks)))
  {
    SafeInMarket(a, marks, betas, minimumDeploy);
    hide AchievedSafe, Response, Equity, Scale, Scaled, Alone, WithMarket, Abs;
    ResponseScales(a, marks, WithMarket(a, betas), shock);
    BoundScales(shock, Response(a, marks, WithMarket(a, betas)), Scale(0.150000000001, Equity(a, marks)));
    forall s | s in a.positions
      ensures Abs(Response(a, marks, Scaled(Alone(WithMarket(a, betas), s), shock)))
           <= Scale(Abs(shock), Scale(0.600000000001, Equity(a, marks)))
    {
      ResponseScales(a, marks, Alone(WithMarket(a, betas), s), shock);
      BoundScales(shock, Response(a, marks, Alone(WithMarket(a, betas), s)), Scale(0.600000000001, Equity(a, marks)));
    }
  }

  lemma SafeInMarket(a: Account, marks: map<string, real>, betas: map<string, real>, minimumDeploy: real)
    requires Marked(a, marks) && AchievedSafe(a, marks, betas, minimumDeploy)
    ensures Abs(Response(a, marks, WithMarket(a, betas))) <= Scale(0.150000000001, Equity(a, marks))
    ensures forall s | s in a.positions ::
      Abs(Response(a, marks, Alone(WithMarket(a, betas), s))) <= Scale(0.600000000001, Equity(a, marks))
  {
    hide AchievedSafe, Response, Equity, Gross, Alone, WithMarket, Everything, Marked, Abs;
    SafeExactly(a, marks, betas, minimumDeploy);
  }

  lemma BoundScales(f: real, x: real, bound: real)
    requires Abs(x) <= bound
    ensures Abs(Scale(f, x)) <= Scale(Abs(f), bound)
  {
    ScaleOfSizes(f, x);
    if f == 0.0 {
      ScaleTwice(0.0, 0.0, bound);
      assert Scale(0.0, bound) == 0.0;
    } else {
      ScaleKeepsOrder(Abs(f), Abs(x), bound);
    }
  }
}
