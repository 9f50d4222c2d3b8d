/** Selling into the bids.  Subtracting every price from one above the best bid turns the bid side into an ask
    side on which the same walk fills the same, so every law of the asks has a mirror image. */
module BidBook {
  import opened Sums
  import opened OrderBook

  function Mirrored(levels: seq<Level>, k: real): (m: seq<Level>)
    ensures |m| == |levels|
    ensures forall i | 0 <= i < |levels| :: m[i] == Level(k - levels[i].price, levels[i].qty)
  {
    seq(|levels|, i requires 0 <= i < |levels| => Level(k - levels[i].price, levels[i].qty))
  }

  /** A price above every bid. */
  function Beyond(levels: seq<Level>): real
  {
    if levels == [] then 0.0 else levels[0].price + 1.0
  }

  lemma {:induction false} BestBidFirst(levels: seq<Level>, i: nat)
    requires Ladder(levels, Bids) && i < |levels|
    ensures levels[i].price < Beyond(levels)
  {
    if i > 0 {
      BestBidFirst(levels, i - 1);
      assert Ordered(Bids, levels[i - 1].price, levels[i].price);
    }
  }

  lemma MirrorIsAsks(levels: seq<Level>)
    requires Ladder(levels, Bids)
    ensures Ladder(Mirrored(levels, Beyond(levels)), Asks)
  {
    forall i | 0 <= i < |levels| ensures levels[i].price < Beyond(levels) {
      BestBidFirst(levels, i);
    }
    forall i | 0 < i < |levels| ensures levels[i].price < levels[i - 1].price {
      assert Ordered(Bids, levels[i - 1].price, levels[i].price);
    }
    hide Beyond;
  }

  /** The same walk on the mirror fills the same and costs the complement. */
  function Complement(w: Walked, k: real): Walked
  {
    Walked(w.filled, Scale(k, w.filled) - w.cost)
  }

  lemma TakenMirrors(k: real, price: real, take: real, rest: Walked)
    ensures Scale(k - price, take) == Scale(k, take) - Scale(price, take)
    ensures Scale(k, take + rest.filled) == Scale(k, take) + Scale(k, rest.filled)
    ensures Scale(k, 0.0) == 0.0
  {
  }

  lemma {:induction false} WalkMirrors(levels: seq<Level>, k: real, x: real)
    ensures Walk(Mirrored(levels, k), x) == Complement(Walk(levels, x), k)
  {
    hide Scale;
    TakenMirrors(k, 0.0, 0.0, Walked(0.0, 0.0));
    if levels != [] {
      var take := Min(x, levels[0].qty);
      assert Mirrored(levels, k)[1..] == Mirrored(levels[1..], k);
      TakenMirrors(k, levels[0].price, take, Walk(levels[1..], x - take));
      WalkMirrors(levels[1..], k, x - take);
    }
  }

  lemma FillMirrors(levels: seq<Level>, k: real, x: real)
    ensures Fill(Mirrored(levels, k), x) == Complement(Fill(levels, x), k)
  {
    WalkMirrors(levels, k, x);
    TakenMirrors(k, 0.0, 0.0, Walked(0.0, 0.0));
    hide Walk, Scale;
  }

  lemma {:induction false} CostMirrors(levels: seq<Level>, taken: seq<real>, k: real)
    requires |taken| == |levels|
    ensures CostOf(Mirrored(levels, k), taken) == Scale(k, Quantity(taken)) - CostOf(levels, taken)
  {
    hide Scale;
    if levels == [] {
      TakenMirrors(k, 0.0, 0.0, Walked(0.0, 0.0));
    } else {
      assert Mirrored(levels, k)[1..] == Mirrored(levels[1..], k);
      TakenMirrors(k, levels[0].price, taken[0], Walked(Quantity(taken[1..]), 0.0));
      CostMirrors(levels[1..], taken[1..], k);
    }
  }

  lemma {:induction false} TotalMirrors(levels: seq<Level>, k: real)
    ensures Total(Mirrored(levels, k)) == Total(levels)
  {
    if levels == [] {
    } else {
      assert Mirrored(levels, k)[1..] == Mirrored(levels[1..], k);
      TotalMirrors(levels[1..], k);
    }
  }

  lemma AverageMirrors(w: Walked, k: real)
    requires w.filled > 0.0
    ensures Average(Complement(w, k)) == k - Average(w)
  {
    var a := w.cost / w.filled;
    assert a * w.filled == w.cost;
    assert Scale(k, w.filled) - w.cost == (k - a) * w.filled;
    assert (k - a) * w.filled / w.filled == k - a;
  }

  /** Selling by walking the bids fills the quantity, up to dust, or the whole ladder, and no other way of
      selling what it filled earns more. */
  lemma FillIsDearest(levels: seq<Level>, qty: real, taken: seq<real>)
    requires Ladder(levels, Bids) && Takes(levels, taken) && Quantity(taken) == Fill(levels, qty).filled
    ensures CostOf(levels, taken) <= Fill(levels, qty).cost
    ensures qty > 0.0 ==> var filled := Fill(levels, qty).filled;
      filled <= qty && (filled == Total(levels) || filled >= qty - 0.000000000001)
  {
    var k := Beyond(levels);
    MirrorIsAsks(levels);
    FillMirrors(levels, k, qty);
    CostMirrors(levels, taken, k);
    TotalMirrors(levels, k);
    FillIsCheapest(Mirrored(levels, k), qty, taken);
    hide Ladder, Scale, Fill, Total;
  }

  lemma SomethingFilled(levels: seq<Level>, qty: real)
    requires Ladder(levels, Bids) && levels != [] && qty > 0.0
    ensures Fill(levels, qty).filled > 0.0
  {
    MirrorIsAsks(levels);
    FillMirrors(levels, Beyond(levels), qty);
    WalkIsCheapest(Mirrored(levels, Beyond(levels)), qty);
    hide Ladder, Scale, Walk;
  }

  /** The average price of a sale never rises with its size. */
  lemma AverageNeverRises(levels: seq<Level>, x: real, y: real)
    requires Ladder(levels, Bids) && levels != [] && 0.0 < x <= y
    ensures Average(Fill(levels, x)) >= Average(Fill(levels, y))
  {
    var k := Beyond(levels);
    MirrorIsAsks(levels);
    SomethingFilled(levels, x);
    SomethingFilled(levels, y);
    FillMirrors(levels, k, x);
    FillMirrors(levels, k, y);
    AverageMirrors(Fill(levels, x), k);
    AverageMirrors(Fill(levels, y), k);
    AverageNeverFalls(Mirrored(levels, k), x, y);
    hide Ladder, Scale, Fill, Average;
  }

  lemma {:induction false} GapMirrors(levels: seq<Level>, k: real, remaining: real, f: real)
    ensures DustGap(Mirrored(levels, k), remaining, f) == DustGap(levels, remaining, f)
  {
    hide Scale;
    if levels == [] {
    } else {
      assert Mirrored(levels, k)[1..] == Mirrored(levels[1..], k);
      GapMirrors(levels[1..], k, remaining - Min(remaining, levels[0].qty), f);
    }
  }

  lemma HaircutIsLadder(levels: seq<Level>, f: real)
    requires Ladder(levels, Bids) && f > 0.0
    ensures Ladder(Haircut(levels, f), Bids)
  {
    forall i | 0 <= i < |levels| ensures Scale(f, levels[i].qty) > 0.0 {
      ScaleSign(f, levels[i].qty);
    }
    hide Scale;
    forall i | 0 < i < |levels| ensures Ordered(Bids, levels[i - 1].price, levels[i].price) {
    }
  }

  /** On the bids too the haircut keeps the average price exactly when no boundary remainder falls in the dust
      gap; in the gap it reports a strictly higher one. */
  lemma HaircutKeepsBidAverageExactly(levels: seq<Level>, qty: real, f: real)
    requires Ladder(levels, Bids) && levels != [] && qty > 0.0 && 0.0 < f <= 1.0
    ensures var full, cut := Average(Fill(levels, qty)), Average(Fill(Haircut(levels, f), Scale(f, qty)));
      (cut == full <==> !DustGap(levels, qty, f)) && cut >= full
  {
    var k := Beyond(levels);
    MirrorIsAsks(levels);
    assert Haircut(Mirrored(levels, k), f) == Mirrored(Haircut(levels, f), k);
    ScaleSign(f, qty);
    HaircutIsLadder(levels, f);
    SomethingFilled(levels, qty);
    SomethingFilled(Haircut(levels, f), Scale(f, qty));
    FillMirrors(levels, k, qty);
    FillMirrors(Haircut(levels, f), k, Scale(f, qty));
    AverageMirrors(Fill(levels, qty), k);
    AverageMirrors(Fill(Haircut(levels, f), Scale(f, qty)), k);
    GapMirrors(levels, k, qty, f);
    HaircutKeepsAverageExactly(Mirrored(levels, k), qty, f);
    hide Ladder, Scale, Fill, Average, DustGap;
  }

  /** A bid curve measured on the full book, looked up at the haircut-adjusted size, never overstates what the
      sale earns on the haircut book. */
  lemma BidLookupIsConservative(levels: seq<Level>, mid: real, sizes: seq<real>, notional: real, f: real)
    requires Ladder(levels, Bids) && levels != [] && mid > 0.0 && 0.0 < f <= 1.0 && notional > 0.0
    requires Lookup(Measured(levels, mid, sizes), notional / f).Some?
    ensures Average(Fill(Haircut(levels, f), notional / mid))
         >= Lookup(Measured(levels, mid, sizes), notional / f).value
  {
    var curve, size := Measured(levels, mid, sizes), notional / f;
    LookupFindsTier(curve, size);
    var i :| 0 <= i < |curve| && size <= curve[i].notional && curve[i].price == Lookup(curve, size).value;
    AskedQuantity(notional, mid, f);
    SizesCompare(size, curve[i].notional, mid);
    HaircutKeepsBidAverageExactly(levels, size / mid, f);
    AverageNeverRises(levels, size / mid, curve[i].notional / mid);
    hide Ladder, Scale, Fill, Average, DustGap, Lookup;
  }

  lemma AskedQuantity(notional: real, mid: real, f: real)
    requires mid > 0.0 && f > 0.0 && notional > 0.0
    ensures notional / f > 0.0 && notional / f / mid > 0.0 && notional / mid == Scale(f, notional / f / mid)
  {
    var size := notional / f;
    assert size * f == notional;
    var qty := size / mid;
    assert qty * mid == size;
    assert notional == f * qty * mid;
  }

  lemma SizesCompare(a: real, b: real, mid: real)
    requires a <= b && mid > 0.0
    ensures a / mid <= b / mid
  {
  }
}
