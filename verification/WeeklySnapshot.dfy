/** Ranking the weekly universe and fixing its two sleeves.

    Building ranks the markets twice, by volume and then by performance; the snapshot's own validator
    ranks them again from what it is given.  The two always agree, and neither depends on the order the
    markets arrive in. */
module WeeklySnapshot {
  import opened Results
  import opened Sorting

  /** One market with its scores; `liquidityRank` and `performanceRank` are 0 until assigned. */
  datatype Market = Market(symbol: string, volume: real, priceReturn: real, fundingReturn: real, totalReturn: real,
                           events: nat, liquidityRank: nat, performanceRank: nat)

  datatype Score = Score(fundingReturn: real, totalReturn: real, events: nat)

  datatype Snapshot = Snapshot(markets: seq<Market>, longs: seq<string>, shorts: seq<string>, auditComplete: bool)

  // ----- The deterministic order -----

  /** Strings compare character by character. */
  predicate Less(a: string, b: string)
  {
    b != [] && (a == [] || a[0] < b[0] || (a[0] == b[0] && Less(a[1..], b[1..])))
  }

  lemma {:induction false} LessIsTotal(a: string, b: string)
    ensures Less(a, b) || Less(b, a) || a == b
    ensures !(Less(a, b) && Less(b, a)) && !Less(a, a)
  {
    if a != [] && b != [] && a[0] == b[0] {
      LessIsTotal(a[1..], b[1..]);
      assert a == [a[0]] + a[1..] && b == [b[0]] + b[1..];
    }
    if a == [] {
    } else {
      LessIsTotal(a[1..], a[1..]);
    }
  }

  lemma {:induction false} LessIsTransitive(a: string, b: string, c: string)
    requires Less(a, b) && Less(b, c)
    ensures Less(a, c)
  {
    if a != [] && a[0] == b[0] && b[0] == c[0] {
      LessIsTransitive(a[1..], b[1..], c[1..]);
    }
  }

  datatype Order = ByVolume | ByReturn

  function Value(o: Order, m: Market): real
  {
    if o.ByVolume? then m.volume else m.totalReturn
  }

  /** Larger values first; equal values by symbol. */
  predicate Ahead(o: Order, a: Market, b: Market)
  {
    Value(o, a) > Value(o, b) || (Value(o, a) == Value(o, b) && Less(a.symbol, b.symbol))
  }

  lemma AheadIsStrict(o: Order, a: Market, b: Market)
    ensures !(Ahead(o, a, b) && Ahead(o, b, a))
    ensures a.symbol != b.symbol ==> Ahead(o, a, b) || Ahead(o, b, a)
  {
    LessIsTotal(a.symbol, b.symbol);
  }

  lemma NotAheadIsTransitive(o: Order, a: Market, b: Market, c: Market)
    requires !Ahead(o, b, a) && !Ahead(o, c, b)
    ensures !Ahead(o, c, a)
  {
    LessIsTotal(a.symbol, b.symbol);
    LessIsTotal(b.symbol, c.symbol);
    LessIsTotal(a.symbol, c.symbol);
    if Less(a.symbol, b.symbol) && Less(b.symbol, c.symbol) {
      LessIsTransitive(a.symbol, b.symbol, c.symbol);
    }
  }

  function Ranked(o: Order, ms: seq<Market>): (r: seq<Market>)
    ensures multiset(r) == multiset(ms) && |r| == |ms|
  {
    Sort((a, b) => Ahead(o, a, b), ms)
  }

  lemma AheadIsAnOrder(o: Order)
    ensures WeakOrder((a, b) => Ahead(o, a, b))
  {
    var before := (a, b) => Ahead(o, a, b);
    forall a, b | before(a, b) ensures !before(b, a) {
      AheadIsStrict(o, a, b);
    }
    forall a, b, c | !before(b, a) && !before(c, b) ensures !before(c, a) {
      NotAheadIsTransitive(o, a, b, c);
    }
  }

  predicate DistinctSymbols(ms: seq<Market>)
  {
    forall i, j | 0 <= i < j < |ms| :: ms[i].symbol != ms[j].symbol
  }

  lemma SymbolsStayDistinct(a: seq<Market>, b: seq<Market>)
    requires DistinctSymbols(a) && multiset(a) == multiset(b)
    ensures DistinctSymbols(b)
  {
    SameElements(a, b);
    DistinctByIndex(a);
    assert Distinct(b) by { hide DistinctSymbols; }
    forall i, j | 0 <= i < j < |b| ensures b[i].symbol != b[j].symbol {
      DistinctElements(b, i, j);
      assert b[i] in a && b[j] in a;
    }
  }

  lemma RankedDescends(o: Order, ms: seq<Market>)
    requires DistinctSymbols(ms)
    ensures Ascending((a, b) => Ahead(o, a, b), Ranked(o, ms))
  {
    var r := Ranked(o, ms);
    AheadIsAnOrder(o);
    SortIsSorted((a, b) => Ahead(o, a, b), ms);
    SymbolsStayDistinct(ms, r);
    hide Ahead, Sort, WeakOrder;
    forall i, j | 0 <= i < j < |r| ensures Ahead(o, r[i], r[j]) {
      AheadIsStrict(o, r[i], r[j]);
    }
  }

  /** Ranking does not depend on the order of arrival. */
  lemma RankingIgnoresOrder(o: Order, a: seq<Market>, b: seq<Market>)
    requires DistinctSymbols(a) && multiset(a) == multiset(b)
    ensures Ranked(o, a) == Ranked(o, b)
  {
    SymbolsStayDistinct(a, b);
    RankedDescends(o, a);
    RankedDescends(o, b);
    AheadIsAnOrder(o);
    hide Ranked, Ahead, WeakOrder;
    AscendingIsUnique((a, b) => Ahead(o, a, b), Ranked(o, a), Ranked(o, b));
  }

  // ----- Building -----

  datatype Metric = Metric(symbol: string, volume: real, priceReturn: real)

  function Unscored(m: Metric): Market
  {
    Market(m.symbol, m.volume, m.priceReturn, 0.0, 0.0, 0, 0, 0)
  }

  function AllUnscored(metrics: seq<Metric>): (r: seq<Market>)
    ensures |r| == |metrics| && forall i | 0 <= i < |metrics| :: r[i] == Unscored(metrics[i])
  {
    seq(|metrics|, i requires 0 <= i < |metrics| => Unscored(metrics[i]))
  }

  /** The position of a symbol in a ranking, counted from one; 0 if absent. */
  function RankOf(ms: seq<Market>, symbol: string): nat
  {
    if ms == [] then 0
    else if ms[|ms| - 1].symbol == symbol then |ms|
    else RankOf(ms[..|ms| - 1], symbol)
  }

  function Scored(m: Market, rank: nat, score: Score): Market
  {
    m.(liquidityRank := rank, fundingReturn := score.fundingReturn, totalReturn := score.totalReturn,
      events := score.events)
  }

  function WithRank(performance: seq<Market>, m: Market): Market
  {
    m.(performanceRank := RankOf(performance, m.symbol))
  }

  function Symbols(ms: seq<Market>): (r: seq<string>)
    ensures |r| == |ms| && forall i | 0 <= i < |ms| :: r[i] == ms[i].symbol
  {
    seq(|ms|, i requires 0 <= i < |ms| => ms[i].symbol)
  }

  function Top(ms: seq<Market>, n: nat): seq<Market>
  {
    if n <= |ms| then ms[..n] else ms
  }

  /** The last `n` rows as Python slices them: a bound of zero keeps the whole list. */
  function Bottom(ms: seq<Market>, n: nat): seq<Market>
  {
    if n == 0 || n > |ms| then ms else ms[|ms| - n..]
  }

  /** The checks a snapshot makes of itself. */
  predicate Valid(s: Snapshot)
  {
    var performance, sleeve := Ranked(ByReturn, s.markets), |s.longs|;
    && s.auditComplete
    && DistinctSymbols(s.markets)
    && (forall i | 0 <= i < |s.markets| :: s.markets[i].liquidityRank == i + 1)
    && (forall i | 0 <= i < |s.markets| :: s.markets[i].performanceRank == RankOf(performance, s.markets[i].symbol))
    && sleeve != 0 && |s.shorts| == sleeve && |s.markets| >= 2 * sleeve
    && s.longs == Symbols(Top(performance, sleeve)) && s.shorts == Symbols(Bottom(performance, sleeve))
    && forall symbol | symbol in s.longs :: symbol !in s.shorts
  }

  function Assembled(scored: seq<Market>, sleeve: nat, audit: bool): Snapshot
  {
    var performance := Ranked(ByReturn, scored);
    Snapshot(Map(m => WithRank(performance, m), scored), Symbols(Top(performance, sleeve)),
             Symbols(Bottom(performance, sleeve)), audit)
  }

  function ScoredMarkets(liquid: seq<Market>, scores: map<string, Score>): (r: seq<Market>)
    requires forall m | m in liquid :: m.symbol in scores
    ensures |r| == |liquid|
    ensures forall i | 0 <= i < |liquid| :: r[i] == Scored(liquid[i], i + 1, scores[liquid[i].symbol])
  {
    seq(|liquid|, i requires 0 <= i < |liquid| => Scored(liquid[i], i + 1, scores[liquid[i].symbol]))
  }

  predicate Scorable(metrics: seq<Metric>, scores: map<string, Score>, universe: nat)
  {
    && DistinctSymbols(AllUnscored(metrics)) && |metrics| >= universe
    && forall m | m in Ranked(ByVolume, AllUnscored(metrics))[..universe] :: m.symbol in scores
  }

  function SnapshotOf(metrics: seq<Metric>, scores: map<string, Score>, universe: nat, sleeve: nat,
                      audit: bool): Snapshot
    requires Scorable(metrics, scores, universe)
  {
    Assembled(ScoredMarkets(Ranked(ByVolume, AllUnscored(metrics))[..universe], scores), sleeve, audit)
  }

  /** Attaches liquidity ranks and weekly scores, market by market. */
  method ScoreAll(liquid: seq<Market>, scores: map<string, Score>) returns (r: Result<seq<Market>>)
    ensures r.Ok? <==> forall m | m in liquid :: m.symbol in scores
    ensures r.Ok? ==> r.value == ScoredMarkets(liquid, scores)
  {
    var scored: seq<Market> := [];
    for i := 0 to |liquid|
      invariant |scored| == i
      invariant forall k | 0 <= k < i :: liquid[k].symbol in scores
      invariant forall k | 0 <= k < i :: scored[k] == Scored(liquid[k], k + 1, scores[liquid[k].symbol])
    {
      if liquid[i].symbol !in scores {
        assert liquid[i] in liquid;
        return Err("market lacks a weekly score");
      }
      scored := scored + [Scored(liquid[i], i + 1, scores[liquid[i].symbol])];
    }
    return Ok(scored);
  }

  /** Ranks liquidity, scores each liquid market, ranks performance, and validates the result. */
  method BuildWeeklySnapshot(metrics: seq<Metric>, scores: map<string, Score>, universe: nat, sleeve: nat, audit: bool)
      returns (r: Result<Snapshot>)
    ensures r.Ok? <==> Scorable(metrics, scores, universe) && audit && 0 < sleeve && 2 * sleeve <= universe
    ensures r.Ok? ==> r.value == SnapshotOf(metrics, scores, universe, sleeve, audit) && Valid(r.value)
    ensures r.Ok? ==> KeepsLargest(metrics, r.value.markets, universe) && CarriesScores(r.value.markets, scores)
    ensures r.Ok? ==> PicksBestAndWorst(r.value, scores, sleeve) && RankCountsBetter(r.value.markets, scores)
  {
    hide Ranked, Valid, Assembled, DistinctSymbols, Scored, KeepsLargest, CarriesScores, PicksBestAndWorst,
         RankCountsBetter;
    var all := AllUnscored(metrics);
    if !DistinctSymbols(all) {
      return Err("duplicate market metrics");
    }
    var liquid := Top(Ranked(ByVolume, all), universe);
    if |liquid| != universe {
      return Err("too few eligible markets");
    }
    var scored := ScoreAll(liquid, scores);
    if scored.Err? {
      return Err(scored.reason);
    }
    SnapshotValidExactly(metrics, scores, universe, sleeve, audit);
    if 2 * sleeve <= universe {
      SnapshotSelects(metrics, scores, universe, sleeve, audit);
    }
    var snapshot := Assembled(scored.value, sleeve, audit);
    if !Valid(snapshot) {
      return Err("weekly snapshot selection is inconsistent");
    }
    return Ok(snapshot);
  }

  // ----- The validator agrees with the builder -----

  lemma {:induction false} RankSurvives(performance: seq<Market>, ms: seq<Market>, symbol: string)
    ensures RankOf(Map(m => WithRank(performance, m), ms), symbol) == RankOf(ms, symbol)
  {
    if ms == [] {
    } else {
      var f := m => WithRank(performance, m);
      assert Map(f, ms)[..|ms| - 1] == Map(f, ms[..|ms| - 1]);
      RankSurvives(performance, ms[..|ms| - 1], symbol);
    }
  }

  /** Ranking the finished rows gives the ranking they were assigned from. */
  lemma RankedAgain(scored: seq<Market>)
    ensures var performance := Ranked(ByReturn, scored);
      var f := (m: Market) => WithRank(performance, m);
      Ranked(ByReturn, Map(f, scored)) == Map(f, performance)
  {
    var performance := Ranked(ByReturn, scored);
    hide RankOf, Less, Sort;
    assert Preserves((a, b) => Ahead(ByReturn, a, b), m => WithRank(performance, m));
    SortCommutes((a, b) => Ahead(ByReturn, a, b), m => WithRank(performance, m), scored);
  }

  lemma LiquidIsDistinct(metrics: seq<Metric>, scores: map<string, Score>, universe: nat)
    requires Scorable(metrics, scores, universe)
    ensures var scored := ScoredMarkets(Ranked(ByVolume, AllUnscored(metrics))[..universe], scores);
      DistinctSymbols(scored) && |scored| == universe
      && forall i | 0 <= i < |scored| :: scored[i].liquidityRank == i + 1
  {
    SymbolsStayDistinct(AllUnscored(metrics), Ranked(ByVolume, AllUnscored(metrics)));
    SameElements(AllUnscored(metrics), Ranked(ByVolume, AllUnscored(metrics)));
    hide Ranked;
  }

  lemma SleevesAreDisjoint(performance: seq<Market>, sleeve: nat)
    requires DistinctSymbols(performance) && 0 < sleeve && 2 * sleeve <= |performance|
    ensures forall symbol | symbol in Symbols(Top(performance, sleeve)) ::
        symbol !in Symbols(Bottom(performance, sleeve))
  {
    var longs, shorts := Symbols(Top(performance, sleeve)), Symbols(Bottom(performance, sleeve));
    forall i, j | 0 <= i < |longs| && 0 <= j < |shorts| ensures longs[i] != shorts[j] {
      assert longs[i] == performance[i].symbol && shorts[j] == performance[|performance| - sleeve + j].symbol;
    }
  }

  lemma AgreesOnSleeves(scored: seq<Market>, sleeve: nat)
    ensures var performance := Ranked(ByReturn, scored);
      var again := Ranked(ByReturn, Map(m => WithRank(performance, m), scored));
      && Symbols(Top(again, sleeve)) == Symbols(Top(performance, sleeve))
      && Symbols(Bottom(again, sleeve)) == Symbols(Bottom(performance, sleeve))
      && forall symbol :: RankOf(again, symbol) == RankOf(performance, symbol)
  {
    var performance := Ranked(ByReturn, scored);
    RankedAgain(scored);
    hide Ranked, RankOf;
    forall symbol
      ensures RankOf(Map(m => WithRank(performance, m), performance), symbol) == RankOf(performance, symbol)
    {
      RankSurvives(performance, performance, symbol);
    }
  }

  /** What is left to check of an assembled snapshot. */
  lemma {:induction false} AssembledValidExactly(scored: seq<Market>, sleeve: nat, audit: bool)
    requires DistinctSymbols(scored) && forall i | 0 <= i < |scored| :: scored[i].liquidityRank == i + 1
    ensures Valid(Assembled(scored, sleeve, audit)) <==> audit && 0 < sleeve && 2 * sleeve <= |scored|
  {
    var performance := Ranked(ByReturn, scored);
    var s := Assembled(scored, sleeve, audit);
    AgreesOnSleeves(scored, sleeve);
    SymbolsStayDistinct(scored, performance);
    hide Ranked, RankOf, Symbols;
    if 0 < sleeve && 2 * sleeve <= |scored| {
      SleevesAreDisjoint(performance, sleeve);
    }
  }

  /** A snapshot the builder assembles passes its own validation exactly when its candle audit is complete
      and its sleeves are non-empty and fit the universe; the rank and sleeve checks never fail. */
  lemma SnapshotValidExactly(metrics: seq<Metric>, scores: map<string, Score>, universe: nat,
                             sleeve: nat, audit: bool)
    requires Scorable(metrics, scores, universe)
    ensures Valid(SnapshotOf(metrics, scores, universe, sleeve, audit))
        <==> audit && 0 < sleeve && 2 * sleeve <= universe
  {
    LiquidIsDistinct(metrics, scores, universe);
    hide Ranked, Valid, Assembled, DistinctSymbols;
    AssembledValidExactly(ScoredMarkets(Ranked(ByVolume, AllUnscored(metrics))[..universe], scores), sleeve, audit);
  }

  /** Nor does the snapshot depend on the order the markets arrive in. */
  lemma SnapshotIgnoresOrder(a: seq<Metric>, b: seq<Metric>, scores: map<string, Score>, universe: nat,
                             sleeve: nat, audit: bool)
    requires Scorable(a, scores, universe) && multiset(a) == multiset(b)
    ensures Scorable(b, scores, universe)
    ensures SnapshotOf(a, scores, universe, sleeve, audit) == SnapshotOf(b, scores, universe, sleeve, audit)
  {
    UnscoredPermutes(a, b);
    SymbolsStayDistinct(AllUnscored(a), AllUnscored(b));
    RankingIgnoresOrder(ByVolume, AllUnscored(a), AllUnscored(b));
    SameElements(a, b);
    hide Ranked, Assembled, DistinctSymbols;
  }

  function MetricOf(m: Market): Metric
  {
    Metric(m.symbol, m.volume, m.priceReturn)
  }

  lemma UnscoredCons(m: Metric, ms: seq<Metric>)
    ensures AllUnscored([m] + ms) == [Unscored(m)] + AllUnscored(ms)
  {
  }

  lemma {:induction false} UnscoredCounts(ms: seq<Metric>, x: Market)
    ensures multiset(AllUnscored(ms))[x] == if x == Unscored(MetricOf(x)) then multiset(ms)[MetricOf(x)] else 0
  {
    if ms == [] {
      assert AllUnscored(ms) == [];
    } else {
      hide AllUnscored;
      var m, rest := ms[0], ms[1..];
      assert ms == [m] + rest;
      UnscoredCounts(rest, x);
      UnscoredCons(m, rest);
      assert multiset(ms) == multiset{m} + multiset(rest);
      assert multiset(AllUnscored(ms)) == multiset{Unscored(m)} + multiset(AllUnscored(rest));
    }
  }

  lemma UnscoredPermutes(a: seq<Metric>, b: seq<Metric>)
    requires multiset(a) == multiset(b)
    ensures multiset(AllUnscored(a)) == multiset(AllUnscored(b))
  {
    hide Unscored, AllUnscored;
    forall x ensures multiset(AllUnscored(a))[x] == multiset(AllUnscored(b))[x] {
      UnscoredCounts(a, x);
      UnscoredCounts(b, x);
    }
  }

  // ----- What is selected -----

  /** The symbols of the markets kept are markets of the input with at least the volume of every one left out;
      they are listed by volume, and equal volumes go by symbol. */
  ghost predicate KeepsLargest(metrics: seq<Metric>, kept: seq<Market>, universe: nat)
  {
    && |kept| == universe
    && (forall i | 0 <= i < |kept| :: MetricOf(kept[i]) in metrics && kept[i].liquidityRank == i + 1)
    && (forall i, j | 0 <= i < j < |kept| ::
          kept[i].volume >= kept[j].volume
          && (kept[i].volume == kept[j].volume ==> Less(kept[i].symbol, kept[j].symbol)))
    && (forall i, m | 0 <= i < |kept| && m in metrics && m.symbol !in Symbols(kept) ::
          kept[i].volume >= m.volume && (kept[i].volume == m.volume ==> Less(kept[i].symbol, m.symbol)))
  }

  ghost predicate CarriesScores(kept: seq<Market>, scores: map<string, Score>)
  {
    forall i | 0 <= i < |kept| ::
      kept[i].symbol in scores
      && Score(kept[i].fundingReturn, kept[i].totalReturn, kept[i].events) == scores[kept[i].symbol]
  }

  /** `a` has the larger total return, or the same one and the smaller symbol. */
  predicate Outperforms(scores: map<string, Score>, a: string, b: string)
    requires a in scores && b in scores
  {
    && scores[a].totalReturn >= scores[b].totalReturn
    && (scores[a].totalReturn == scores[b].totalReturn ==> Less(a, b))
  }

  /** Every long outperforms every market that is not long, every market that is not short outperforms every
      short, and both sleeves are listed best first. */
  ghost predicate PicksBestAndWorst(s: Snapshot, scores: map<string, Score>, sleeve: nat)
  {
    var kept := Symbols(s.markets);
    && (forall x | x in kept + s.longs + s.shorts :: x in scores && x in kept)
    && |s.longs| == |s.shorts| == sleeve
    && (forall i, j | 0 <= i < j < sleeve :: Outperforms(scores, s.longs[i], s.longs[j]))
    && (forall i, j | 0 <= i < j < sleeve :: Outperforms(scores, s.shorts[i], s.shorts[j]))
    && (forall l, x | l in s.longs && x in kept && x !in s.longs :: Outperforms(scores, l, x))
    && (forall t, x | t in s.shorts && x in kept && x !in s.shorts :: Outperforms(scores, x, t))
  }

  ghost function Better(kept: seq<string>, scores: map<string, Score>, symbol: string): set<string>
    requires symbol in scores
  {
    set x | x in kept && x in scores && Outperforms(scores, x, symbol)
  }

  /** A market's performance rank is one more than the number of markets that outperform it. */
  ghost predicate RankCountsBetter(kept: seq<Market>, scores: map<string, Score>)
  {
    forall i | 0 <= i < |kept| ::
      kept[i].symbol in scores && kept[i].performanceRank == 1 + |Better(Symbols(kept), scores, kept[i].symbol)|
  }

  /** The smaller string is the one that ends first or has the smaller character where they first differ. */
  lemma {:induction false} LessAtFirstDifference(a: string, b: string, k: nat)
    requires k <= |a| && k <= |b| && a[..k] == b[..k]
    requires if k < |a| && k < |b| then a[k] < b[k] else k == |a| < |b|
    ensures Less(a, b)
  {
    if k == 0 {
    } else {
      assert a[0] == a[..k][0] && b[0] == b[..k][0];
      assert a[1..][..k - 1] == a[..k][1..] && b[1..][..k - 1] == b[..k][1..];
      LessAtFirstDifference(a[1..], b[1..], k - 1);
    }
  }

  lemma VolumeDescends(ms: seq<Market>, i: nat, j: nat)
    requires DistinctSymbols(ms) && i < j < |Ranked(ByVolume, ms)|
    ensures var a, b := Ranked(ByVolume, ms)[i], Ranked(ByVolume, ms)[j];
      a.volume >= b.volume && (a.volume == b.volume ==> Less(a.symbol, b.symbol))
  {
    RankedDescends(ByVolume, ms);
    hide Ranked, Less;
    assert Ahead(ByVolume, Ranked(ByVolume, ms)[i], Ranked(ByVolume, ms)[j]);
  }

  lemma ReturnDescends(ms: seq<Market>, i: nat, j: nat)
    requires DistinctSymbols(ms) && i < j < |Ranked(ByReturn, ms)|
    ensures var a, b := Ranked(ByReturn, ms)[i], Ranked(ByReturn, ms)[j];
      a.totalReturn >= b.totalReturn && (a.totalReturn == b.totalReturn ==> Less(a.symbol, b.symbol))
  {
    RankedDescends(ByReturn, ms);
    hide Ranked, Less;
    assert Ahead(ByReturn, Ranked(ByReturn, ms)[i], Ranked(ByReturn, ms)[j]);
  }

  lemma KeptIsGiven(metrics: seq<Metric>, i: nat)
    requires i < |metrics|
    ensures MetricOf(Ranked(ByVolume, AllUnscored(metrics))[i]) in metrics
  {
    var all := AllUnscored(metrics);
    var ranked := Ranked(ByVolume, all);
    SameElements(all, ranked);
    hide Ranked;
    assert ranked[i] in all;
    var k :| 0 <= k < |all| && all[k] == ranked[i];
    assert MetricOf(ranked[i]) == metrics[k];
  }

  lemma LeftOutIsSmaller(metrics: seq<Metric>, universe: nat, i: nat, m: Metric)
    requires DistinctSymbols(AllUnscored(metrics)) && i < universe <= |metrics| && m in metrics
    requires m.symbol !in Symbols(Ranked(ByVolume, AllUnscored(metrics))[..universe])
    ensures var a := Ranked(ByVolume, AllUnscored(metrics))[i];
      a.volume >= m.volume && (a.volume == m.volume ==> Less(a.symbol, m.symbol))
  {
    var all := AllUnscored(metrics);
    var ranked := Ranked(ByVolume, all);
    SameElements(all, ranked);
    hide Ranked, Less, DistinctSymbols;
    forall n: nat | n < universe ensures ranked[n].symbol in Symbols(ranked[..universe]) {
      assert Symbols(ranked[..universe])[n] == ranked[n].symbol;
    }
    var k :| 0 <= k < |metrics| && metrics[k] == m;
    assert all[k] in ranked;
    var j :| 0 <= j < |ranked| && ranked[j] == all[k];
    VolumeDescends(all, i, j);
  }

  lemma KeptLargest(metrics: seq<Metric>, scores: map<string, Score>, universe: nat)
    requires Scorable(metrics, scores, universe)
    ensures var scored := ScoredMarkets(Ranked(ByVolume, AllUnscored(metrics))[..universe], scores);
      KeepsLargest(metrics, scored, universe) && CarriesScores(scored, scores)
  {
    hide Ranked, Less, DistinctSymbols;
    var all := AllUnscored(metrics);
    var scored := ScoredMarkets(Ranked(ByVolume, all)[..universe], scores);
    assert Symbols(scored) == Symbols(Ranked(ByVolume, all)[..universe]);
    forall i | 0 <= i < universe ensures MetricOf(scored[i]) in metrics {
      KeptIsGiven(metrics, i);
    }
    forall i, j | 0 <= i < j < universe
      ensures scored[i].volume >= scored[j].volume
           && (scored[i].volume == scored[j].volume ==> Less(scored[i].symbol, scored[j].symbol)) {
      VolumeDescends(all, i, j);
    }
    forall i, m | 0 <= i < universe && m in metrics && m.symbol !in Symbols(scored)
      ensures scored[i].volume >= m.volume && (scored[i].volume == m.volume ==> Less(scored[i].symbol, m.symbol)) {
      LeftOutIsSmaller(metrics, universe, i, m);
    }
  }

  lemma {:induction false} RankAt(ms: seq<Market>, k: nat)
    requires DistinctSymbols(ms) && k < |ms|
    ensures RankOf(ms, ms[k].symbol) == k + 1
  {
    if k == |ms| - 1 {
    } else {
      RankAt(ms[..|ms| - 1], k);
    }
  }

  lemma {:induction false} DistinctCount(ss: seq<string>)
    requires forall i, j | 0 <= i < j < |ss| :: ss[i] != ss[j]
    ensures |set x | x in ss| == |ss|
  {
    if ss == [] {
    } else {
      var front, last := ss[..|ss| - 1], ss[|ss| - 1];
      DistinctCount(front);
      assert (set x | x in ss) == (set x | x in front) + {last};
    }
  }

  /** Of two markets in a ranking the earlier outperforms the later, and only it. */
  lemma RankedOutperforms(scored: seq<Market>, scores: map<string, Score>, i: nat, j: nat)
    requires DistinctSymbols(scored) && CarriesScores(scored, scores)
    requires i < j < |Ranked(ByReturn, scored)|
    ensures var a, b := Ranked(ByReturn, scored)[i].symbol, Ranked(ByReturn, scored)[j].symbol;
      a in scores && b in scores && Outperforms(scores, a, b) && !Outperforms(scores, b, a)
  {
    var p := Ranked(ByReturn, scored);
    SameElements(scored, p);
    ReturnDescends(scored, i, j);
    LessIsTotal(p[i].symbol, p[j].symbol);
    hide Ranked, Less, DistinctSymbols;
    assert p[i] in scored && p[j] in scored;
  }

  lemma BetterAreEarlier(scored: seq<Market>, scores: map<string, Score>, k: nat)
    requires DistinctSymbols(scored) && CarriesScores(scored, scores) && k < |Ranked(ByReturn, scored)|
    ensures var p := Ranked(ByReturn, scored);
      p[k].symbol in scores && |Better(Symbols(scored), scores, p[k].symbol)| == k
  {
    var p := Ranked(ByReturn, scored);
    SameElements(scored, p);
    SymbolsStayDistinct(scored, p);
    assert p[k] in scored;
    var earlier := Symbols(p[..k]);
    DistinctCount(earlier);
    SameSymbols(scored, p);
    LessIsTotal(p[k].symbol, p[k].symbol);
    hide Ranked, Less, CarriesScores;
    forall x ensures x in Better(Symbols(scored), scores, p[k].symbol) <==> x in earlier {
      if x in Symbols(p) {
        var j :| 0 <= j < |p| && Symbols(p)[j] == x;
        if j < k {
          assert earlier[j] == x;
          RankedOutperforms(scored, scores, j, k);
        } else if j > k {
          RankedOutperforms(scored, scores, k, j);
        }
        assert x in earlier ==> j < k;
      }
      assert x in earlier ==> x in Symbols(p);
    }
    assert Better(Symbols(scored), scores, p[k].symbol) == set x | x in earlier;
  }

  lemma SameSymbols(a: seq<Market>, b: seq<Market>)
    requires multiset(a) == multiset(b)
    ensures forall x :: x in Symbols(a) <==> x in Symbols(b)
  {
    SameElements(a, b);
    forall x ensures x in Symbols(a) <==> x in Symbols(b) {
      if x in Symbols(a) {
        var i :| 0 <= i < |a| && Symbols(a)[i] == x;
        assert a[i] in b;
      }
      if x in Symbols(b) {
        var i :| 0 <= i < |b| && Symbols(b)[i] == x;
        assert b[i] in a;
      }
    }
  }

  /** Assigning performance ranks changes nothing else of a market. */
  lemma OnlyTheRankChanges(scored: seq<Market>, metrics: seq<Metric>, scores: map<string, Score>, universe: nat)
    requires KeepsLargest(metrics, scored, universe) && CarriesScores(scored, scores)
    ensures var performance := Ranked(ByReturn, scored);
      var kept := Map(m => WithRank(performance, m), scored);
      KeepsLargest(metrics, kept, universe) && CarriesScores(kept, scores) && Symbols(kept) == Symbols(scored)
  {
    hide Ranked, RankOf, Less;
    var performance := Ranked(ByReturn, scored);
    var kept := Map(m => WithRank(performance, m), scored);
    assert Symbols(kept) == Symbols(scored);
    forall i | 0 <= i < |kept| ensures kept[i].(performanceRank := 0) == scored[i].(performanceRank := 0) {
    }
  }

  lemma RanksCount(scored: seq<Market>, scores: map<string, Score>)
    requires DistinctSymbols(scored) && CarriesScores(scored, scores)
    ensures var performance := Ranked(ByReturn, scored);
      var kept := Map(m => WithRank(performance, m), scored);
      Symbols(kept) == Symbols(scored) && RankCountsBetter(kept, scores)
  {
    var performance := Ranked(ByReturn, scored);
    var kept := Map(m => WithRank(performance, m), scored);
    assert Symbols(kept) == Symbols(scored);
    SameElements(scored, performance);
    SymbolsStayDistinct(scored, performance);
    hide Ranked, RankOf, DistinctSymbols, Better;
    forall i | 0 <= i < |kept|
      ensures kept[i].symbol in scores
           && kept[i].performanceRank == 1 + |Better(Symbols(kept), scores, kept[i].symbol)| {
      assert scored[i] in performance;
      var k :| 0 <= k < |performance| && performance[k] == scored[i];
      RankAt(performance, k);
      BetterAreEarlier(scored, scores, k);
    }
  }

  /** Where a symbol of the sleeves stands in the ranking. */
  lemma SleevePositions(p: seq<Market>, sleeve: nat)
    requires DistinctSymbols(p) && 0 < sleeve && 2 * sleeve <= |p|
    ensures forall i | 0 <= i < |p| :: p[i].symbol in Symbols(Top(p, sleeve)) <==> i < sleeve
    ensures forall i | 0 <= i < |p| :: p[i].symbol in Symbols(Bottom(p, sleeve)) <==> i >= |p| - sleeve
    ensures |Symbols(Top(p, sleeve))| == |Symbols(Bottom(p, sleeve))| == sleeve
    ensures forall i | 0 <= i < sleeve ::
      Symbols(Top(p, sleeve))[i] == p[i].symbol && Symbols(Bottom(p, sleeve))[i] == p[|p| - sleeve + i].symbol
  {
    var longs, shorts := Symbols(Top(p, sleeve)), Symbols(Bottom(p, sleeve));
    forall i | 0 <= i < |p| ensures p[i].symbol in longs <==> i < sleeve {
      assert i < sleeve ==> longs[i] == p[i].symbol;
    }
    forall i | 0 <= i < |p| ensures p[i].symbol in shorts <==> i >= |p| - sleeve {
      assert i >= |p| - sleeve ==> shorts[i - (|p| - sleeve)] == p[i].symbol;
    }
  }

  lemma SleevesAreExtremes(scored: seq<Market>, scores: map<string, Score>, sleeve: nat, audit: bool)
    requires DistinctSymbols(scored) && CarriesScores(scored, scores) && 0 < sleeve && 2 * sleeve <= |scored|
    ensures PicksBestAndWorst(Assembled(scored, sleeve, audit), scores, sleeve)
  {
    var p := Ranked(ByReturn, scored);
    var s := Assembled(scored, sleeve, audit);
    assert Symbols(s.markets) == Symbols(scored) by { hide Ranked, RankOf; }
    SymbolsStayDistinct(scored, p);
    SameSymbols(scored, p);
    SleevePositions(p, sleeve);
    SymbolsCarry(scored, scores);
    forall i, j | 0 <= i < j < |p|
      ensures p[i].symbol in scores && p[j].symbol in scores && Outperforms(scores, p[i].symbol, p[j].symbol) {
      RankedOutperforms(scored, scores, i, j);
    }
    ExtremesOf(p, Symbols(s.markets), s.longs, s.shorts, scores, sleeve);
    hide Ranked, RankOf, Outperforms, DistinctSymbols, Top, Bottom, Symbols;
  }

  lemma SymbolsCarry(kept: seq<Market>, scores: map<string, Score>)
    requires CarriesScores(kept, scores)
    ensures forall x | x in Symbols(kept) :: x in scores
  {
  }

  lemma ExtremesOf(p: seq<Market>, kept: seq<string>, longs: seq<string>, shorts: seq<string>,
                   scores: map<string, Score>, sleeve: nat)
    requires 2 * sleeve <= |p| && |longs| == |shorts| == sleeve
    requires forall x :: x in kept <==> x in Symbols(p)
    requires forall i | 0 <= i < sleeve :: longs[i] == p[i].symbol && shorts[i] == p[|p| - sleeve + i].symbol
    requires forall i, j | 0 <= i < j < |p| ::
      p[i].symbol in scores && p[j].symbol in scores && Outperforms(scores, p[i].symbol, p[j].symbol)
    requires forall x | x in kept :: x in scores
    ensures forall x | x in longs + shorts :: x in kept
    ensures forall i, j | 0 <= i < j < sleeve :: Outperforms(scores, longs[i], longs[j])
    ensures forall i, j | 0 <= i < j < sleeve :: Outperforms(scores, shorts[i], shorts[j])
    ensures forall l, x | l in longs && x in kept && x !in longs :: Outperforms(scores, l, x)
    ensures forall t, x | t in shorts && x in kept && x !in shorts :: Outperforms(scores, x, t)
  {
    hide Outperforms;
    forall n: nat | n < sleeve ensures p[n].symbol in longs {
      assert longs[n] == p[n].symbol;
    }
    forall n: nat | |p| - sleeve <= n < |p| ensures p[n].symbol in shorts {
      assert shorts[n - (|p| - sleeve)] == p[n].symbol;
    }
    forall x | x in longs + shorts ensures x in kept {
      if x in longs {
        var i :| 0 <= i < sleeve && longs[i] == x;
        assert Symbols(p)[i] == x;
      } else {
        var i :| 0 <= i < sleeve && shorts[i] == x;
        assert Symbols(p)[|p| - sleeve + i] == x;
      }
    }
    forall l, x | l in longs && x in kept && x !in longs ensures Outperforms(scores, l, x) {
      var i :| 0 <= i < sleeve && longs[i] == l;
      var j :| 0 <= j < |p| && Symbols(p)[j] == x;
      assert Outperforms(scores, p[i].symbol, p[j].symbol);
    }
    forall t, x | t in shorts && x in kept && x !in shorts ensures Outperforms(scores, x, t) {
      var i :| 0 <= i < sleeve && shorts[i] == t;
      var j :| 0 <= j < |p| && Symbols(p)[j] == x;
      assert Outperforms(scores, p[j].symbol, p[|p| - sleeve + i].symbol);
    }
    forall i, j | 0 <= i < j < sleeve ensures Outperforms(scores, shorts[i], shorts[j]) {
      assert Outperforms(scores, p[|p| - sleeve + i].symbol, p[|p| - sleeve + j].symbol);
    }
  }

  /** What a snapshot selects, told from the input alone. */
  lemma SnapshotSelects(metrics: seq<Metric>, scores: map<string, Score>, universe: nat, sleeve: nat, audit: bool)
    requires Scorable(metrics, scores, universe) && 2 * sleeve <= universe
    ensures var s := SnapshotOf(metrics, scores, universe, sleeve, audit);
      && KeepsLargest(metrics, s.markets, universe) && CarriesScores(s.markets, scores)
      && RankCountsBetter(s.markets, scores)
      && (0 < sleeve ==> PicksBestAndWorst(s, scores, sleeve))
  {
    var scored := ScoredMarkets(Ranked(ByVolume, AllUnscored(metrics))[..universe], scores);
    LiquidIsDistinct(metrics, scores, universe);
    KeptLargest(metrics, scores, universe);
    OnlyTheRankChanges(scored, metrics, scores, universe);
    RanksCount(scored, scores);
    if 0 < sleeve {
      SleevesAreExtremes(scored, scores, sleeve, audit);
    }
    hide Ranked, KeepsLargest, CarriesScores, RankCountsBetter, PicksBestAndWorst, DistinctSymbols, ScoredMarkets;
  }

  // ----- What the validator accepts -----

  /** The scores a snapshot carries itself. */
  ghost function OwnScores(ms: seq<Market>): map<string, Score>
  {
    if ms == [] then map[]
    else
      var m := ms[|ms| - 1];
      OwnScores(ms[..|ms| - 1])[m.symbol := Score(m.fundingReturn, m.totalReturn, m.events)]
  }

  lemma {:induction false} CarriesItsOwn(ms: seq<Market>)
    requires DistinctSymbols(ms)
    ensures CarriesScores(ms, OwnScores(ms))
  {
    if ms == [] {
    } else {
      var front := ms[..|ms| - 1];
      CarriesItsOwn(front);
      assert forall i | 0 <= i < |front| :: front[i] == ms[i];
    }
  }

  /** Any snapshot that validates, whoever built it, has a complete audit, distinct markets in liquidity
      order, true performance ranks, and the best and the worst markets as disjoint sleeves of one size. */
  lemma ValidMeans(s: Snapshot)
    requires Valid(s)
    ensures s.auditComplete && DistinctSymbols(s.markets)
    ensures forall i | 0 <= i < |s.markets| :: s.markets[i].liquidityRank == i + 1
    ensures 0 < |s.longs| && 2 * |s.longs| <= |s.markets| && forall symbol | symbol in s.longs :: symbol !in s.shorts
    ensures CarriesScores(s.markets, OwnScores(s.markets))
    ensures PicksBestAndWorst(s, OwnScores(s.markets), |s.longs|)
    ensures RankCountsBetter(s.markets, OwnScores(s.markets))
  {
    var p, scores := Ranked(ByReturn, s.markets), OwnScores(s.markets);
    CarriesItsOwn(s.markets);
    SleevesAreExtremes(s.markets, scores, |s.longs|, s.auditComplete);
    RanksCount(s.markets, scores);
    var again := Assembled(s.markets, |s.longs|, s.auditComplete);
    assert again.longs == s.longs && again.shorts == s.shorts;
    assert again.markets == s.markets by { SameRanks(s); }
    hide Ranked, RankOf, DistinctSymbols, Top, Bottom, OwnScores, CarriesScores, PicksBestAndWorst, RankCountsBetter;
  }

  lemma SameRanks(s: Snapshot)
    requires Valid(s)
    ensures var performance := Ranked(ByReturn, s.markets); Map(m => WithRank(performance, m), s.markets) == s.markets
  {
    hide Ranked, RankOf, DistinctSymbols, Top, Bottom;
  }
}
