/** From the PM's book to one want per symbol, sized at the decision marks, and its agreement with the legs
    that the account is later asked to execute. */
module DecisionBook {
  import opened Results
  import opened Sums
  import opened Lots
  import opened LegLifecycle
  import opened Ledger
  import opened BookLaws
  import opened Basket

  /** The signed decision notional and the role of every symbol in the book. */
  datatype Decided = Decided(net: map<string, real>, roles: map<string, SeatRole>)

  function WithLeg(d: Decided, leg: FillLeg): Decided
  {
    var s := leg.symbol;
    var before := if s in d.net then d.net[s] else 0.0;
    Decided(d.net[s := if leg.direction.Long? then before + leg.targetNotional else before - leg.targetNotional],
            if leg.role.Alpha? || s !in d.roles then d.roles[s := leg.role] else d.roles)
  }

  function Decision(book: seq<FillLeg>): Decided
  {
    if book == [] then Decided(map[], map[]) else WithLeg(Decision(book[..|book| - 1]), book[|book| - 1])
  }

  /** The first loop of the execution audit. */
  method Decide(book: seq<FillLeg>) returns (d: Decided)
    ensures d == Decision(book)
  {
    d := Decided(map[], map[]);
    for i := 0 to |book|
      invariant d == Decision(book[..i])
    {
      assert book[..i + 1][..i] == book[..i];
      d := WithLeg(d, book[i]);
    }
    assert book[..|book|] == book;
  }

  /** A book holds positive target notionals only. */
  predicate Sized(book: seq<FillLeg>)
  {
    forall leg | leg in book :: leg.targetNotional > 0.0
  }

  function MarkOf(marks: map<string, real>, s: string): real
  {
    if s in marks then marks[s] else 0.0
  }

  /** What the audit wants of one symbol of the book or of the account. */
  function WantOf(a: Account, book: seq<FillLeg>, decision: map<string, real>, execution: map<string, real>,
                  venue: Venue, s: string): Want
  {
    var d, held := Decision(book), Held(a, s);
    Want(if s in d.net then d.net[s] else 0.0,
         if s in d.roles then d.roles[s] else if held.Some? then held.value.seatRole else Alpha,
         MarkOf(decision, s), MarkOf(execution, s), held, venue)
  }

  // ----- Agreement with the account's own consolidation -----

  /** The total size of one symbol's legs in one direction. */
  function SizeOn(legs: seq<FillLeg>, s: string, direction: Direction): real
  {
    if legs == [] then 0.0
    else
      var leg := legs[|legs| - 1];
      SizeOn(legs[..|legs| - 1], s, direction)
      + if leg.symbol == s && leg.direction == direction then Abs(leg.targetNotional) else 0.0
  }

  /** A symbol's net target is the size of its long legs less the size of its short legs. */
  lemma {:induction false} NetIsLongsLessShorts(legs: seq<FillLeg>, s: string)
    ensures var c := Consolidate(legs);
      (if s in c.net then c.net[s] else 0.0) == SizeOn(legs, s, Long) - SizeOn(legs, s, Short)
    ensures NetAt(legs, s) == SizeOn(legs, s, Long) - SizeOn(legs, s, Short)
  {
    ConsolidatedNet(legs, s);
    if legs == [] {
    } else {
      NetIsLongsLessShorts(legs[..|legs| - 1], s);
      hide Consolidate;
    }
  }

  lemma NetsAlike(d: Decided, c: Consolidated, leg: FillLeg)
    requires d.roles == c.roles && d.net.Keys == c.net.Keys
    ensures WithLeg(d, leg).roles == Netted(c, leg).roles && WithLeg(d, leg).net.Keys == Netted(c, leg).net.Keys
    ensures leg.targetNotional > 0.0 && d.net == c.net ==> WithLeg(d, leg).net == Netted(c, leg).net
  {
  }

  /** On a book of positive sizes the audit and the account net alike. */
  lemma {:induction false} DecidedAsConsolidated(book: seq<FillLeg>)
    ensures Decision(book).roles == Consolidate(book).roles
    ensures Decision(book).net.Keys == Consolidate(book).net.Keys
    ensures Sized(book) ==> Decision(book).net == Consolidate(book).net
  {
    if book == [] {
    } else {
      var front, leg := book[..|book| - 1], book[|book| - 1];
      assert book == front + [leg];
      DecidedAsConsolidated(front);
      NetsAlike(Decision(front), Consolidate(front), leg);
      hide WithLeg, Netted;
    }
  }

  lemma NetsTheSameSymbols(c: Consolidated, d: Consolidated, leg: FillLeg, n: real)
    requires c.roles == d.roles && c.net.Keys == d.net.Keys
    ensures var x, y := Netted(c, leg.(targetNotional := n)), Netted(d, leg);
      x.roles == y.roles && x.net.Keys == y.net.Keys
  {
    hide SignedNotional;
  }

  /** Anchoring resizes legs; it changes neither symbols nor roles. */
  lemma {:induction false} AnchoringKeepsRoles(book: seq<FillLeg>, decision: map<string, real>,
                                               execution: map<string, real>)
    ensures var c, d := Consolidate(AnchoredFills(book, decision, execution)), Consolidate(book);
      c.roles == d.roles && c.net.Keys == d.net.Keys
  {
    if book == [] {
    } else {
      var front, leg := book[..|book| - 1], book[|book| - 1];
      AnchoringKeepsRoles(front, decision, execution);
      var fills := AnchoredFills(book, decision, execution);
      assert fills[..|fills| - 1] == AnchoredFills(front, decision, execution);
      var anchored := Anchored(leg, decision, execution);
      assert anchored == leg.(targetNotional := anchored.targetNotional);
      NetsTheSameSymbols(Consolidate(fills[..|fills| - 1]), Consolidate(front), leg, anchored.targetNotional);
      hide Netted, Anchored;
    }
  }

  /** A symbol without a decision mark is not anchored at all. */
  lemma {:induction false} UnanchoredNet(book: seq<FillLeg>, decision: map<string, real>,
                                         execution: map<string, real>, s: string)
    requires MarkOf(decision, s) <= 0.0
    ensures NetAt(AnchoredFills(book, decision, execution), s) == NetAt(book, s)
  {
    hide SignedNotional;
    if book == [] {
    } else {
      var front := book[..|book| - 1];
      UnanchoredNet(front, decision, execution, s);
      var fills := AnchoredFills(book, decision, execution);
      assert fills[..|fills| - 1] == AnchoredFills(front, decision, execution);
    }
  }

  /** The audit asks for exactly the quantity the account is then steered to, at every execution mark, and
      under the account's own role: the consolidated net of the anchored legs over the execution mark.  With
      a decision mark that quantity does not move with the execution mark. */
  lemma WantIsTheAccountsTarget(a: Account, book: seq<FillLeg>, decision: map<string, real>,
                                execution: map<string, real>, venue: Venue, s: string)
    requires Sized(book)
    requires s in execution && execution[s] > 0.0
    ensures var w, c := WantOf(a, book, decision, execution, venue, s),
                        Consolidate(AnchoredFills(book, decision, execution));
      var net := WithDropped(c, a.positions);
      && TargetQty(w) == (if s in net then net[s] else 0.0) / execution[s]
      && (s in decision && decision[s] > 0.0 ==>
            TargetQty(w) == (SizeOn(book, s, Long) - SizeOn(book, s, Short)) / decision[s])
      && w.held == Held(a, s)
      && w.role == (if s in c.roles then c.roles[s] else if s in a.positions then a.positions[s].seatRole else Alpha)
  {
    var fills := AnchoredFills(book, decision, execution);
    DecidedAsConsolidated(book);
    NetIsLongsLessShorts(book, s);
    NetIsLongsLessShorts(fills, s);
    AnchoringKeepsRoles(book, decision, execution);
    if MarkOf(decision, s) > 0.0 {
      AnchoredTarget(book, decision, execution, s);
    } else {
      UnanchoredNet(book, decision, execution, s);
    }
    hide SignedNotional, SizeOn, NetAt, AnchoredFills, Consolidate, Decision;
  }

  /** A leg the book leaves where it is orders nothing, whatever the market did between decision and
      execution: no request, no turnover, no fill, and nothing for the liquidity check to refuse. */
  lemma UnchangedLegOrdersNothing(a: Account, book: seq<FillLeg>, decision: map<string, real>,
                                  execution: map<string, real>, venue: Venue, s: string,
                                  partial: bool, ratio: real)
    requires Sized(book) && venue.step > 0.0 && venue.minNotional >= 0.0 && venue.minQty >= 0.0
    requires s in decision && decision[s] > 0.0
    requires Near(NetAt(book, s) / decision[s], SignedQty(Held(a, s)))
    ensures var order := OrderFor(WantOf(a, book, decision, execution, venue, s));
      && order.Ok?
      && order.value.turnover == 0.0 && order.value.quantized == 0.0 && order.value.requested == 0.0
      && !Changed(order.value) && Executed(order.value, partial, ratio) == 0.0
      && Refusal(Fill(order.value, ratio, 0.0)).None?
  {
    DecidedAsConsolidated(book);
    ConsolidatedNet(book, s);
    var w := WantOf(a, book, decision, execution, venue, s);
    assert TargetQty(w) == NetAt(book, s) / decision[s];
    assert Delta(w) == 0.0;
    assert Scale(w.mark, 0.0) == 0.0;
    assert Qty(0, venue.step) == 0.0;
    QuantizeIsIdempotent(0, venue.step);
    hide Quantize, Qty, WholeOnly, Clips.Plan, SizeOn, NetAt, Decision, TargetQty, Delta, Scale, FiltersOf;
  }
}
