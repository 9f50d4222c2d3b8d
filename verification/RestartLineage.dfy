/** The controlled-restart lineage over runs of completed cycles.

    A book may assert that it belongs to a restart that began at some origin cycle.  The precheck, the
    verdict and the revision binding together only let such assertions form blocks: each starts from a flat
    account, keeps its origin, and ends in an empty book. */
module RestartLineage {
  import opened Results
  import opened LegLifecycle

  datatype Leg = Leg(symbol: string, role: SeatRole)
  datatype Book = Book(origin: Option<int>, phase: bool, legs: seq<Leg>)

  /** The newest completed book, as its manifest binds it. */
  datatype Prior = Prior(cycle: int, origin: Option<int>, phase: bool)

  /** What the precheck sees besides the book; an unknown inventory is not proof of a flat one. */
  datatype Facts = Facts(cycle: int, inventory: Option<nat>, prior: Option<Prior>, directive: bool, riskAvailable: bool)

  /** The shape the book contract enforces. */
  predicate WellShaped(b: Book)
  {
    && (b.phase <==> b.origin.Some?)
    && (b.origin.Some? ==> b.origin.value >= 1)
    && (b.phase ==> b.legs != [])
  }

  // ----- The precheck's facts -----

  predicate PriorActive(f: Facts)
  {
    f.prior.Some? && f.prior.value.phase
  }

  predicate Flat(f: Facts)
  {
    f.inventory == Some(0)
  }

  predicate Holding(f: Facts)
  {
    f.inventory.Some? && f.inventory.value > 0
  }

  predicate ColdStart(b: Book, f: Facts)
  {
    Flat(f) && b.legs != [] && (forall i | 0 <= i < |b.legs| :: b.legs[i].role.Alpha? && b.legs[i].symbol != BTC)
    && f.riskAvailable
  }

  predicate FlatEnd(b: Book)
  {
    b.legs == [] && !b.phase && b.origin.None?
  }

  predicate Ordinary(b: Book)
  {
    !b.phase && b.origin.None?
  }

  predicate InitialEligible(b: Book, f: Facts)
  {
    b.phase && b.origin == Some(f.cycle) && ColdStart(b, f) && !f.directive && !PriorActive(f)
  }

  predicate ContinuationEligible(b: Book, f: Facts)
  {
    b.phase && b.legs != [] && Holding(f) && PriorActive(f) && b.origin == f.prior.value.origin
  }

  predicate LineageValid(b: Book, f: Facts)
  {
    if PriorActive(f) then
      if Flat(f) then FlatEnd(b)
      else if Holding(f) then ContinuationEligible(b, f) || FlatEnd(b)
      else FlatEnd(b)
    else if Flat(f) && f.directive then Ordinary(b)
    else if Flat(f) then InitialEligible(b, f) || FlatEnd(b)
    else Ordinary(b)
  }

  // ----- The gates -----

  datatype GateError = InvalidLineage | RevisionAfterAcceptance | ChangedOutsideReview

  /** The lineage part of accepting a book. */
  function AcceptanceGate(b: Book, f: Facts): Option<GateError>
  {
    if !LineageValid(b, f) then Some(InvalidLineage) else None
  }

  /** The lineage part of binding the one revision of a rejected book. */
  function RevisionGate(accepted: bool, original: Book, final: Book, f: Facts): Option<GateError>
  {
    if accepted then Some(RevisionAfterAcceptance)
    else if !LineageValid(final, f) then Some(InvalidLineage)
    else
      var lineageUnchanged := final.origin == original.origin && final.phase == original.phase;
      var safeEnd := original.phase && !final.phase && final.origin.None? && final.legs == [];
      if lineageUnchanged || safeEnd then None else Some(ChangedOutsideReview)
  }

  /** One completed cycle: the reviewed book, and the revision if the review rejected it. */
  datatype Cycle = Cycle(facts: Facts, original: Book, revised: Option<Book>)

  function Final(c: Cycle): Book
  {
    if c.revised.Some? then c.revised.value else c.original
  }

  predicate Passes(c: Cycle)
  {
    && WellShaped(c.original) && WellShaped(Final(c))
    && (if c.revised.None? then AcceptanceGate(c.original, c.facts).None?
        else RevisionGate(false, c.original, c.revised.value, c.facts).None?)
  }

  function PriorOf(c: Cycle): Prior
  {
    Prior(c.facts.cycle, Final(c).origin, Final(c).phase)
  }

  /** A history of completed cycles, each checked against the newest completion before it. */
  predicate History(cs: seq<Cycle>)
  {
    && (forall i | 0 <= i < |cs| :: Passes(cs[i]) && cs[i].facts.cycle >= 1)
    && (forall i | 0 < i < |cs| ::
          cs[i].facts.prior == Some(PriorOf(cs[i - 1])) && cs[i - 1].facts.cycle < cs[i].facts.cycle)
    && (cs != [] ==> cs[0].facts.prior.None?)
  }

  predicate Active(c: Cycle)
  {
    Final(c).phase
  }

  // ----- One cycle -----

  /** A valid lineage is exactly one of four moves. */
  datatype Move = Starts | Continues | Ends | Outside

  function MoveOf(c: Cycle): Move
  {
    if PriorActive(c.facts) then if Active(c) then Continues else Ends
    else if Active(c) then Starts else Outside
  }

  lemma EachMove(c: Cycle)
    requires Passes(c)
    ensures match MoveOf(c)
      case Starts => Final(c).origin == Some(c.facts.cycle) && ColdStart(Final(c), c.facts) && !c.facts.directive
      case Continues => Final(c).origin == c.facts.prior.value.origin && Holding(c.facts)
      case Ends => Final(c) == EMPTY_BOOK
      case Outside => Final(c).origin.None? && (Flat(c.facts) && !c.facts.directive ==> Final(c).legs == [])
  {
  }

  const EMPTY_BOOK: Book := Book(None, false, [])

  /** A book in a restart has legs and names the cycle the restart began at; any other names none. */
  predicate Shaped(b: Book)
  {
    if b.phase then b.legs != [] && b.origin.Some? && b.origin.value > 0 else b.origin.None?
  }

  /** Exactly what passes.  After a book in a restart: the empty book, or one of the same origin on a known,
      non-empty inventory.  Otherwise a book that starts a restart of this cycle, on an inventory known to be
      empty, without a directive, with risk data, and of alpha seats other than bitcoin only; or a book outside
      any restart, which without a directive must be empty if the inventory is known to be.  A revision keeps
      the lineage of the reviewed book or empties a book in a restart. */
  lemma PassesExactly(c: Cycle)
    ensures Passes(c) <==>
      var o, b, f := c.original, Final(c), c.facts;
      && Shaped(o) && Shaped(b)
      && (c.revised.Some? ==> (b.phase == o.phase && b.origin == o.origin) || (o.phase && b == EMPTY_BOOK))
      && if f.prior.Some? && f.prior.value.phase then
           || b == EMPTY_BOOK
           || (b.phase && b.origin == f.prior.value.origin && f.inventory.Some? && f.inventory.value >= 1)
         else if b.phase then
           && b.origin == Some(f.cycle) && f.inventory == Some(0) && !f.directive && f.riskAvailable
           && forall leg | leg in b.legs :: leg.role == Alpha && leg.symbol != "BTC/USDT:USDT"
         else f.inventory == Some(0) && !f.directive ==> b.legs == []
  {
    var b := Final(c);
    assert forall i | 0 <= i < |b.legs| :: b.legs[i] in b.legs;
  }

  /** A revision never starts, replaces or revives a lineage the review did not see; it can only end one. */
  lemma RevisionAddsNothing(c: Cycle)
    requires Passes(c) && c.revised.Some?
    ensures Active(c) ==> c.original.phase && Final(c).origin == c.original.origin
    ensures !Active(c) && c.original.phase ==> Final(c) == EMPTY_BOOK
  {
  }

  // ----- Runs -----

  lemma {:induction false} CyclesIncrease(cs: seq<Cycle>, i: nat, j: nat)
    requires History(cs) && i < j < |cs|
    ensures cs[i].facts.cycle < cs[j].facts.cycle
  {
    hide Passes, PriorOf;
    if i + 1 < j {
      CyclesIncrease(cs, i, j - 1);
    }
    assert cs[j - 1].facts.cycle < cs[j].facts.cycle;
  }

  /** Positions `i` to `k` are one restart that began at `i`. */
  predicate Block(cs: seq<Cycle>, i: nat, k: nat)
    requires i <= k < |cs|
  {
    && Flat(cs[i].facts) && !cs[i].facts.directive && ColdStart(Final(cs[i]), cs[i].facts)
    && (i == 0 || !Active(cs[i - 1]))
    && (forall n | i <= n <= k :: Active(cs[n]) && Final(cs[n]).origin == Some(cs[i].facts.cycle))
    && (forall n | i < n <= k :: Holding(cs[n].facts))
  }

  /** Every active book belongs to a block: it began from a flat account at the cycle every book of the
      block names as its origin, and the account was never flat inside it. */
  lemma {:induction false} ActiveInBlock(cs: seq<Cycle>, k: nat) returns (i: nat)
    requires History(cs) && k < |cs| && Active(cs[k])
    ensures i <= k && Block(cs, i, k)
  {
    EachMove(cs[k]);
    hide Passes;
    if k == 0 || !Active(cs[k - 1]) {
      i := k;
    } else {
      assert cs[k].facts.prior == Some(PriorOf(cs[k - 1]));
      i := ActiveInBlock(cs, k - 1);
    }
  }

  /** A block ends only in an empty book that claims no lineage. */
  lemma BlockEndsFlat(cs: seq<Cycle>, k: nat)
    requires History(cs) && k + 1 < |cs| && Active(cs[k]) && !Active(cs[k + 1])
    ensures Final(cs[k + 1]) == EMPTY_BOOK
  {
    assert cs[k + 1].facts.prior == Some(PriorOf(cs[(k + 1) - 1]));
    assert Passes(cs[k + 1]);
    EachMove(cs[k + 1]);
    hide Passes;
  }

  /** An origin is never reused: two active books with the same origin are in the same block. */
  lemma OriginsAreUnique(cs: seq<Cycle>, j: nat, k: nat)
    requires History(cs) && j <= k < |cs| && Active(cs[j]) && Active(cs[k])
        && Final(cs[j]).origin == Final(cs[k]).origin
    ensures forall n | j <= n <= k :: Active(cs[n]) && Final(cs[n]).origin == Final(cs[j]).origin
  {
    var a := ActiveInBlock(cs, j);
    var b := ActiveInBlock(cs, k);
    hide History;
    assert Final(cs[j]).origin == Some(cs[a].facts.cycle) && Final(cs[k]).origin == Some(cs[b].facts.cycle);
    if a < b {
      CyclesIncrease(cs, a, b);
      assert false;
    } else if b < a {
      CyclesIncrease(cs, b, a);
      assert false;
    }
  }

  const SEAT: Leg := Leg("ETH/USDT:USDT", Alpha)

  function Restarted(cycle: int, prior: Option<Prior>): Cycle
  {
    Cycle(Facts(cycle, Some(if prior.None? then 0 else 1), prior, false, true), Book(Some(1), true, [SEAT]), None)
  }

  /** A restart can be entered from a flat account, held for any number of cycles, and left. */
  lemma {:induction false} RestartsRun(n: nat) returns (cs: seq<Cycle>)
    ensures History(cs) && |cs| == n + 2 && Block(cs, 0, n) && Final(cs[n + 1]) == EMPTY_BOOK
  {
    var held := RestartHeld(n);
    var last := Cycle(Facts(n + 2, Some(1), Some(PriorOf(held[n])), false, true), EMPTY_BOOK, None);
    PassesExactly(last);
    cs := held + [last];
    hide Passes, ColdStart;
    assert forall k | 0 <= k <= n :: cs[k] == held[k];
  }

  lemma {:induction false} RestartHeld(n: nat) returns (cs: seq<Cycle>)
    ensures History(cs) && |cs| == n + 1 && Block(cs, 0, n) && cs[0].facts.cycle == 1
    ensures cs[n].facts.cycle == n + 1 && Final(cs[n]) == Book(Some(1), true, [SEAT])
  {
    if n == 0 {
      cs := [Restarted(1, None)];
      PassesExactly(cs[0]);
    } else {
      var before := RestartHeld(n - 1);
      var next := Restarted(n + 1, Some(PriorOf(before[n - 1])));
      PassesExactly(next);
      cs := before + [next];
      hide Passes, ColdStart;
      assert forall k | 0 <= k < n :: cs[k] == before[k];
    }
  }
}
