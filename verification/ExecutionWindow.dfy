/** Settling all funding before the basket is applied, and when that is exact. */
module ExecutionWindow {
  import opened Results
  import opened Sets
  import opened FundingSchedule
  import opened FundingCoverage
  import opened FundingHistory
  import opened LegLifecycle
  import opened Ledger

  /** The fields of a coverage proof this gate re-reads. */
  datatype HeldProof = HeldProof(windowStart: int, windowEnd: int, current: int, boundaries: set<int>)

  /** The boundaries that may apply to one symbol inside the observation window. */
  ghost predicate Applies(s: string, b: int, start: int, end: int, current: map<string, int>,
                          decision: map<string, int>,
                          proofs: map<string, HeldProof>)
    requires s in current && s in decision && IsInterval(current[s]) && IsInterval(decision[s])
  {
    if s in proofs then b in proofs[s].boundaries
    else b in Boundaries(start - 1, end, current[s]) || b in Boundaries(start - 1, end, decision[s])
  }

  ghost predicate SymbolSafe(s: string, start: int, end: int, current: map<string, int>, decision: map<string, int>,
                             proofs: map<string, HeldProof>)
  {
    && s in current && s in decision && IsInterval(current[s]) && IsInterval(decision[s])
    && (s in proofs ==>
          proofs[s].windowStart <= start && end <= proofs[s].windowEnd && proofs[s].current == current[s])
    && (forall b :: start <= b <= end ==> !Applies(s, b, start, end, current, decision, proofs))
  }

  /** The basket's observations span `[start, end]`. */
  ghost predicate Spans(executionTs: map<string, int>, start: int, end: int)
  {
    && (forall s :: s in executionTs ==> start <= executionTs[s] <= end)
    && (exists s :: s in executionTs && executionTs[s] == start)
    && (exists s :: s in executionTs && executionTs[s] == end)
  }

  method Span(executionTs: map<string, int>) returns (start: int, end: int)
    requires executionTs != map[]
    ensures Spans(executionTs, start, end)
  {
    var first :| first in executionTs;
    var earliest, latest := first, first;
    var todo := executionTs.Keys - {first};
    while todo != {}
      invariant todo <= executionTs.Keys && earliest in executionTs && latest in executionTs
      invariant forall s :: s in executionTs && s !in todo ==>
        executionTs[earliest] <= executionTs[s] <= executionTs[latest]
      decreases todo
    {
      var s :| s in todo;
      todo := todo - {s};
      if executionTs[s] < executionTs[earliest] {
        earliest := s;
      }
      if executionTs[s] > executionTs[latest] {
        latest := s;
      }
    }
    start, end := executionTs[earliest], executionTs[latest];
  }

  /** Any applicable boundary between the first and last observation halts the basket. */
  method VerifyExecutionWindowFundingSafety(executionTs: map<string, int>, symbols: set<string>,
                                            current: map<string, int>,
                                            decision: map<string, int>, proofs: map<string, HeldProof>)
    returns (r: Result<(int, int)>)
    ensures r.Ok? ==> executionTs.Keys == symbols
    ensures r.Ok? && symbols != {} ==> Spans(executionTs, r.value.0, r.value.1)
    ensures r.Ok? ==> forall s :: s in symbols ==> SymbolSafe(s, r.value.0, r.value.1, current, decision, proofs)
    ensures r.Err? && executionTs.Keys == symbols ==>
      exists start, end, s :: Spans(executionTs, start, end) && s in symbols
        && !SymbolSafe(s, start, end, current, decision, proofs)
  {
    if executionTs.Keys != symbols {
      return Err("execution timestamp coverage mismatch");
    }
    if symbols == {} {
      return Ok((0, 0));
    }
    var start, end := Span(executionTs);
    var todo := symbols;
    while todo != {}
      invariant todo <= symbols
      invariant forall s :: s in symbols && s !in todo ==> SymbolSafe(s, start, end, current, decision, proofs)
      decreases todo
    {
      var s :| s in todo;
      todo := todo - {s};
      var safe := CheckSymbol(s, start, end, current, decision, proofs);
      if !safe {
        return Err("execution window is not funding-safe");
      }
    }
    return Ok((start, end));
  }

  method CheckSymbol(s: string, start: int, end: int, current: map<string, int>, decision: map<string, int>,
                     proofs: map<string, HeldProof>) returns (safe: bool)
    ensures safe <==> SymbolSafe(s, start, end, current, decision, proofs)
  {
    if s !in current || s !in decision || !IsInterval(current[s]) || !IsInterval(decision[s]) {
      return false;
    }
    if s in proofs {
      var proof := proofs[s];
      if proof.windowStart > start || proof.windowEnd < end || proof.current != current[s] {
        return false;
      }
      var straddled := set b | b in proof.boundaries && start <= b <= end;
      assert forall b :: b in proof.boundaries && start <= b <= end ==> b in straddled;
      if straddled != {} {
        SomeElement(straddled);
        var b :| b in straddled;
        assert Applies(s, b, start, end, current, decision, proofs);
      }
      return straddled == {};
    }
    var presently := ExpectedFundingTimestamps(start - 1, end, current[s]);
    var decided := ExpectedFundingTimestamps(start - 1, end, decision[s]);
    hide Boundaries;
    if presently.value != [] {
      assert presently.value[0] in (set t | t in presently.value);
      InWindow(presently.value[0], start, end, current[s]);
      assert Applies(s, presently.value[0], start, end, current, decision, proofs);
      return false;
    }
    if decided.value != [] {
      assert decided.value[0] in (set t | t in decided.value);
      InWindow(decided.value[0], start, end, decision[s]);
      assert Applies(s, decided.value[0], start, end, current, decision, proofs);
      return false;
    }
    assert (set t | t in presently.value) == {} && (set t | t in decided.value) == {};
    return true;
  }

  lemma InWindow(b: int, start: int, end: int, interval: int)
    requires interval > 0 && b in Boundaries(start - 1, end, interval)
    ensures start <= b <= end
  {
  }

  // ----- What the gate buys -----

  /** The signed quantity of a symbol at instant `b` when its leg is filled at `filledAt`; what is held at
      the fill instant itself is left open. */
  ghost predicate HeldAt(quantity: real, b: int, filledAt: int, before: real, after: real)
  {
    && (b < filledAt ==> quantity == before)
    && (b > filledAt ==> quantity == after)
  }

  /** Funding settled at the clock, charged with the quantity held going in. */
  function SettledFirst(events: seq<FundingEvent>, before: real): real
  {
    if events == [] then 0.0
    else
      var e := events[|events| - 1];
      SettledFirst(events[..|events| - 1], before) - before * e.mark * e.rate
  }

  /** Funding charged boundary by boundary with the quantity held at each. */
  function SettledAsHeld(events: seq<FundingEvent>, quantities: seq<real>): real
    requires |quantities| == |events|
  {
    if events == [] then 0.0
    else
      var n := |events| - 1;
      var e := events[n];
      SettledAsHeld(events[..n], quantities[..n]) - quantities[n] * e.mark * e.rate
  }

  /** For a held symbol, whatever window its proof is for: if the proof names the boundary of every event
      inside that window, charging all events up to the last observation with the pre-basket quantity is the
      same as charging each nominal boundary with whatever was held at it, in whatever order and at whatever
      instants the legs were filled. */
  lemma SettlingFirstIsExact(s: string, executionTs: map<string, int>, start: int, end: int,
                             current: map<string, int>, decision: map<string, int>, proofs: map<string, HeldProof>,
                             events: seq<FundingEvent>, before: real, after: real, quantities: seq<real>)
    requires Spans(executionTs, start, end) && s in executionTs && s in proofs
    requires SymbolSafe(s, start, end, current, decision, proofs)
    requires forall i | 0 <= i < |events| ::
      Nominal(events[i]) <= end
      && (proofs[s].windowStart <= Nominal(events[i]) <= proofs[s].windowEnd ==>
            Nominal(events[i]) in proofs[s].boundaries)
    requires |quantities| == |events|
    requires forall i :: 0 <= i < |events| ==> HeldAt(quantities[i], Nominal(events[i]), executionTs[s], before, after)
    ensures SettledAsHeld(events, quantities) == SettledFirst(events, before)
  {
    forall i | 0 <= i < |events| ensures quantities[i] == before {
      SafeExcludes(s, Nominal(events[i]), start, end, current, decision, proofs);
    }
    SameQuantity(events, quantities, before);
  }

  /** So it is for the events collected up to the last observation. */
  lemma CollectedIsExact(s: string, executionTs: map<string, int>, start: int, end: int,
                         current: map<string, int>, decision: map<string, int>, proofs: map<string, HeldProof>,
                         clock: int, prior: int, events: seq<FundingEvent>,
                         before: real, after: real, quantities: seq<real>)
    requires Spans(executionTs, start, end) && s in executionTs && s in proofs
    requires SymbolSafe(s, start, end, current, decision, proofs)
    requires proofs[s].boundaries == NominalSet(events) && Accepted(clock, end, prior, current[s], events)
    requires |quantities| == |events|
    requires forall i :: 0 <= i < |events| ==> HeldAt(quantities[i], Nominal(events[i]), executionTs[s], before, after)
    ensures SettledAsHeld(events, quantities) == SettledFirst(events, before)
  {
    forall i | 0 <= i < |events| ensures Nominal(events[i]) <= end {
      assert Nominal(events[i]) <= events[i].ts <= end;
    }
    SettlingFirstIsExact(s, executionTs, start, end, current, decision, proofs, events, before, after, quantities);
  }

  /** What an accepted proof says of the schedule: if it covers its own window under its own schedule, no
      boundary that the two schedules share falls inside the observations; on a stable schedule, none at
      all. */
  lemma NoBoundaryInside(s: string, start: int, end: int, current: map<string, int>, decision: map<string, int>,
                         proofs: map<string, HeldProof>, prior: int, b: int)
    requires s in proofs && SymbolSafe(s, start, end, current, decision, proofs)
    requires IsInterval(prior) && IsInterval(proofs[s].current) && proofs[s].windowStart < start
    requires Covered(proofs[s].windowStart, proofs[s].windowEnd, prior, proofs[s].current, proofs[s].boundaries)
    requires start <= b <= end
    ensures !IsBoundary(b, if prior < current[s] then current[s] else prior)
    ensures prior == current[s] ==> !IsBoundary(b, current[s])
  {
    var proof := proofs[s];
    SafeExcludes(s, b, start, end, current, decision, proofs);
    if prior != proof.current {
      AcceptedIsBetween(proof.windowStart, proof.windowEnd, prior, proof.current, proof.boundaries);
    }
    hide IsBoundary;
  }

  lemma {:induction false} SameQuantity(events: seq<FundingEvent>, quantities: seq<real>, q: real)
    requires |quantities| == |events|
    requires forall i :: 0 <= i < |events| ==> quantities[i] == q
    ensures SettledAsHeld(events, quantities) == SettledFirst(events, q)
  {
    if events == [] {
    } else {
      SameQuantity(events[..|events| - 1], quantities[..|events| - 1], q);
    }
  }

  /** The ledger's credits for a held position are exactly `SettledFirst` of its signed quantity. */
  lemma {:induction false} CreditsAreSettledFirst(p: Position, events: seq<FundingEvent>)
    ensures Total(EventCredits(p, events)) == SettledFirst(events, SignedQty(Some(p)))
  {
    var credits := EventCredits(p, events);
    if events == [] {
    } else {
      var front := events[..|events| - 1];
      CreditsAreSettledFirst(p, front);
      assert credits[..|credits| - 1] == EventCredits(p, front);
      var e := events[|events| - 1];
      OneCredit(p, e);
    }
  }

  lemma OneCredit(p: Position, e: FundingEvent)
    ensures RealizedFunding(e.mark, p.qty, e.rate, p.direction) == -(SignedQty(Some(p)) * e.mark * e.rate)
  {
    var m, q, r := e.mark, p.qty, e.rate;
    assert m * q == q * m;
    assert (m * q) * r == (q * m) * r;
    if p.direction.Long? {
      assert -1.0 * m * q * r == -(m * q * r);
    } else {
      assert -q * m * r == -(q * m * r);
    }
  }

  /** For a symbol not yet held: no boundary of either schedule falls after its entry and up to the
      settlement instant, so settling first omits nothing. */
  lemma NewEntryOwesNothing(s: string, executionTs: map<string, int>, start: int, end: int,
                            current: map<string, int>, decision: map<string, int>, proofs: map<string, HeldProof>,
                            b: int, quantity: real, after: real)
    requires Spans(executionTs, start, end) && s in executionTs && s !in proofs
    requires SymbolSafe(s, start, end, current, decision, proofs)
    requires b <= end && (IsBoundary(b, current[s]) || IsBoundary(b, decision[s]))
    requires HeldAt(quantity, b, executionTs[s], 0.0, after)
    ensures quantity == 0.0
  {
    hide IsBoundary;
    SafeExcludes(s, b, start, end, current, decision, proofs);
  }

  lemma SafeExcludes(s: string, b: int, start: int, end: int, current: map<string, int>,
                     decision: map<string, int>, proofs: map<string, HeldProof>)
    requires SymbolSafe(s, start, end, current, decision, proofs)
    ensures start <= b <= end ==> !Applies(s, b, start, end, current, decision, proofs)
  {
  }
}
