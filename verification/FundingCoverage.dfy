/** Proving, from settlement boundaries alone, that a window was governed by one schedule or by a single
    old-to-new switch.  The code tries finitely many cuts; the claim it makes is about every instant. */
module FundingCoverage {
  import opened Results
  import opened Sets
  import opened FundingSchedule

  /** A cut is the first boundary under the new schedule; `None` is a switch after the last boundary. */
  type Cut = Option<int>

  datatype Coverage = Stable | SingleTransition(cuts: seq<Cut>)

  /** What a switch at instant `T` makes the exchange settle. */
  function Switched(before: set<int>, after: set<int>, T: int): set<int>
  {
    (set b | b in before && b < T) + (set b | b in after && b >= T)
  }

  function Expected(before: set<int>, after: set<int>, cut: Cut): set<int>
  {
    match cut
    case None => before
    case Some(T) => Switched(before, after, T)
  }

  ghost predicate IsCandidate(before: set<int>, after: set<int>, end: int, cut: Cut)
  {
    match cut
    case None => forall b :: b in before + after ==> b < end
    case Some(T) => T in before + after
  }

  /** Some instant of the window explains exactly what was observed. */
  ghost predicate Explained(before: set<int>, after: set<int>, end: int, observed: set<int>)
  {
    exists T :: T <= end && observed == Switched(before, after, T)
  }

  lemma {:induction false} LeastAtOrAfter(s: set<int>, T: int) returns (least: Option<int>)
    ensures match least
      case None => forall b :: b in s ==> b < T
      case Some(m) => m in s && m >= T && forall b :: b in s && b >= T ==> m <= b
    decreases s
  {
    if s != {} {
      SomeElement(s);
      var b :| b in s;
      var rest := LeastAtOrAfter(s - {b}, T);
      assert forall x :: x in s ==> x == b || x in s - {b};
      if b >= T && (rest.None? || b <= rest.value) {
        least := Some(b);
      } else {
        least := rest;
      }
    } else {
      least := None;
    }
  }

  /** The finite candidate list is complete: a switch at any instant looks like one of the cuts. */
  lemma CutsAreComplete(before: set<int>, after: set<int>, end: int, observed: set<int>)
    requires forall b :: b in before + after ==> b <= end
    ensures Explained(before, after, end, observed) <==>
      exists cut :: IsCandidate(before, after, end, cut) && observed == Expected(before, after, cut)
  {
    if Explained(before, after, end, observed) {
      var T :| T <= end && observed == Switched(before, after, T);
      var least := LeastAtOrAfter(before + after, T);
      if least.None? {
        OpenEndedSwitch(before, after, T);
        assert IsCandidate(before, after, end, None);
      } else {
        SameSwitch(before, after, T, least.value);
        assert IsCandidate(before, after, end, Some(least.value));
      }
    }
    if cut :| IsCandidate(before, after, end, cut) && observed == Expected(before, after, cut) {
      if cut.None? {
        OpenEndedSwitch(before, after, end);
        assert observed == Switched(before, after, end);
      } else {
        assert observed == Switched(before, after, cut.value);
      }
    }
  }

  lemma OpenEndedSwitch(before: set<int>, after: set<int>, T: int)
    requires forall b :: b in before + after ==> b < T
    ensures Switched(before, after, T) == before
  {
    forall b | b in before ensures b < T {
      assert b in before + after;
    }
    forall b | b in after ensures b < T {
      assert b in before + after;
    }
  }

  /** No boundary lies between the two instants. */
  lemma SameSwitch(before: set<int>, after: set<int>, T: int, U: int)
    requires T <= U && forall b :: b in before + after && b >= T ==> U <= b
    ensures Switched(before, after, T) == Switched(before, after, U)
  {
    forall b | b in before && b >= T ensures b >= U {
      assert b in before + after;
    }
    forall b | b in after && b >= T ensures b >= U {
      assert b in before + after;
    }
  }

  // ----- The prover -----

  /** `Some` cuts in ascending order, `None` only last. */
  ghost predicate InOrder(cuts: seq<Cut>)
  {
    forall i, j :: 0 <= i < j < |cuts| ==> cuts[i].Some? && (cuts[j].Some? ==> cuts[i].value < cuts[j].value)
  }

  /** `sorted` of a set. */
  method SortedSeq(s: set<int>) returns (r: seq<int>)
    ensures Ascending(r) && forall b :: b in r <==> b in s
  {
    r := [];
    var todo := s;
    while todo != {}
      invariant todo <= s
      invariant Ascending(r)
      invariant forall b :: b in r <==> b in s && b !in todo
      invariant forall i, b :: 0 <= i < |r| && b in todo ==> r[i] < b
      decreases todo
    {
      var m := Minimum(todo);
      r := r + [m];
      todo := todo - {m};
    }
  }

  method Minimum(s: set<int>) returns (m: int)
    requires s != {}
    ensures m in s && forall b :: b in s ==> m <= b
  {
    SomeElement(s);
    m :| m in s;
    var todo := s - {m};
    while todo != {}
      invariant todo <= s && m in s
      invariant forall b :: b in s && b !in todo ==> m <= b
      decreases todo
    {
      SomeElement(todo);
      var b :| b in todo;
      todo := todo - {b};
      if b < m {
        m := b;
      }
    }
  }

  /** Accepts a stable window exactly when the observed boundaries are the schedule's, and a changed one
      exactly when one switch explains them; every matching cut is reported, in order. */
  method IntervalCoverageProof(previous: int, end: int, prior: int, current: int, observed: set<int>)
    returns (r: Result<Coverage>)
    ensures r.Ok? ==> IsInterval(prior) && IsInterval(current)
    ensures IsInterval(prior) && IsInterval(current) ==>
      var before, after := Boundaries(previous, end, prior), Boundaries(previous, end, current);
      if prior == current then
        (r.Ok? <==> observed == before) && (r.Ok? ==> r.value == Stable)
      else
        && (r.Ok? <==> Explained(before, after, end, observed))
        && (r.Ok? ==>
              r.value.SingleTransition? && InOrder(r.value.cuts)
              && (forall cut :: cut in r.value.cuts <==>
                    IsCandidate(before, after, end, cut) && observed == Expected(before, after, cut)))
  {
    var oldList := ExpectedFundingTimestamps(previous, end, prior);
    if oldList.Err? {
      return Err(oldList.reason);
    }
    var newList := ExpectedFundingTimestamps(previous, end, current);
    if newList.Err? {
      return Err(newList.reason);
    }
    var before, after := (set t | t in oldList.value), (set t | t in newList.value);
    if prior == current {
      if observed != before {
        return Err("stable schedule does not exactly match history");
      }
      return Ok(Stable);
    }
    hide IsBoundary, Boundaries;
    CutsAreComplete(before, after, end, observed);
    var cuts := MatchingCuts(before, after, end, observed);
    if cuts == [] {
      return Err("cannot prove a single interval transition");
    }
    assert cuts[0] in cuts;
    return Ok(SingleTransition(cuts));
  }

  /** Every candidate cut that explains the observation, in order. */
  method MatchingCuts(before: set<int>, after: set<int>, end: int, observed: set<int>) returns (matching: seq<Cut>)
    ensures InOrder(matching)
    ensures forall cut ::
      cut in matching <==> IsCandidate(before, after, end, cut) && observed == Expected(before, after, cut)
  {
    var candidates := CandidateCuts(before + after, end);
    matching := [];
    for i := 0 to |candidates|
      invariant InOrder(matching)
      invariant forall cut :: cut in matching <==> cut in candidates[..i] && observed == Expected(before, after, cut)
    {
      if observed == Expected(before, after, candidates[i]) {
        forall k | 0 <= k < |matching|
          ensures matching[k].Some? && (candidates[i].Some? ==> matching[k].value < candidates[i].value)
        {
          assert matching[k] in candidates[..i];
          var m :| 0 <= m < i && candidates[m] == matching[k];
        }
        matching := matching + [candidates[i]];
      }
      assert candidates[..i + 1] == candidates[..i] + [candidates[i]];
    }
    assert candidates[..|candidates|] == candidates;
  }

  /** The boundaries as cuts, and the open-ended cut when the window reaches past the last of them. */
  method CandidateCuts(union: set<int>, end: int) returns (candidates: seq<Cut>)
    ensures InOrder(candidates)
    ensures forall cut :: cut in candidates <==>
      match cut case None => (forall b :: b in union ==> b < end) case Some(T) => T in union
  {
    var sorted := SortedSeq(union);
    candidates := [];
    for i := 0 to |sorted|
      invariant |candidates| == i
      invariant forall k :: 0 <= k < i ==> candidates[k] == Some(sorted[k])
    {
      candidates := candidates + [Some(sorted[i])];
    }
    forall cut: Cut | cut in candidates
      ensures cut.Some? && cut.value in union
    {
      var i :| 0 <= i < |candidates| && candidates[i] == cut;
      assert sorted[i] in sorted;
    }
    forall T | T in union
      ensures Some(T) in candidates
    {
      assert T in sorted;
      var i :| 0 <= i < |sorted| && sorted[i] == T;
      assert candidates[i] == Some(T);
    }
    if |sorted| == 0 || end > sorted[|sorted| - 1] {
      forall b | b in union ensures b < end {
        assert b in sorted;
        var i :| 0 <= i < |sorted| && sorted[i] == b;
      }
      candidates := candidates + [None];
    } else {
      assert sorted[|sorted| - 1] in union;
    }
  }

  // ----- What acceptance means for nested schedules -----

  /** An accepted transition misses no boundary of the coarser schedule and has none outside the finer. */
  lemma AcceptedIsBetween(previous: int, end: int, prior: int, current: int, observed: set<int>)
    requires IsInterval(prior) && IsInterval(current)
    requires Explained(Boundaries(previous, end, prior), Boundaries(previous, end, current), end, observed)
    ensures var coarse, fine := if prior < current then current else prior, if prior < current then prior else current;
      Boundaries(previous, end, coarse) <= observed <= Boundaries(previous, end, fine)
  {
    var coarse, fine := if prior < current then current else prior, if prior < current then prior else current;
    Nested(previous, end, fine, coarse);
    hide Boundaries;
  }

  ghost predicate NotAfter(a: Cut, b: Cut)
  {
    b.None? || (a.Some? && a.value <= b.value)
  }

  /** Delaying the switch only adds boundaries when the old schedule is the finer, and only removes them
      when it is the coarser. */
  lemma ExpectedIsMonotone(before: set<int>, after: set<int>, a: Cut, b: Cut)
    requires NotAfter(a, b)
    ensures after <= before ==> Expected(before, after, a) <= Expected(before, after, b)
    ensures before <= after ==> Expected(before, after, b) <= Expected(before, after, a)
  {
  }

  /** The matching cuts are contiguous: between two cuts that explain the observation, every cut does. */
  lemma MatchingCutsAreContiguous(previous: int, end: int, prior: int, current: int, observed: set<int>,
                                  a: Cut, b: Cut, c: Cut)
    requires IsInterval(prior) && IsInterval(current)
    requires NotAfter(a, b) && NotAfter(b, c)
    requires var before, after := Boundaries(previous, end, prior), Boundaries(previous, end, current);
      observed == Expected(before, after, a) == Expected(before, after, c)
    ensures observed == Expected(Boundaries(previous, end, prior), Boundaries(previous, end, current), b)
  {
    var before, after := Boundaries(previous, end, prior), Boundaries(previous, end, current);
    if prior <= current {
      Nested(previous, end, prior, current);
    } else {
      Nested(previous, end, current, prior);
    }
    hide Boundaries;
    ExpectedIsMonotone(before, after, a, b);
    ExpectedIsMonotone(before, after, b, c);
  }
}
