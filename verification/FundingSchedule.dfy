/** Funding boundaries on the UTC clock.  Time is a count of microseconds since a UTC midnight. */
module FundingSchedule {
  import opened Results

  const HOUR: int := 3_600_000_000
  /** How late the exchange may print a settlement after its nominal boundary. */
  const SETTLEMENT_LAG: int := 1_000_000

  predicate IsInterval(h: int)
  {
    h == 1 || h == 2 || h == 4 || h == 8
  }

  function FloorHour(t: int): (b: int)
    ensures b <= t < b + HOUR && b % HOUR == 0
  {
    t / HOUR * HOUR
  }

  function HourOfDay(t: int): (h: int)
    ensures 0 <= h < 24
  {
    t / HOUR % 24
  }

  /** `range(0, 24, interval)`. */
  function BoundaryHours(interval: int): set<int>
    requires interval > 0
  {
    set h | 0 <= h < 24 && h % interval == 0
  }

  predicate IsBoundary(t: int, interval: int)
    requires interval > 0
  {
    t % HOUR == 0 && HourOfDay(t) in BoundaryHours(interval)
  }

  /** The boundaries in `(previous, end]`. */
  function Boundaries(previous: int, end: int, interval: int): set<int>
    requires interval > 0
  {
    set t | previous < t <= end && IsBoundary(t, interval)
  }

  /** The length of a supported interval. */
  function Step(interval: int): (step: int)
    requires IsInterval(interval)
    ensures step == interval * HOUR && step > 0
  {
    if interval == 1 then 3_600_000_000
    else if interval == 2 then 7_200_000_000
    else if interval == 4 then 14_400_000_000
    else 28_800_000_000
  }

  /** A boundary of a supported schedule is a multiple of the interval, whatever the day. */
  lemma BoundaryIsMultiple(t: int, interval: int)
    requires IsInterval(interval)
    ensures IsBoundary(t, interval) <==> t % Step(interval) == 0
  {
    var h, r := t / HOUR, t % HOUR;
    assert t == 3_600_000_000 * h + r;
    SameHourRemainder(h, interval);
    if interval == 2 {
      Regroup2(t, h, r);
    } else if interval == 4 {
      Regroup4(t, h, r);
    } else if interval == 8 {
      Regroup8(t, h, r);
    }
    hide HourOfDay;
    assert HourOfDay(t) == h % 24 by {
      DayHour(t);
    }
  }

  lemma DayHour(t: int)
    ensures HourOfDay(t) == t / HOUR % 24
  {
  }

  lemma SameHourRemainder(h: int, interval: int)
    requires IsInterval(interval)
    ensures h % 24 % interval == h % interval
  {
    if interval == 1 {
    } else if interval == 2 {
      Remainder2(h, h % 24, h / 24);
    } else if interval == 4 {
      Remainder4(h, h % 24, h / 24);
    } else {
      Remainder8(h, h % 24, h / 24);
    }
  }

  lemma Remainder2(h: int, m: int, d: int)
    requires h == 24 * d + m
    ensures m % 2 == h % 2
  {
  }

  lemma Remainder4(h: int, m: int, d: int)
    requires h == 24 * d + m
    ensures m % 4 == h % 4
  {
  }

  lemma Remainder8(h: int, m: int, d: int)
    requires h == 24 * d + m
    ensures m % 8 == h % 8
  {
  }

  lemma Regroup2(t: int, h: int, r: int)
    requires t == 3_600_000_000 * h + r && 0 <= r < 3_600_000_000
    ensures t % 7_200_000_000 == 3_600_000_000 * (h % 2) + r
  {
    assert t == 7_200_000_000 * (h / 2) + (3_600_000_000 * (h % 2) + r);
  }

  lemma Regroup4(t: int, h: int, r: int)
    requires t == 3_600_000_000 * h + r && 0 <= r < 3_600_000_000
    ensures t % 14_400_000_000 == 3_600_000_000 * (h % 4) + r
  {
    assert t == 14_400_000_000 * (h / 4) + (3_600_000_000 * (h % 4) + r);
  }

  lemma Regroup8(t: int, h: int, r: int)
    requires t == 3_600_000_000 * h + r && 0 <= r < 3_600_000_000
    ensures t % 28_800_000_000 == 3_600_000_000 * (h % 8) + r
  {
    assert t == 28_800_000_000 * (h / 8) + (3_600_000_000 * (h % 8) + r);
  }

  // ----- Enumerating and counting -----

  ghost predicate Ascending(ts: seq<int>)
  {
    forall i, j :: 0 <= i < j < |ts| ==> ts[i] < ts[j]
  }

  /** Walk hour by hour and keep the boundaries. */
  method ExpectedFundingTimestamps(previous: int, end: int, interval: int) returns (r: Result<seq<int>>)
    ensures r.Ok? <==> IsInterval(interval)
    ensures r.Ok? ==> Ascending(r.value) && (set t | t in r.value) == Boundaries(previous, end, interval)
  {
    if !IsInterval(interval) {
      return Err("unsupported funding interval");
    }
    var hours := BoundaryHours(interval);
    var cursor := FloorHour(previous);
    if cursor <= previous {
      cursor := cursor + HOUR;
    }
    FirstHour(previous, end, interval);
    var found: seq<int> := [];
    while cursor <= end
      invariant cursor % HOUR == 0 && cursor > previous
      invariant Ascending(found)
      invariant forall i :: 0 <= i < |found| ==> found[i] < cursor
      invariant forall t :: t in found <==> t in Through(previous, end, interval, cursor)
      decreases end - cursor
    {
      NextHour(previous, end, interval, cursor);
      if HourOfDay(cursor) in hours {
        found := found + [cursor];
      }
      cursor := cursor + HOUR;
    }
    assert (set t | t in found) == Boundaries(previous, end, interval);
    return Ok(found);
  }

  /** The boundaries up to the end of the hour starting at `c`. */
  function Through(previous: int, end: int, interval: int, c: int): set<int>
    requires interval > 0
  {
    Boundaries(previous, if c - 1 <= end then c - 1 else end, interval)
  }

  lemma NextHour(previous: int, end: int, interval: int, c: int)
    requires interval > 0 && c % HOUR == 0 && previous < c <= end
    ensures (c + HOUR) % HOUR == 0
    ensures c !in Through(previous, end, interval, c)
    ensures Through(previous, end, interval, c + HOUR)
         == Through(previous, end, interval, c) + (if HourOfDay(c) in BoundaryHours(interval) then {c} else {})
  {
    forall t | c < t < c + HOUR ensures t % HOUR != 0 {
      assert t == c + (t - c);
    }
    hide HourOfDay, BoundaryHours;
  }

  lemma FirstHour(previous: int, end: int, interval: int)
    requires interval > 0
    ensures var c := FloorHour(previous) + HOUR;
      c % HOUR == 0 && c > previous && Through(previous, end, interval, c) == {}
  {
    var c := FloorHour(previous) + HOUR;
    forall t | previous < t < c ensures t % HOUR != 0 {
      assert t == (c - HOUR) + (t - (c - HOUR));
    }
  }

  /** Settlements in `(entry, exit]`, counted hour by hour. */
  method CountFundingEvents(entry: int, exit: int, interval: int) returns (count: int)
    requires interval > 0
    ensures count == |Boundaries(entry, exit, interval)|
  {
    if exit <= entry {
      assert Boundaries(entry, exit, interval) == {};
      return 0;
    }
    var hours := BoundaryHours(interval);
    count := 0;
    var cursor := FloorHour(entry);
    if cursor <= entry {
      cursor := cursor + HOUR;
    }
    FirstHour(entry, exit, interval);
    hide Boundaries, IsBoundary;
    while cursor <= exit
      invariant cursor % HOUR == 0 && cursor > entry
      invariant count == |Through(entry, exit, interval, cursor)|
      decreases exit - cursor
    {
      NextHour(entry, exit, interval, cursor);
      if HourOfDay(cursor) in hours {
        count := count + 1;
      }
      cursor := cursor + HOUR;
    }
  }

  /** Windows compose: nothing is settled twice and nothing falls between. */
  lemma WindowsCompose(a: int, b: int, c: int, interval: int)
    requires interval > 0 && a <= b <= c
    ensures Boundaries(a, c, interval) == Boundaries(a, b, interval) + Boundaries(b, c, interval)
    ensures Boundaries(a, b, interval) !! Boundaries(b, c, interval)
    ensures |Boundaries(a, c, interval)| == |Boundaries(a, b, interval)| + |Boundaries(b, c, interval)|
  {
  }

  /** Counting needs no walk: it is the difference of two floor divisions. */
  lemma {:induction false} CountInClosedForm(previous: int, end: int, interval: int)
    requires IsInterval(interval) && previous <= end
    ensures |Boundaries(previous, end, interval)| == end / Step(interval) - previous / Step(interval)
    decreases end - previous
  {
    var first := NextMultiple(previous, interval);
    forall t | previous < t < first ensures !IsBoundary(t, interval) {
      BoundaryIsMultiple(t, interval);
      NoMultipleBetween(previous, t, interval);
    }
    if first > end {
      assert Boundaries(previous, end, interval) == {};
    } else {
      BoundaryIsMultiple(first, interval);
      CountInClosedForm(first, end, interval);
      hide IsBoundary;
      assert Boundaries(previous, first, interval) == {first};
      WindowsCompose(previous, first, end, interval);
    }
  }

  function NextMultiple(p: int, interval: int): (first: int)
    requires IsInterval(interval)
    ensures first > p && first % Step(interval) == 0
    ensures first / Step(interval) == p / Step(interval) + 1
    ensures forall e :: p <= e < first ==> e / Step(interval) == p / Step(interval)
  {
    if interval == 1 then (p / 3_600_000_000 + 1) * 3_600_000_000
    else if interval == 2 then (p / 7_200_000_000 + 1) * 7_200_000_000
    else if interval == 4 then (p / 14_400_000_000 + 1) * 14_400_000_000
    else (p / 28_800_000_000 + 1) * 28_800_000_000
  }

  lemma NoMultipleBetween(p: int, t: int, interval: int)
    requires IsInterval(interval) && p < t < NextMultiple(p, interval)
    ensures t % Step(interval) != 0
  {
    if interval == 1 {
    } else if interval == 2 {
    } else if interval == 4 {
    } else {
    }
  }

  /** A coarser supported schedule only settles where a finer one does. */
  lemma Nested(previous: int, end: int, fine: int, coarse: int)
    requires IsInterval(fine) && IsInterval(coarse) && fine <= coarse
    ensures Boundaries(previous, end, coarse) <= Boundaries(previous, end, fine)
  {
    forall h | 0 <= h < 24 && h % coarse == 0 ensures h % fine == 0 {
    }
  }

  // ----- Printed timestamps -----

  /** The nominal boundary of a printed settlement, if it is one. */
  function NominalBoundary(timestamp: int): Result<int>
  {
    var b := FloorHour(timestamp);
    if timestamp <= b + SETTLEMENT_LAG then Ok(b) else Err("not a nominal boundary")
  }

  lemma OnlyHourWithin(timestamp: int, b: int)
    requires b % HOUR == 0 && b <= timestamp <= b + SETTLEMENT_LAG
    ensures FloorHour(timestamp) == b
  {
    var f := FloorHour(timestamp);
    assert b == b / HOUR * HOUR && f == f / HOUR * HOUR;
    assert f - b == (f / HOUR - b / HOUR) * HOUR;
  }

  /** A print names a boundary exactly when it falls on the hour or within the settlement lag after it, and
      then it names that hour. */
  lemma PrintNamesItsHour(timestamp: int, b: int)
    ensures NominalBoundary(timestamp) == Ok(b) <==> b % HOUR == 0 && b <= timestamp <= b + SETTLEMENT_LAG
  {
    if b % HOUR == 0 && b <= timestamp <= b + SETTLEMENT_LAG {
      OnlyHourWithin(timestamp, b);
    }
    hide FloorHour;
  }
}
