/** Collecting the settlements of a held symbol, and what any run of accepted settlements has charged. */
module FundingHistory {
  import opened Results
  import opened FundingSchedule
  import opened FundingCoverage
  import opened Ledger

  const MILLISECOND: int := 1000
  const PAGE_LIMIT: nat := 1000

  // ----- Paging through the exchange feed -----

  /** The exchange's settlements of one symbol: in time order, printed to the millisecond. */
  ghost predicate IsFeed(feed: seq<FundingEvent>)
  {
    && (forall i, j :: 0 <= i < j < |feed| ==> feed[i].ts < feed[j].ts)
    && (forall i :: 0 <= i < |feed| ==> feed[i].ts % MILLISECOND == 0)
  }

  /** How many settlements precede millisecond `since`. */
  function Before(feed: seq<FundingEvent>, since: int): (k: nat)
    ensures k <= |feed|
  {
    if feed == [] || feed[0].ts / MILLISECOND >= since then 0 else 1 + Before(feed[1..], since)
  }

  lemma {:induction false} BeforeSplits(feed: seq<FundingEvent>, since: int)
    requires IsFeed(feed)
    ensures forall i :: 0 <= i < |feed| ==> (i < Before(feed, since) <==> feed[i].ts / MILLISECOND < since)
  {
    if feed != [] && feed[0].ts / MILLISECOND < since {
      BeforeSplits(feed[1..], since);
      forall i | 0 <= i < |feed| ensures i < Before(feed, since) <==> feed[i].ts / MILLISECOND < since {
        if i > 0 {
          assert feed[i] == feed[1..][i - 1];
        }
      }
    }
  }

  /** The exchange endpoint: the first `limit` settlements from millisecond `since` on. */
  function Page(feed: seq<FundingEvent>, since: int, limit: nat): seq<FundingEvent>
  {
    var k := Before(feed, since);
    if |feed| - k <= limit then feed[k..] else feed[k..k + limit]
  }

  /** The first millisecond after an instant. */
  function NextMillisecond(ts: int): int
  {
    ts / MILLISECOND + 1
  }

  /** Paginate until the feed is exhausted.  Nothing after the clock is lost between pages, and the
      no-progress check can never fire. */
  method FetchAll(feed: seq<FundingEvent>, previous: int) returns (raw: Result<seq<FundingEvent>>)
    requires IsFeed(feed)
    ensures raw.Ok?
    ensures forall e :: e in raw.value <==> e in feed && e.ts > previous
  {
    hide Before, Page, IsFeed, NextMillisecond;
    var since := NextMillisecond(previous);
    ghost var start := Before(feed, since);
    AfterClock(feed, previous, start);
    ghost var k := start;
    var found: seq<FundingEvent> := [];
    while true
      invariant start <= k <= |feed| && k == Before(feed, since)
      invariant found == feed[start..k]
      decreases |feed| - k
    {
      var page := Page(feed, since, PAGE_LIMIT);
      PageShape(feed, since, PAGE_LIMIT);
      SlicesJoin(feed, start, k, k + |page|);
      found := found + page;
      k := k + |page|;
      if page == [] {
        break;
      }
      var last := LatestTimestamp(page);
      var nextSince := NextMillisecond(last);
      NextPage(feed, since, k - 1);
      if |page| < PAGE_LIMIT {
        break;
      }
      if nextSince <= since {
        assert false;
        return Err("pagination did not advance");
      }
      since := nextSince;
    }
    assert k == |feed|;
    assert found == feed[start..];
    return Ok(found);
  }

  /** A page is in time order, so its latest settlement is its last. */
  method LatestTimestamp(page: seq<FundingEvent>) returns (latest: int)
    requires page != []
    requires forall i, j :: 0 <= i < j < |page| ==> page[i].ts < page[j].ts
    ensures latest == page[|page| - 1].ts
  {
    latest := page[0].ts;
    for i := 1 to |page|
      invariant latest == page[i - 1].ts
    {
      if page[i].ts > latest {
        latest := page[i].ts;
      }
    }
  }

  lemma SlicesJoin<T>(s: seq<T>, i: nat, j: nat, k: nat)
    requires i <= j <= k <= |s|
    ensures s[i..j] + s[j..k] == s[i..k]
  {
  }

  lemma {:induction false} PageShape(feed: seq<FundingEvent>, since: int, limit: nat)
    requires IsFeed(feed) && limit > 0
    ensures var k, page := Before(feed, since), Page(feed, since, limit);
      && k + |page| <= |feed| && page == feed[k..k + |page|]
      && (page != [] ==> page[|page| - 1] == feed[k + |page| - 1])
      && (|page| < limit || page == [] ==> k + |page| == |feed|)
      && (forall i, j :: 0 <= i < j < |page| ==> page[i].ts < page[j].ts)
  {
    var k, page := Before(feed, since), Page(feed, since, limit);
    assert forall i :: 0 <= i < |page| ==> page[i] == feed[k + i];
  }

  lemma NextPage(feed: seq<FundingEvent>, since: int, i: nat)
    requires IsFeed(feed) && Before(feed, since) <= i < |feed|
    ensures var next := NextMillisecond(feed[i].ts); next > since && Before(feed, next) == i + 1
  {
    var next := NextMillisecond(feed[i].ts);
    BeforeSplits(feed, since);
    BeforeSplits(feed, next);
    if i + 1 < |feed| {
      assert feed[i].ts < feed[i + 1].ts && feed[i].ts % MILLISECOND == 0 && feed[i + 1].ts % MILLISECOND == 0;
      assert feed[i + 1].ts / MILLISECOND >= next;
    }
  }

  lemma {:induction false} AfterClock(feed: seq<FundingEvent>, previous: int, start: nat)
    requires IsFeed(feed) && start == Before(feed, NextMillisecond(previous))
    ensures forall e :: e in feed[start..] <==> e in feed && e.ts > previous
  {
    BeforeSplits(feed, NextMillisecond(previous));
    forall i | 0 <= i < |feed| ensures i >= start <==> feed[i].ts > previous {
      assert feed[i].ts % MILLISECOND == 0;
    }
    forall e | e in feed && e.ts > previous ensures e in feed[start..] {
      var i :| 0 <= i < |feed| && feed[i] == e;
      assert feed[start..][i - start] == e;
    }
  }

  // ----- Proving one window -----

  function Nominal(e: FundingEvent): int
  {
    FloorHour(e.ts)
  }

  function NominalSet(events: seq<FundingEvent>): set<int>
  {
    set i | 0 <= i < |events| :: Nominal(events[i])
  }

  /** The boundaries are exactly one schedule's, or one old-to-new switch's. */
  ghost predicate Covered(previous: int, end: int, prior: int, current: int, observed: set<int>)
    requires IsInterval(prior) && IsInterval(current)
  {
    if prior == current then observed == Boundaries(previous, end, prior)
    else Explained(Boundaries(previous, end, prior), Boundaries(previous, end, current), end, observed)
  }

  /** What an accepted window of settlements looks like. */
  ghost predicate Accepted(previous: int, end: int, prior: int, current: int, events: seq<FundingEvent>)
  {
    && previous <= end
    && IsInterval(prior) && IsInterval(current)
    && (forall i :: 0 <= i < |events| ==>
          previous < events[i].ts <= end && events[i].mark > 0.0 && NominalBoundary(events[i].ts).Ok?)
    && (forall i, j :: 0 <= i < j < |events| ==>
          events[i].ts < events[j].ts && Nominal(events[i]) != Nominal(events[j]))
    && Covered(previous, end, prior, current, NominalSet(events))
  }

  predicate InWindow(e: FundingEvent, previous: int, end: int)
  {
    previous < e.ts <= end
  }

  /** The window's settlements have usable marks and their own timestamps. */
  predicate Keyable(raw: seq<FundingEvent>, previous: int, end: int)
  {
    && (forall k | 0 <= k < |raw| && InWindow(raw[k], previous, end) :: raw[k].mark > 0.0)
    && (forall k, m | 0 <= k < m < |raw| && InWindow(raw[k], previous, end) && InWindow(raw[m], previous, end) ::
          raw[k].ts != raw[m].ts)
  }

  /** The window's settlements keyed by timestamp; a repeated timestamp or a bad mark is refused. */
  method ByTimestamp(raw: seq<FundingEvent>, previous: int, end: int) returns (r: Result<map<int, FundingEvent>>)
    ensures r.Ok? <==> Keyable(raw, previous, end)
    ensures r.Ok? ==>
      (forall t :: t in r.value ==> r.value[t].ts == t && InWindow(r.value[t], previous, end) && r.value[t] in raw)
    ensures r.Ok? ==> forall e :: e in raw && InWindow(e, previous, end) ==> e.ts in r.value && r.value[e.ts] == e
  {
    var byTimestamp: map<int, FundingEvent> := map[];
    for i := 0 to |raw|
      invariant forall t :: t in byTimestamp ==>
        byTimestamp[t].ts == t && InWindow(byTimestamp[t], previous, end)
        && exists k :: 0 <= k < i && raw[k] == byTimestamp[t]
      invariant forall k :: 0 <= k < i && InWindow(raw[k], previous, end) ==>
        raw[k].mark > 0.0 && raw[k].ts in byTimestamp && byTimestamp[raw[k].ts] == raw[k]
      invariant Keyable(raw[..i], previous, end)
    {
      var item := raw[i];
      if InWindow(item, previous, end) {
        if item.ts in byTimestamp || item.mark <= 0.0 {
          return Err("duplicate or invalid funding event");
        }
        byTimestamp := byTimestamp[item.ts := item];
      }
    }
    assert raw[..|raw|] == raw;
    return Ok(byTimestamp);
  }

  /** Every settlement prints at a boundary, each at its own. */
  predicate OnePerBoundary(events: seq<FundingEvent>)
  {
    && (forall k :: 0 <= k < |events| ==> NominalBoundary(events[k].ts).Ok?)
    && (forall k, m :: 0 <= k < m < |events| ==> Nominal(events[k]) != Nominal(events[m]))
  }

  /** Map each settlement to its nominal boundary; no two may claim the same one. */
  method ByBoundary(events: seq<FundingEvent>) returns (r: Result<set<int>>)
    ensures r.Ok? <==> OnePerBoundary(events)
    ensures r.Ok? ==> r.value == NominalSet(events)
  {
    hide FloorHour;
    var observed: set<int> := {};
    for i := 0 to |events|
      invariant observed == NominalSet(events[..i])
      invariant forall k :: 0 <= k < i ==> NominalBoundary(events[k].ts).Ok? && Nominal(events[k]) in observed
      invariant forall k, m :: 0 <= k < m < i ==> Nominal(events[k]) != Nominal(events[m])
    {
      var boundary := NominalBoundary(events[i].ts);
      if boundary.Err? {
        return Err(boundary.reason);
      }
      if boundary.value in observed {
        return Err("multiple funding events map to one nominal boundary");
      }
      NominalGrows(events[..i], events[i]);
      assert events[..i + 1] == events[..i] + [events[i]];
      observed := observed + {boundary.value};
    }
    assert events[..|events|] == events;
    return Ok(observed);
  }

  /** The settlements in time order. */
  method InTimeOrder(byTimestamp: map<int, FundingEvent>) returns (events: seq<FundingEvent>)
    requires forall t :: t in byTimestamp ==> byTimestamp[t].ts == t
    ensures forall i, j :: 0 <= i < j < |events| ==> events[i].ts < events[j].ts
    ensures forall e :: e in events <==> e.ts in byTimestamp && byTimestamp[e.ts] == e
  {
    var times := SortedSeq(byTimestamp.Keys);
    assert forall k :: 0 <= k < |times| ==> times[k] in times;
    events := seq(|times|, i requires 0 <= i < |times| && times[i] in byTimestamp => byTimestamp[times[i]]);
    forall e ensures e in events <==> e.ts in byTimestamp && byTimestamp[e.ts] == e {
      if e.ts in byTimestamp && byTimestamp[e.ts] == e {
        assert e.ts in times;
        var m :| 0 <= m < |times| && times[m] == e.ts;
        assert events[m] == e;
      }
    }
  }

  /** The boundaries the window's settlements print at. */
  function WindowBoundaries(raw: seq<FundingEvent>, previous: int, end: int): set<int>
  {
    set i | 0 <= i < |raw| && InWindow(raw[i], previous, end) :: Nominal(raw[i])
  }

  /** No two of the window's settlements print at one boundary. */
  predicate Apart(raw: seq<FundingEvent>, previous: int, end: int)
  {
    forall e, f | e in raw && f in raw && InWindow(e, previous, end) && InWindow(f, previous, end) && e != f ::
      Nominal(e) != Nominal(f)
  }

  predicate AllPrinted(raw: seq<FundingEvent>, previous: int, end: int)
  {
    forall e | e in raw && InWindow(e, previous, end) :: NominalBoundary(e.ts).Ok?
  }

  /** What the feed must show for the window to be settled. */
  ghost predicate Provable(raw: seq<FundingEvent>, previous: int, end: int, prior: int, current: int)
  {
    && previous <= end && IsInterval(prior) && IsInterval(current) && Keyable(raw, previous, end)
    && AllPrinted(raw, previous, end) && Apart(raw, previous, end)
    && Covered(previous, end, prior, current, WindowBoundaries(raw, previous, end))
  }

  lemma SameBoundaries(raw: seq<FundingEvent>, previous: int, end: int, events: seq<FundingEvent>)
    requires forall e :: e in events <==> e in raw && InWindow(e, previous, end)
    ensures NominalSet(events) == WindowBoundaries(raw, previous, end)
  {
    hide Nominal;
    forall i | 0 <= i < |events|
        ensures exists k :: 0 <= k < |raw| && raw[k] == events[i] && InWindow(raw[k], previous, end) {
      assert events[i] in events;
    }
    forall k | 0 <= k < |raw| && InWindow(raw[k], previous, end)
        ensures exists i :: 0 <= i < |events| && events[i] == raw[k] {
      assert raw[k] in raw;
    }
  }

  lemma OrderedApart(events: seq<FundingEvent>, previous: int, end: int)
    requires forall i, j :: 0 <= i < j < |events| ==> events[i].ts < events[j].ts
    requires forall e | e in events :: InWindow(e, previous, end)
    ensures OnePerBoundary(events) <==> AllPrinted(events, previous, end) && Apart(events, previous, end)
  {
    hide NominalBoundary, Nominal, InWindow;
    if OnePerBoundary(events) {
      forall e, f | e in events && f in events && e != f ensures Nominal(e) != Nominal(f) {
        var i :| 0 <= i < |events| && events[i] == e;
        var j :| 0 <= j < |events| && events[j] == f;
      }
    }
    if AllPrinted(events, previous, end) && Apart(events, previous, end) {
      forall i | 0 <= i < |events| ensures NominalBoundary(events[i].ts).Ok? {
        assert events[i] in events;
      }
      forall i, j | 0 <= i < j < |events| ensures Nominal(events[i]) != Nominal(events[j]) {
        assert events[i] in events && events[j] in events && events[i] != events[j];
      }
    }
  }

  lemma SelectedAgrees(raw: seq<FundingEvent>, previous: int, end: int, events: seq<FundingEvent>)
    requires forall i, j :: 0 <= i < j < |events| ==> events[i].ts < events[j].ts
    requires forall e :: e in events <==> e in raw && InWindow(e, previous, end)
    ensures NominalSet(events) == WindowBoundaries(raw, previous, end)
    ensures OnePerBoundary(events) <==> AllPrinted(raw, previous, end) && Apart(raw, previous, end)
  {
    SameBoundaries(raw, previous, end, events);
    OrderedApart(events, previous, end);
    hide OnePerBoundary, NominalBoundary, Nominal, NominalSet, WindowBoundaries;
  }

  /** Keep the window's settlements by timestamp, map each to its nominal boundary, and demand coverage. */
  method CollectSymbol(raw: seq<FundingEvent>, previous: int, end: int, prior: int, current: int)
    returns (r: Result<seq<FundingEvent>>)
    ensures r.Ok? <==> Provable(raw, previous, end, prior, current)
    ensures r.Ok? ==> Accepted(previous, end, prior, current, r.value)
    ensures r.Ok? ==> forall e :: e in r.value <==> e in raw && previous < e.ts <= end
  {
    hide Boundaries, FloorHour, Explained, NominalBoundary, Keyable, AllPrinted, Apart;
    if end < previous || !IsInterval(prior) || !IsInterval(current) {
      return Err("funding window or schedule is invalid");
    }
    var byTimestamp := ByTimestamp(raw, previous, end);
    if byTimestamp.Err? {
      return Err(byTimestamp.reason);
    }
    var events := InTimeOrder(byTimestamp.value);
    SelectedAgrees(raw, previous, end, events);
    var observed := ByBoundary(events);
    if observed.Err? {
      return Err(observed.reason);
    }
    var coverage := IntervalCoverageProof(previous, end, prior, current, observed.value);
    if coverage.Err? {
      return Err(coverage.reason);
    }
    MarksArePositive(raw, previous, end);
    forall i | 0 <= i < |events| ensures previous < events[i].ts <= end && events[i].mark > 0.0 {
      assert events[i] in events;
    }
    return Ok(events);
  }

  lemma MarksArePositive(raw: seq<FundingEvent>, previous: int, end: int)
    requires Keyable(raw, previous, end)
    ensures forall e :: e in raw && InWindow(e, previous, end) ==> e.mark > 0.0
  {
  }

  lemma NominalGrows(events: seq<FundingEvent>, e: FundingEvent)
    ensures NominalSet(events + [e]) == NominalSet(events) + {Nominal(e)}
  {
    var longer := events + [e];
    forall b ensures b in NominalSet(longer) <==> b in NominalSet(events) || b == Nominal(e) {
      if b in NominalSet(events) {
        var i :| 0 <= i < |events| && Nominal(events[i]) == b;
        assert longer[i] == events[i];
      }
      assert longer[|events|] == e;
    }
  }

  // ----- Every run of settlements -----

  /** One settlement window: the clock moves from the previous window's end to `end`. */
  datatype Window = Window(end: int, prior: int, current: int, events: seq<FundingEvent>)

  function Clock(start: int, windows: seq<Window>): int
  {
    if windows == [] then start else windows[|windows| - 1].end
  }

  ghost predicate AcceptedRun(start: int, windows: seq<Window>)
  {
    windows == [] ||
    (var front, last := windows[..|windows| - 1], windows[|windows| - 1];
     AcceptedRun(start, front) && Accepted(Clock(start, front), last.end, last.prior, last.current, last.events))
  }

  function NominalSeq(events: seq<FundingEvent>): seq<int>
  {
    seq(|events|, i requires 0 <= i < |events| => Nominal(events[i]))
  }

  /** Every boundary the run charged the symbol for, in order. */
  function Charged(windows: seq<Window>): seq<int>
  {
    if windows == [] then []
    else Charged(windows[..|windows| - 1]) + NominalSeq(windows[|windows| - 1].events)
  }

  ghost predicate Once(ts: seq<int>)
  {
    forall i, j :: 0 <= i < j < |ts| ==> ts[i] != ts[j]
  }

  function Elements(ts: seq<int>): set<int>
  {
    set t | t in ts
  }

  lemma OnceConcat(a: seq<int>, b: seq<int>)
    requires Once(a) && Once(b) && Elements(a) !! Elements(b)
    ensures Once(a + b) && Elements(a + b) == Elements(a) + Elements(b)
  {
    forall i, j | 0 <= i < j < |a + b| ensures (a + b)[i] != (a + b)[j] {
      if i < |a| <= j {
        assert a[i] in Elements(a) && b[j - |a|] in Elements(b);
      }
    }
  }

  lemma NominalSeqElements(events: seq<FundingEvent>)
    requires forall i, j :: 0 <= i < j < |events| ==> Nominal(events[i]) != Nominal(events[j])
    ensures Once(NominalSeq(events)) && Elements(NominalSeq(events)) == NominalSet(events)
  {
    var ts := NominalSeq(events);
    forall b ensures b in Elements(ts) <==> b in NominalSet(events) {
      if b in NominalSet(events) {
        var i :| 0 <= i < |events| && Nominal(events[i]) == b;
        assert ts[i] == b;
      }
    }
  }

  lemma {:induction false} CountOnce(ts: seq<int>)
    requires Once(ts)
    ensures |ts| == |Elements(ts)|
  {
    if ts == [] {
    } else {
      var front, last := ts[..|ts| - 1], ts[|ts| - 1];
      CountOnce(front);
      assert forall t :: t in ts <==> t in front || t == last;
      assert Elements(ts) == Elements(front) + {last};
    }
  }

  /** While the schedule is stable, the boundaries a run charges are exactly that schedule's between the
      first clock and the last, each once, and as many as the counter counts. */
  lemma {:induction false} StableRunIsExact(start: int, windows: seq<Window>, interval: int)
    requires AcceptedRun(start, windows) && IsInterval(interval)
    requires forall k :: 0 <= k < |windows| ==> windows[k].prior == windows[k].current == interval
    ensures start <= Clock(start, windows)
    ensures Once(Charged(windows))
    ensures Elements(Charged(windows)) == Boundaries(start, Clock(start, windows), interval)
    ensures |Charged(windows)| == |Boundaries(start, Clock(start, windows), interval)|
  {
    if windows == [] {
      assert Boundaries(start, start, interval) == {};
      assert Elements([]) == {};
    } else {
      var front, last := windows[..|windows| - 1], windows[|windows| - 1];
      StableRunIsExact(start, front, interval);
      NominalSeqElements(last.events);
      hide Boundaries;
      WindowsCompose(start, Clock(start, front), last.end, interval);
      OnceConcat(Charged(front), NominalSeq(last.events));
      CountOnce(Charged(windows));
    }
  }

  /** Whatever schedules a run goes through, no boundary is charged twice, every charge falls on an hourly
      boundary between the clocks, and no standard eight-hour boundary is missed. */
  lemma {:induction false} AnyRunIsBetween(start: int, windows: seq<Window>)
    requires AcceptedRun(start, windows)
    ensures start <= Clock(start, windows)
    ensures Once(Charged(windows))
    ensures Boundaries(start, Clock(start, windows), 8) <= Elements(Charged(windows))
         <= Boundaries(start, Clock(start, windows), 1)
  {
    if windows == [] {
      assert Boundaries(start, start, 8) == {};
      assert Boundaries(start, start, 1) == {};
    } else {
      var front, last := windows[..|windows| - 1], windows[|windows| - 1];
      var clock := Clock(start, front);
      AnyRunIsBetween(start, front);
      NominalSeqElements(last.events);
      WindowIsBetween(clock, last);
      hide Boundaries;
      WindowsCompose(start, clock, last.end, 1);
      WindowsCompose(start, clock, last.end, 8);
      OnceConcat(Charged(front), NominalSeq(last.events));
    }
  }

  lemma WindowIsBetween(clock: int, w: Window)
    requires Accepted(clock, w.end, w.prior, w.current, w.events)
    ensures Boundaries(clock, w.end, 8) <= NominalSet(w.events) <= Boundaries(clock, w.end, 1)
  {
    hide Boundaries;
    Nested(clock, w.end, w.prior, 8);
    Nested(clock, w.end, w.current, 8);
    Nested(clock, w.end, 1, w.prior);
    Nested(clock, w.end, 1, w.current);
    if w.prior != w.current {
      AcceptedIsBetween(clock, w.end, w.prior, w.current, NominalSet(w.events));
    }
  }

  // ----- When a window can be settled at all -----

  /** The feed of a symbol on one schedule: every print has a usable mark and falls within the lag after a
      boundary of its own, and every boundary of the window is printed sooner or later. */
  ghost predicate Honest(feed: seq<FundingEvent>, previous: int, end: int, interval: int)
    requires IsInterval(interval)
  {
    && (forall e | e in feed :: e.mark > 0.0 && NominalBoundary(e.ts).Ok? && IsBoundary(Nominal(e), interval))
    && (forall k, m :: 0 <= k < m < |feed| ==> Nominal(feed[k]) != Nominal(feed[m]))
    && (forall b :: b in Boundaries(previous, end, interval) ==> exists e :: e in feed && Nominal(e) == b)
  }

  /** One of the window's clocks falls between a boundary and its print. */
  predicate Straddles(e: FundingEvent, previous: int, end: int)
  {
    Nominal(e) <= previous < e.ts <= end || previous < Nominal(e) <= end < e.ts
  }

  lemma HonestIsOnePerBoundary(feed: seq<FundingEvent>, previous: int, end: int, interval: int)
    requires IsInterval(interval) && Honest(feed, previous, end, interval)
    ensures Keyable(feed, previous, end) && AllPrinted(feed, previous, end)
    ensures forall e, f :: e in feed && f in feed && e != f ==> Nominal(e) != Nominal(f)
  {
    hide Boundaries, IsBoundary, FloorHour, Nominal, NominalBoundary;
    forall e, f | e in feed && f in feed && e != f ensures Nominal(e) != Nominal(f) {
      var k :| 0 <= k < |feed| && feed[k] == e;
      var m :| 0 <= m < |feed| && feed[m] == f;
    }
    forall k, m | 0 <= k < m < |feed| ensures feed[k].ts != feed[m].ts {
      assert Nominal(feed[k]) != Nominal(feed[m]);
      SameTimeSameBoundary(feed[k], feed[m]);
    }
    forall k | 0 <= k < |feed| ensures feed[k].mark > 0.0 {
      assert feed[k] in feed;
    }
  }

  lemma SameTimeSameBoundary(e: FundingEvent, f: FundingEvent)
    ensures e.ts == f.ts ==> Nominal(e) == Nominal(f)
  {
  }

  lemma InWindowBoundary(feed: seq<FundingEvent>, previous: int, end: int, e: FundingEvent)
    requires e in feed && InWindow(e, previous, end)
    ensures Nominal(e) in WindowBoundaries(feed, previous, end)
  {
    hide Nominal;
    var k :| 0 <= k < |feed| && feed[k] == e;
  }

  lemma PrintsAfterItsBoundary(e: FundingEvent)
    ensures Nominal(e) <= e.ts
  {
  }

  lemma CoveredUnlessStraddled(feed: seq<FundingEvent>, previous: int, end: int, interval: int)
    requires IsInterval(interval) && Honest(feed, previous, end, interval)
    requires forall e | e in feed :: !Straddles(e, previous, end)
    ensures WindowBoundaries(feed, previous, end) == Boundaries(previous, end, interval)
  {
    hide IsBoundary, FloorHour, Nominal, NominalBoundary;
    forall b | b in WindowBoundaries(feed, previous, end) ensures b in Boundaries(previous, end, interval) {
      var k :| 0 <= k < |feed| && InWindow(feed[k], previous, end) && Nominal(feed[k]) == b;
      assert feed[k] in feed;
      PrintsAfterItsBoundary(feed[k]);
    }
    forall b | b in Boundaries(previous, end, interval) ensures b in WindowBoundaries(feed, previous, end) {
      var e :| e in feed && Nominal(e) == b;
      PrintsAfterItsBoundary(e);
      InWindowBoundary(feed, previous, end, e);
    }
  }

  lemma StraddledIsNotCovered(feed: seq<FundingEvent>, previous: int, end: int, interval: int, e: FundingEvent)
    requires IsInterval(interval) && Honest(feed, previous, end, interval)
    requires e in feed && Straddles(e, previous, end)
    ensures WindowBoundaries(feed, previous, end) != Boundaries(previous, end, interval)
  {
    HonestIsOnePerBoundary(feed, previous, end, interval);
    hide IsBoundary, FloorHour, Nominal, NominalBoundary, Keyable, AllPrinted;
    var b := Nominal(e);
    if InWindow(e, previous, end) {
      InWindowBoundary(feed, previous, end, e);
      assert b !in Boundaries(previous, end, interval);
    } else {
      assert b in Boundaries(previous, end, interval);
      if b in WindowBoundaries(feed, previous, end) {
        var k :| 0 <= k < |feed| && InWindow(feed[k], previous, end) && Nominal(feed[k]) == b;
      }
    }
  }

  /** On a stable schedule and an honest feed, a window can be settled exactly when neither of its clocks
      falls between a boundary and its print. */
  lemma SettleableExactly(feed: seq<FundingEvent>, previous: int, end: int, interval: int)
    requires previous <= end && IsInterval(interval) && Honest(feed, previous, end, interval)
    ensures Provable(feed, previous, end, interval, interval)
        <==> forall e :: e in feed ==> !Straddles(e, previous, end)
  {
    HonestIsOnePerBoundary(feed, previous, end, interval);
    if e :| e in feed && Straddles(e, previous, end) {
      StraddledIsNotCovered(feed, previous, end, interval, e);
    } else {
      CoveredUnlessStraddled(feed, previous, end, interval);
    }
    hide Honest, Straddles, Boundaries, Nominal, Keyable, AllPrinted, WindowBoundaries;
  }

  /** No print of the schedule can be pending at `t`. */
  predicate OutsideTheLag(t: int, interval: int)
    requires interval > 0
  {
    IsBoundary(FloorHour(t), interval) ==> t >= FloorHour(t) + SETTLEMENT_LAG
  }

  /** A caller that keeps both clocks a lag away from the boundaries can always settle. */
  lemma SettleableOutsideTheLag(feed: seq<FundingEvent>, previous: int, end: int, interval: int)
    requires previous <= end && IsInterval(interval) && Honest(feed, previous, end, interval)
    requires OutsideTheLag(previous, interval) && OutsideTheLag(end, interval)
    ensures Provable(feed, previous, end, interval, interval)
  {
    forall e | e in feed ensures !Straddles(e, previous, end) {
      NotPendingAt(e, previous, interval);
      NotPendingAt(e, end, interval);
    }
    SettleableExactly(feed, previous, end, interval);
    hide Honest, OutsideTheLag, Provable, Boundaries, Nominal;
  }

  lemma NotPendingAt(e: FundingEvent, t: int, interval: int)
    requires interval > 0 && OutsideTheLag(t, interval)
    requires NominalBoundary(e.ts).Ok? && IsBoundary(Nominal(e), interval)
    ensures !(Nominal(e) <= t < e.ts)
  {
    hide IsBoundary, FloorHour;
    if Nominal(e) <= t < e.ts {
      OnlyHourWithin(t, Nominal(e));
    }
  }

  /** What is printed after the window plays no part, so it does not matter when the feed is read. */
  lemma LaterPrintsPlayNoPart(feed: seq<FundingEvent>, read: nat, previous: int, end: int, prior: int, current: int)
    requires read <= |feed| && forall m :: read <= m < |feed| ==> feed[m].ts > end
    ensures Provable(feed[..read], previous, end, prior, current) <==> Provable(feed, previous, end, prior, current)
  {
    hide Nominal, NominalBoundary, Covered;
    var seen := feed[..read];
    assert forall e :: InWindow(e, previous, end) ==> (e in seen <==> e in feed);
    assert WindowBoundaries(seen, previous, end) == WindowBoundaries(feed, previous, end) by {
      assert forall k :: 0 <= k < read ==> seen[k] == feed[k];
    }
  }

  /** A settlement printed after the clock for a boundary at or before it can never be accepted: a clock
      that starts inside the print lag leaves that symbol unsettleable. */
  lemma LatePrintBlocks(previous: int, end: int, prior: int, current: int, events: seq<FundingEvent>, i: nat)
    requires i < |events| && previous < events[i].ts <= end
    requires Nominal(events[i]) <= previous
    ensures !Accepted(previous, end, prior, current, events)
  {
    assert Nominal(events[i]) in NominalSet(events);
    if Accepted(previous, end, prior, current, events) {
      WindowIsBetween(previous, Window(end, prior, current, events));
    }
  }

  const LATE: FundingEvent := FundingEvent(500_000, 0.0001, 100.0)
  const PUNCTUAL: FundingEvent := FundingEvent(28_800_000_000, 0.0001, 100.0)

  /** Both ways of failing occur: midnight's settlement is printed half a second late, and one clock of the
      window falls before that print. */
  lemma StraddledWindows()
    ensures Honest([LATE, PUNCTUAL], 100_000, 28_800_000_000, 8)
         && !Provable([LATE, PUNCTUAL], 100_000, 28_800_000_000, 8, 8)
    ensures Honest([LATE], -1, 100_000, 8) && !Provable([LATE], -1, 100_000, 8, 8)
  {
    MidnightAndMorning();
    assert PUNCTUAL in [LATE, PUNCTUAL] && LATE in [LATE, PUNCTUAL];
    hide Boundaries, IsBoundary, FloorHour, Provable;
    SettleableExactly([LATE, PUNCTUAL], 100_000, 28_800_000_000, 8);
    SettleableExactly([LATE], -1, 100_000, 8);
  }

  lemma MidnightAndMorning()
    ensures Nominal(LATE) == 0 && NominalBoundary(LATE.ts).Ok? && IsBoundary(0, 8)
    ensures Nominal(PUNCTUAL) == 28_800_000_000 && NominalBoundary(PUNCTUAL.ts).Ok? && IsBoundary(28_800_000_000, 8)
    ensures Boundaries(100_000, 28_800_000_000, 8) == {28_800_000_000} && Boundaries(-1, 100_000, 8) == {0}
  {
    forall t ensures IsBoundary(t, 8) <==> t % 28_800_000_000 == 0 {
      BoundaryIsMultiple(t, 8);
    }
    hide IsBoundary;
  }
}
