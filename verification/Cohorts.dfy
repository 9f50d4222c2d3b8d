/** Grouping forecast outcomes into time cohorts and selecting a largest set of cohorts that do not overlap
    beyond the scheduler tolerance.  Times are microseconds. */
module Cohorts {
  import opened Results
  import opened Sorting

  const TOLERANCE: int := 300_000_000

  datatype Key = Key(start: int, end: int, horizon: int, cycle: int, marks: string)
  datatype Outcome = Outcome(key: Key, originCycle: int, symbol: string)
  datatype Cohort = Cohort(key: Key, id: int, rows: seq<Outcome>)

  // ----- Grouping -----

  /** The outcomes that share one exact window. */
  function RowsOf(sample: seq<Outcome>, key: Key): seq<Outcome>
  {
    if sample == [] then []
    else
      var rest, row := RowsOf(sample[..|sample| - 1], key), sample[|sample| - 1];
      if row.key == key then rest + [row] else rest
  }

  predicate Positive(k: Key)
  {
    k.start < k.end
  }

  /** The cohorts are the windows of the sample, each once, with all the outcomes of its window. */
  predicate Partition(cohorts: seq<Cohort>, sample: seq<Outcome>, digest: Key -> int)
  {
    && (forall i | 0 <= i < |cohorts| ::
          cohorts[i] == Cohort(cohorts[i].key, digest(cohorts[i].key), RowsOf(sample, cohorts[i].key)))
    && (forall i, j | 0 <= i < j < |cohorts| :: cohorts[i].key != cohorts[j].key)
    && (forall row | row in sample :: exists c | c in cohorts :: c.key == row.key)
    && (forall c | c in cohorts :: exists row | row in sample :: row.key == c.key)
  }

  lemma RowsOfStep(sample: seq<Outcome>, i: nat, key: Key)
    requires i < |sample|
    ensures RowsOf(sample[..i + 1], key) == RowsOf(sample[..i], key) + if sample[i].key == key then [sample[i]] else []
  {
    assert sample[..i + 1][..i] == sample[..i];
  }

  lemma {:induction false} NoRowsOfAbsentKey(sample: seq<Outcome>, key: Key)
    requires forall row | row in sample :: row.key != key
    ensures RowsOf(sample, key) == []
  {
    if sample == [] {
    } else {
      NoRowsOfAbsentKey(sample[..|sample| - 1], key);
    }
  }

  /** The rows by window, with the windows in order of first appearance. */
  predicate Grouped(sample: seq<Outcome>, keys: seq<Key>, grouped: map<Key, seq<Outcome>>)
  {
    && (forall a, b | 0 <= a < b < |keys| :: keys[a] != keys[b])
    && (forall key | key in keys :: key in grouped)
    && (forall key | key in grouped :: key in keys && grouped[key] == RowsOf(sample, key))
    && (forall row | row in sample :: row.key in grouped)
    && (forall key | key in grouped :: exists row | row in sample :: row.key == key)
  }

  lemma GroupedStep(sample: seq<Outcome>, row: Outcome, keys: seq<Key>, grouped: map<Key, seq<Outcome>>)
    requires Grouped(sample, keys, grouped)
    ensures row.key in grouped ==> Grouped(sample + [row], keys, grouped[row.key := grouped[row.key] + [row]])
    ensures row.key !in grouped ==> Grouped(sample + [row], keys + [row.key], grouped[row.key := [row]])
  {
    hide RowsOf;
    var longer := sample + [row];
    forall key ensures RowsOf(longer, key) == RowsOf(sample, key) + if row.key == key then [row] else [] {
      RowsOfStep(longer, |sample|, key);
      assert longer[..|sample|] == sample && longer[..|sample| + 1] == longer;
    }
    if row.key !in grouped {
      NoRowsOfAbsentKey(sample, row.key);
    }
    assert row in longer && forall other | other in sample :: other in longer;
  }

  method Group(sample: seq<Outcome>) returns (r: Result<(seq<Key>, map<Key, seq<Outcome>>)>)
    ensures r.Ok? <==> forall row | row in sample :: row.key.start < row.key.end
    ensures r.Ok? ==> Grouped(sample, r.value.0, r.value.1)
  {
    var keys: seq<Key> := [];
    var grouped: map<Key, seq<Outcome>> := map[];
    hide RowsOf, Grouped;
    assert Grouped([], [], map[]) by { NothingGrouped(); }
    assert sample[..0] == [];
    for i := 0 to |sample|
      invariant Grouped(sample[..i], keys, grouped)
      invariant forall k | 0 <= k < i :: Positive(sample[k].key)
    {
      var row := sample[i];
      if !Positive(row.key) {
        assert row in sample;
        return Err("forecast outcome interval must end after its origin");
      }
      GroupedStep(sample[..i], row, keys, grouped);
      assert sample[..i + 1] == sample[..i] + [row];
      if row.key !in grouped {
        keys := keys + [row.key];
        grouped := grouped[row.key := [row]];
      } else {
        grouped := grouped[row.key := grouped[row.key] + [row]];
      }
    }
    assert sample[..|sample|] == sample;
    return Ok((keys, grouped));
  }

  lemma NothingGrouped()
    ensures Grouped([], [], map[])
  {
  }

  predicate BuiltFrom(cohorts: seq<Cohort>, keys: seq<Key>, grouped: map<Key, seq<Outcome>>, digest: Key -> int)
  {
    |cohorts| == |keys| && forall k | 0 <= k < |keys| ::
      keys[k] in grouped && cohorts[k] == Cohort(keys[k], digest(keys[k]), grouped[keys[k]])
  }

  lemma BuiltIsPartition(sample: seq<Outcome>, keys: seq<Key>, grouped: map<Key, seq<Outcome>>,
                         digest: Key -> int, cohorts: seq<Cohort>)
    requires Grouped(sample, keys, grouped) && BuiltFrom(cohorts, keys, grouped, digest)
    ensures Partition(cohorts, sample, digest)
  {
    hide RowsOf;
    forall i | 0 <= i < |cohorts|
      ensures cohorts[i] == Cohort(cohorts[i].key, digest(cohorts[i].key), RowsOf(sample, cohorts[i].key))
           && exists row | row in sample :: row.key == cohorts[i].key {
      assert keys[i] in grouped;
    }
    forall row | row in sample ensures exists c | c in cohorts :: c.key == row.key {
      assert row.key in keys;
      var k :| 0 <= k < |keys| && keys[k] == row.key;
      assert cohorts[k] in cohorts;
    }
  }

  /** One cohort for each window. */
  method Build(sample: seq<Outcome>, keys: seq<Key>, grouped: map<Key, seq<Outcome>>, digest: Key -> int)
      returns (cohorts: seq<Cohort>)
    requires Grouped(sample, keys, grouped)
    ensures Partition(cohorts, sample, digest)
  {
    hide RowsOf, Partition;
    cohorts := [];
    for i := 0 to |keys|
      invariant BuiltFrom(cohorts, keys[..i], grouped, digest)
    {
      assert keys[i] in keys;
      cohorts := cohorts + [Cohort(keys[i], digest(keys[i]), grouped[keys[i]])];
    }
    assert keys[..|keys|] == keys;
    BuiltIsPartition(sample, keys, grouped, digest, cohorts);
  }

  // ----- Finish order -----

  /** Earlier end, then earlier start, then smaller id. */
  predicate Finishes(a: Cohort, b: Cohort)
  {
    || a.key.end < b.key.end
    || (a.key.end == b.key.end && a.key.start < b.key.start)
    || (a.key.end == b.key.end && a.key.start == b.key.start && a.id < b.id)
  }

  /** The candidates by earliest end, then start, then id. */
  function ByFinish(cs: seq<Cohort>): (r: seq<Cohort>)
    ensures multiset(r) == multiset(cs)
  {
    Sort(Finishes, cs)
  }

  lemma ByFinishIsOrdered(cs: seq<Cohort>)
    ensures Sorted(Finishes, ByFinish(cs))
  {
    assert WeakOrder(Finishes);
    SortIsSorted(Finishes, cs);
  }

  // ----- Earliest finish first -----

  predicate StartsAfter(c: Cohort, prior: Option<int>)
  {
    prior.Some? ==> c.key.start >= prior.value - TOLERANCE
  }

  function Greedy(cs: seq<Cohort>, prior: Option<int>): seq<Cohort>
  {
    if cs == [] then []
    else if StartsAfter(cs[0], prior) then [cs[0]] + Greedy(cs[1..], Some(cs[0].key.end))
    else Greedy(cs[1..], prior)
  }

  method Select(candidates: seq<Cohort>) returns (selected: seq<Cohort>, overlapping: seq<Cohort>)
    ensures selected == Greedy(candidates, None)
    ensures multiset(selected) + multiset(overlapping) == multiset(candidates)
  {
    selected, overlapping := [], [];
    var prior: Option<int> := None;
    for i := 0 to |candidates|
      invariant Greedy(candidates, None) == selected + Greedy(candidates[i..], prior)
      invariant multiset(selected) + multiset(overlapping) == multiset(candidates[..i])
    {
      assert candidates[i..][1..] == candidates[i + 1..];
      assert candidates[..i + 1] == candidates[..i] + [candidates[i]];
      if StartsAfter(candidates[i], prior) {
        selected := selected + [candidates[i]];
        prior := Some(candidates[i].key.end);
      } else {
        overlapping := overlapping + [candidates[i]];
      }
    }
    assert candidates[..|candidates|] == candidates;
  }

  /** Two windows that do not overlap by more than the tolerance, in either order. */
  predicate Compatible(a: Cohort, b: Cohort)
  {
    a.key.start >= b.key.end - TOLERANCE || b.key.start >= a.key.end - TOLERANCE
  }

  /** Each selected cohort starts after every one selected before it. */
  predicate Spaced(selected: seq<Cohort>)
  {
    forall i, j | 0 <= i < j < |selected| :: StartsAfter(selected[j], Some(selected[i].key.end))
  }

  predicate Choice(cohorts: seq<Cohort>, chosen: set<Cohort>)
  {
    && (forall c | c in chosen :: c in cohorts)
    && (forall a, b | a in chosen && b in chosen && a != b :: Compatible(a, b))
  }

  /** The whole of the selection: group, order by finish, select.  The selected cohorts do not overlap each
      other, and if every window of the sample is at least as long as the tolerance, no choice of compatible
      cohorts has more. */
  method ForecastTimeCohorts(sample: seq<Outcome>, digest: Key -> int)
      returns (r: Result<(seq<Cohort>, seq<Cohort>)>)
    ensures r.Ok? <==> forall row | row in sample :: row.key.start < row.key.end
    ensures r.Ok? ==> exists cohorts ::
      && Partition(cohorts, sample, digest)
      && r.value.0 == Greedy(ByFinish(cohorts), None)
      && multiset(r.value.0) + multiset(r.value.1) == multiset(cohorts)
      && Spaced(r.value.0)
      && ((forall row | row in sample :: row.key.end - row.key.start >= TOLERANCE) ==>
            forall chosen | Choice(cohorts, chosen) :: |chosen| <= |r.value.0|)
  {
    hide Partition, Greedy, Spaced, Choice, ByFinish;
    var grouped := Group(sample);
    if grouped.Err? {
      return Err(grouped.reason);
    }
    var cohorts := Build(sample, grouped.value.0, grouped.value.1, digest);
    var selected, overlapping := Select(ByFinish(cohorts));
    SelectionIsBest(cohorts, sample, digest);
    return Ok((selected, overlapping));
  }

  // ----- Soundness -----

  predicate EndsFrom(cs: seq<Cohort>, prior: Option<int>)
  {
    && (forall i, j | 0 <= i < j < |cs| :: cs[i].key.end <= cs[j].key.end)
    && (prior.Some? ==> forall i | 0 <= i < |cs| :: prior.value <= cs[i].key.end)
  }

  lemma FinishOrderEnds(cs: seq<Cohort>)
    requires Sorted(Finishes, cs)
    ensures EndsFrom(cs, None)
  {
    forall i, j | 0 <= i < j < |cs| ensures cs[i].key.end <= cs[j].key.end {
      assert !Finishes(cs[j], cs[i]);
    }
  }

  lemma {:induction false} GreedySelects(cs: seq<Cohort>, prior: Option<int>, i: nat)
    requires i < |Greedy(cs, prior)|
    ensures Greedy(cs, prior)[i] in cs
  {
    var next := if StartsAfter(cs[0], prior) then Some(cs[0].key.end) else prior;
    if !StartsAfter(cs[0], prior) {
      GreedySelects(cs[1..], next, i);
    } else if i > 0 {
      GreedySelects(cs[1..], next, i - 1);
    }
  }

  lemma {:induction false} GreedyStartsAfter(cs: seq<Cohort>, prior: Option<int>, i: nat)
    requires EndsFrom(cs, prior) && i < |Greedy(cs, prior)|
    ensures StartsAfter(Greedy(cs, prior)[i], prior)
    ensures forall k | 0 <= k < i :: StartsAfter(Greedy(cs, prior)[i], Some(Greedy(cs, prior)[k].key.end))
  {
    var taken := StartsAfter(cs[0], prior);
    var next := if taken then Some(cs[0].key.end) else prior;
    assert EndsFrom(cs[1..], next);
    if !taken {
      GreedyStartsAfter(cs[1..], next, i);
    } else if i > 0 {
      GreedyStartsAfter(cs[1..], next, i - 1);
      var s, rest := Greedy(cs, prior), Greedy(cs[1..], next);
      assert s == [cs[0]] + rest;
      forall k | 0 <= k < i ensures StartsAfter(s[i], Some(s[k].key.end)) {
        assert k > 0 ==> s[k] == rest[k - 1];
      }
    }
  }

  /** The selected cohorts are cohorts, and never overlap each other beyond the tolerance. */
  lemma SelectedDoNotOverlap(cohorts: seq<Cohort>, i: nat, j: nat)
    requires i < j < |Greedy(ByFinish(cohorts), None)|
    ensures var s := Greedy(ByFinish(cohorts), None);
      s[i] in cohorts && s[j].key.start >= s[i].key.end - TOLERANCE && Compatible(s[i], s[j])
  {
    ByFinishIsOrdered(cohorts);
    FinishOrderEnds(ByFinish(cohorts));
    GreedyStartsAfter(ByFinish(cohorts), None, j);
    GreedySelects(ByFinish(cohorts), None, i);
    hide Greedy, ByFinish;
    assert Greedy(ByFinish(cohorts), None)[i] in multiset(ByFinish(cohorts));
  }

  /** The candidates are taken by earliest end, then earliest start, then smallest id. */
  lemma FinishOrder(cs: seq<Cohort>, i: nat, j: nat)
    requires i < j < |ByFinish(cs)|
    ensures var a, b := ByFinish(cs)[i], ByFinish(cs)[j];
      && a.key.end <= b.key.end
      && (a.key.end == b.key.end ==> a.key.start <= b.key.start)
      && (a.key.end == b.key.end && a.key.start == b.key.start ==> a.id <= b.id)
  {
    ByFinishIsOrdered(cs);
    assert !Finishes(ByFinish(cs)[j], ByFinish(cs)[i]);
    hide ByFinish;
  }

  function NextPrior(cs: seq<Cohort>, prior: Option<int>): Option<int>
    requires cs != []
  {
    if StartsAfter(cs[0], prior) then Some(cs[0].key.end) else prior
  }

  lemma SelectedInTail(cs: seq<Cohort>, prior: Option<int>)
    requires Distinct(cs) && cs != []
    ensures cs[0] in Greedy(cs, prior) <==> StartsAfter(cs[0], prior)
    ensures forall j | 0 < j < |cs| :: cs[j] in Greedy(cs, prior) <==> cs[j] in Greedy(cs[1..], NextPrior(cs, prior))
  {
    var rest := Greedy(cs[1..], NextPrior(cs, prior));
    DistinctTail(cs);
    hide Distinct;
    forall k | 0 <= k < |rest| ensures rest[k] in cs[1..] {
      GreedySelects(cs[1..], NextPrior(cs, prior), k);
    }
    assert Greedy(cs, prior) == if StartsAfter(cs[0], prior) then [cs[0]] + rest else rest;
    forall j | 0 < j < |cs| ensures cs[j] != cs[0] {
      assert cs[1..][j - 1] == cs[j];
    }
  }

  /** A candidate is selected exactly when none selected before it ends more than five minutes after it
      starts; `prior` stands for what was selected before the first. */
  lemma {:induction false} SelectedExactly(cs: seq<Cohort>, prior: Option<int>, i: nat)
    requires Distinct(cs) && EndsFrom(cs, prior) && i < |cs|
    ensures cs[i] in Greedy(cs, prior) <==>
      && (prior.Some? ==> cs[i].key.start >= prior.value - 300_000_000)
      && forall j | 0 <= j < i && cs[j] in Greedy(cs, prior) :: cs[i].key.start >= cs[j].key.end - 300_000_000
  {
    SelectedInTail(cs, prior);
    if i > 0 {
      var next, tail := NextPrior(cs, prior), cs[1..];
      DistinctTail(cs);
      SelectedExactly(tail, next, i - 1);
      hide Distinct, Greedy, EndsFrom;
      assert forall j | 0 < j < |cs| :: cs[j] == tail[j - 1];
      if prior.Some? {
        EndsNoEarlier(cs, prior);
      }
    }
  }

  lemma EndsNoEarlier(cs: seq<Cohort>, prior: Option<int>)
    requires EndsFrom(cs, prior) && cs != [] && prior.Some?
    ensures prior.value <= cs[0].key.end
  {
  }

  // ----- Optimality -----

  /** A choice of candidates, by position, each starting after the one chosen before it. */
  predicate Follows(cs: seq<Cohort>, chosen: seq<bool>, prior: Option<int>)
  {
    |chosen| == |cs| &&
    (cs == [] || if chosen[0] then StartsAfter(cs[0], prior) && Follows(cs[1..], chosen[1..], Some(cs[0].key.end))
                 else Follows(cs[1..], chosen[1..], prior))
  }

  function Count(chosen: seq<bool>): nat
  {
    if chosen == [] then 0 else (if chosen[0] then 1 else 0) + Count(chosen[1..])
  }

  predicate NoLater(a: Option<int>, b: Option<int>)
  {
    a.None? || (b.Some? && a.value <= b.value)
  }

  /** A later prior end only makes a choice harder; dropping the first chosen cohort frees everything after
      an end that is no later. */
  lemma {:induction false} FollowsFromEarlier(cs: seq<Cohort>, chosen: seq<bool>, prior: Option<int>,
                                              earlier: Option<int>)
    requires Follows(cs, chosen, prior) && NoLater(earlier, prior)
    ensures Follows(cs, chosen, earlier)
  {
    if cs != [] && !chosen[0] {
      FollowsFromEarlier(cs[1..], chosen[1..], prior, earlier);
    }
  }

  lemma {:induction false} WithoutFirst(cs: seq<Cohort>, chosen: seq<bool>, prior: Option<int>, end: int)
      returns (rest: seq<bool>)
    requires Follows(cs, chosen, prior) && Count(chosen) > 0
    requires forall i | 0 <= i < |cs| :: end <= cs[i].key.end
    ensures Follows(cs, rest, Some(end)) && Count(rest) == Count(chosen) - 1
  {
    if chosen[0] {
      rest := [false] + chosen[1..];
      FollowsFromEarlier(cs[1..], chosen[1..], Some(cs[0].key.end), Some(end));
      assert rest[1..] == chosen[1..];
    } else {
      var r := WithoutFirst(cs[1..], chosen[1..], prior, end);
      rest := [false] + r;
      assert rest[1..] == r;
    }
  }

  /** Earliest finish first selects at least as many as any choice in finish order. */
  lemma {:induction false} GreedyStaysAhead(cs: seq<Cohort>, chosen: seq<bool>, prior: Option<int>)
    requires EndsFrom(cs, None) && Follows(cs, chosen, prior)
    ensures Count(chosen) <= |Greedy(cs, prior)|
  {
    if cs == [] {
    } else {
      assert EndsFrom(cs[1..], None);
      if StartsAfter(cs[0], prior) {
        if chosen[0] {
          GreedyStaysAhead(cs[1..], chosen[1..], Some(cs[0].key.end));
        } else if Count(chosen[1..]) > 0 {
          var rest := WithoutFirst(cs[1..], chosen[1..], prior, cs[0].key.end);
          GreedyStaysAhead(cs[1..], rest, Some(cs[0].key.end));
        }
      } else {
        GreedyStaysAhead(cs[1..], chosen[1..], prior);
      }
    }
  }

  lemma PartitionIsDistinct(cs: seq<Cohort>)
    requires forall i, j | 0 <= i < j < |cs| :: cs[i].key != cs[j].key
    ensures Distinct(cs)
  {
    DistinctByIndex(cs);
  }

  function Mask(cs: seq<Cohort>, chosen: set<Cohort>): (mask: seq<bool>)
    ensures |mask| == |cs| && forall i | 0 <= i < |cs| :: mask[i] <==> cs[i] in chosen
  {
    seq(|cs|, i requires 0 <= i < |cs| => cs[i] in chosen)
  }

  lemma MaskTail(cs: seq<Cohort>, chosen: set<Cohort>)
    requires Distinct(cs) && cs != []
    ensures Mask(cs, chosen)[1..] == Mask(cs[1..], chosen - {cs[0]}) == Mask(cs[1..], chosen)
  {
    DistinctTail(cs);
    hide Distinct;
    forall i | 0 <= i < |cs[1..]| ensures cs[1..][i] in chosen <==> cs[1..][i] in chosen - {cs[0]} {
      assert cs[1..][i] in cs[1..];
    }
  }

  lemma InTail(cs: seq<Cohort>, c: Cohort)
    requires c in cs && c != cs[0]
    ensures c in cs[1..]
  {
    var k :| 0 <= k < |cs| && cs[k] == c;
    assert cs[1..][k - 1] == c;
  }

  lemma {:induction false} MaskCounts(cs: seq<Cohort>, chosen: set<Cohort>)
    requires Distinct(cs) && forall c | c in chosen :: c in cs
    ensures Count(Mask(cs, chosen)) == |chosen|
  {
    hide Distinct;
    if cs == [] {
      assert chosen == {};
    } else {
      var rest := chosen - {cs[0]};
      MaskTail(cs, chosen);
      DistinctTail(cs);
      forall c | c in rest ensures c in cs[1..] {
        InTail(cs, c);
      }
      MaskCounts(cs[1..], rest);
      assert cs[0] in chosen ==> chosen == rest + {cs[0]};
      assert cs[0] !in chosen ==> chosen == rest;
    }
  }

  /** Each chosen cohort starts after every one chosen before it in finish order. */
  predicate Directed(cs: seq<Cohort>, chosen: set<Cohort>)
  {
    forall i, j | 0 <= i < j < |cs| && cs[i] in chosen && cs[j] in chosen :: StartsAfter(cs[j], Some(cs[i].key.end))
  }

  lemma {:induction false} DirectedFollows(cs: seq<Cohort>, chosen: set<Cohort>, prior: Option<int>)
    requires Distinct(cs) && Directed(cs, chosen)
    requires forall i | 0 <= i < |cs| && cs[i] in chosen :: StartsAfter(cs[i], prior)
    ensures Follows(cs, Mask(cs, chosen), prior)
  {
    if cs == [] {
    } else {
      var rest := cs[1..];
      MaskTail(cs, chosen);
      DistinctTail(cs);
      forall i, j | 0 <= i < j < |rest| && rest[i] in chosen && rest[j] in chosen
        ensures StartsAfter(rest[j], Some(rest[i].key.end)) {
        assert StartsAfter(cs[j + 1], Some(cs[i + 1].key.end));
      }
      forall i | 0 <= i < |rest| && rest[i] in chosen
        ensures StartsAfter(rest[i], prior) && (cs[0] in chosen ==> StartsAfter(rest[i], Some(cs[0].key.end))) {
        assert StartsAfter(cs[i + 1], prior);
        assert cs[0] in chosen ==> StartsAfter(cs[i + 1], Some(cs[0].key.end));
      }
      DirectedFollows(rest, chosen, if cs[0] in chosen then Some(cs[0].key.end) else prior);
    }
  }

  /** No choice that runs forward in finish order is larger than the selection, whatever the windows. */
  lemma SelectionIsLargestForward(cohorts: seq<Cohort>, chosen: set<Cohort>)
    requires Distinct(cohorts) && (forall c | c in chosen :: c in cohorts) && Directed(ByFinish(cohorts), chosen)
    ensures |chosen| <= |Greedy(ByFinish(cohorts), None)|
  {
    var cs := ByFinish(cohorts);
    ByFinishIsOrdered(cohorts);
    FinishOrderEnds(cs);
    forall c | c in chosen ensures c in cs {
      assert c in multiset(cohorts);
    }
    hide ByFinish, Directed, Greedy;
    DirectedFollows(cs, chosen, None);
    MaskCounts(cs, chosen);
    GreedyStaysAhead(cs, Mask(cs, chosen), None);
  }

  lemma SameCounts(a: seq<Cohort>, b: seq<Cohort>)
    requires Distinct(a) && multiset(a) == multiset(b)
    ensures Distinct(b)
  {
  }

  /** With windows at least as long as the tolerance, two compatible windows are compatible in finish
      order. */
  lemma CompatibleRunsForward(a: Cohort, b: Cohort)
    requires Compatible(a, b) && !Finishes(b, a)
    requires a.key.end - a.key.start >= TOLERANCE && b.key.end - b.key.start >= TOLERANCE
    ensures StartsAfter(b, Some(a.key.end))
  {
  }

  /** No compatible choice is larger than the selection. */
  lemma SelectionIsLargest(cohorts: seq<Cohort>, chosen: set<Cohort>)
    requires Distinct(cohorts) && forall c | c in cohorts :: c.key.end - c.key.start >= TOLERANCE
    requires Choice(cohorts, chosen)
    ensures |chosen| <= |Greedy(ByFinish(cohorts), None)|
  {
    hide ByFinish, StartsAfter, Compatible, Greedy, Distinct;
    var cs := ByFinish(cohorts);
    ByFinishIsOrdered(cohorts);
    assert Distinct(cs) by { SameCounts(cohorts, cs); }
    forall i, j | 0 <= i < j < |cs| && cs[i] in chosen && cs[j] in chosen
      ensures StartsAfter(cs[j], Some(cs[i].key.end)) {
      DistinctElements(cs, i, j);
      assert cs[i] in cohorts && cs[j] in cohorts && !Finishes(cs[j], cs[i]);
      CompatibleRunsForward(cs[i], cs[j]);
    }
    assert Directed(cs, chosen);
    SelectionIsLargestForward(cohorts, chosen);
  }

  /** What the two facts say of the cohorts of a sample. */
  lemma SelectionIsBest(cohorts: seq<Cohort>, sample: seq<Outcome>, digest: Key -> int)
    requires Partition(cohorts, sample, digest)
    ensures Spaced(Greedy(ByFinish(cohorts), None))
    ensures (forall row | row in sample :: row.key.end - row.key.start >= TOLERANCE) ==>
      forall chosen | Choice(cohorts, chosen) :: |chosen| <= |Greedy(ByFinish(cohorts), None)|
  {
    hide Greedy, ByFinish, RowsOf, Choice, Distinct;
    PartitionIsDistinct(cohorts);
    var s := Greedy(ByFinish(cohorts), None);
    forall i, j | 0 <= i < j < |s| ensures StartsAfter(s[j], Some(s[i].key.end)) {
      SelectedDoNotOverlap(cohorts, i, j);
    }
    if forall row | row in sample :: row.key.end - row.key.start >= TOLERANCE {
      forall chosen | Choice(cohorts, chosen) ensures |chosen| <= |s| {
        SelectionIsLargest(cohorts, chosen);
      }
    }
  }

  lemma GreedyOfTwo(a: Cohort, b: Cohort)
    requires !StartsAfter(b, Some(a.key.end))
    ensures Greedy([a, b], None) == [a]
  {
    assert [a, b][1..] == [b] && [b][1..] == [];
    assert Greedy([b], Some(a.key.end)) == Greedy([], Some(a.key.end)) == [];
  }

  /** The bound on the windows is exact: any shorter window has a partner it is compatible with, of which
      the selection nevertheless takes only one. */
  lemma ShortWindowLosesOne(c: Cohort) returns (partner: Cohort)
    requires 0 < c.key.end - c.key.start < TOLERANCE
    ensures Positive(partner.key) && partner != c && Compatible(c, partner)
    ensures |Greedy(ByFinish([c, partner]), None)| == 1
  {
    partner := Cohort(Key(c.key.end - TOLERANCE - 1, c.key.start + TOLERANCE, c.key.horizon, c.key.cycle, c.key.marks),
                      c.id, []);
    SortOfTwo(Finishes, c, partner);
    GreedyOfTwo(c, partner);
    hide Greedy, Sort;
  }
}
