/** Stable sorting by a strict weak order, and when a sorted sequence is determined by its elements. */
module Sorting {

  /** `before` is asymmetric, and "not after" is transitive. */
  ghost predicate WeakOrder<T(!new)>(before: (T, T) -> bool)
  {
    && (forall a, b :: before(a, b) ==> !before(b, a))
    && (forall a, b, c :: !before(b, a) && !before(c, b) ==> !before(c, a))
  }

  predicate Sorted<T>(before: (T, T) -> bool, s: seq<T>)
  {
    forall i, j | 0 <= i < j < |s| :: !before(s[j], s[i])
  }

  predicate Ascending<T>(before: (T, T) -> bool, s: seq<T>)
  {
    forall i, j | 0 <= i < j < |s| :: before(s[i], s[j])
  }

  /** `x` placed after everything it does not precede. */
  function Insert<T>(before: (T, T) -> bool, x: T, s: seq<T>): (r: seq<T>)
    ensures multiset(r) == multiset(s) + multiset{x} && |r| == |s| + 1
  {
    if s == [] then [x]
    else if before(x, s[0]) then [x] + s
    else
      assert s == [s[0]] + s[1..];
      [s[0]] + Insert(before, x, s[1..])
  }

  function Sort<T>(before: (T, T) -> bool, s: seq<T>): (r: seq<T>)
    ensures multiset(r) == multiset(s) && |r| == |s|
  {
    if s == [] then []
    else
      assert s == s[..|s| - 1] + [s[|s| - 1]];
      Insert(before, s[|s| - 1], Sort(before, s[..|s| - 1]))
  }

  lemma SameElements<T>(a: seq<T>, b: seq<T>)
    requires multiset(a) == multiset(b)
    ensures |a| == |b| && forall x :: x in a <==> x in b
  {
    assert |multiset(a)| == |a| && |multiset(b)| == |b|;
    forall x ensures x in a <==> x in b {
      assert x in multiset(a) <==> x in multiset(b);
    }
  }

  lemma PrependKeepsSorted<T>(before: (T, T) -> bool, x: T, s: seq<T>)
    requires Sorted(before, s) && forall k | 0 <= k < |s| :: !before(s[k], x)
    ensures Sorted(before, [x] + s)
  {
  }

  lemma {:induction false} InsertKeepsSorted<T(!new)>(before: (T, T) -> bool, x: T, s: seq<T>)
    requires WeakOrder(before) && Sorted(before, s)
    ensures Sorted(before, Insert(before, x, s))
  {
    if s == [] {
    } else if before(x, s[0]) {
      forall k | 0 <= k < |s| ensures !before(s[k], x) {
        assert k > 0 ==> !before(s[k], s[0]);
      }
      PrependKeepsSorted(before, x, s);
    } else {
      var rest := Insert(before, x, s[1..]);
      InsertKeepsSorted(before, x, s[1..]);
      SameElements(rest, s[1..] + [x]);
      hide WeakOrder;
      forall k | 0 <= k < |rest| ensures !before(rest[k], s[0]) {
        assert rest[k] in s[1..] + [x];
      }
      PrependKeepsSorted(before, s[0], rest);
    }
  }

  lemma {:induction false} SortIsSorted<T(!new)>(before: (T, T) -> bool, s: seq<T>)
    requires WeakOrder(before)
    ensures Sorted(before, Sort(before, s))
  {
    hide WeakOrder, Sorted;
    if s == [] {
      assert Sorted(before, []) by { NothingIsSorted(before); }
    } else {
      SortIsSorted(before, s[..|s| - 1]);
      InsertKeepsSorted(before, s[|s| - 1], Sort(before, s[..|s| - 1]));
    }
  }

  lemma NothingIsSorted<T>(before: (T, T) -> bool)
    ensures Sorted(before, [])
  {
  }

  lemma SameHead<T(!new)>(before: (T, T) -> bool, a: seq<T>, b: seq<T>)
    requires WeakOrder(before) && a != [] && b != []
    requires Ascending(before, a) && Ascending(before, b) && multiset(a) == multiset(b)
    ensures a[0] == b[0]
  {
    SameElements(a, b);
    assert a[0] in b && b[0] in a;
    var i :| 0 <= i < |b| && b[i] == a[0];
    var j :| 0 <= j < |a| && a[j] == b[0];
  }

  /** A strictly ascending sequence is determined by its elements. */
  lemma {:induction false} AscendingIsUnique<T(!new)>(before: (T, T) -> bool, a: seq<T>, b: seq<T>)
    requires WeakOrder(before)
    requires Ascending(before, a) && Ascending(before, b) && multiset(a) == multiset(b)
    ensures a == b
  {
    hide WeakOrder;
    SameElements(a, b);
    if a == [] {
    } else {
      SameHead(before, a, b);
      assert a == [a[0]] + a[1..] && b == [b[0]] + b[1..];
      assert multiset(a[1..]) == multiset(a) - multiset{a[0]};
      assert multiset(b[1..]) == multiset(b) - multiset{b[0]};
      AscendingIsUnique(before, a[1..], b[1..]);
    }
  }

  lemma SortOfTwo<T>(before: (T, T) -> bool, x: T, y: T)
    ensures Sort(before, [x, y]) == if before(y, x) then [y, x] else [x, y]
  {
    assert [x, y][..1] == [x] && [x][..0] == [];
    assert Sort(before, [x]) == Insert(before, x, []);
    assert [x][1..] == [];
    assert Insert(before, y, [x]) == if before(y, x) then [y, x] else [x] + Insert(before, y, []);
  }

  /** No element is listed twice. */
  ghost predicate Distinct<T(!new)>(s: seq<T>)
  {
    forall x :: multiset(s)[x] <= 1
  }

  lemma DistinctElements<T(!new)>(s: seq<T>, i: nat, j: nat)
    requires Distinct(s) && i < j < |s|
    ensures s[i] != s[j]
  {
    assert s == s[..j] + [s[j]] + s[j + 1..];
    assert s[i] in s[..j];
    assert multiset(s)[s[j]] == multiset(s[..j])[s[j]] + 1 + multiset(s[j + 1..])[s[j]];
  }

  lemma {:induction false} DistinctByIndex<T(!new)>(s: seq<T>)
    requires forall i, j | 0 <= i < j < |s| :: s[i] != s[j]
    ensures Distinct(s)
  {
    if s == [] {
    } else {
      DistinctByIndex(s[1..]);
      assert s == [s[0]] + s[1..];
      assert multiset(s) == multiset{s[0]} + multiset(s[1..]);
      forall i | 0 <= i < |s[1..]| ensures s[1..][i] != s[0] {
        assert s[1..][i] == s[i + 1];
      }
      assert s[0] !in multiset(s[1..]);
    }
  }

  lemma DistinctTail<T(!new)>(s: seq<T>)
    requires Distinct(s) && s != []
    ensures Distinct(s[1..]) && s[0] !in s[1..]
  {
    assert s == [s[0]] + s[1..];
    assert multiset(s) == multiset{s[0]} + multiset(s[1..]);
    forall x ensures multiset(s[1..])[x] <= 1 {
      assert multiset(s)[x] <= 1;
    }
    assert multiset(s)[s[0]] <= 1;
    assert s[0] !in multiset(s[1..]);
  }

  function Map<T>(f: T -> T, s: seq<T>): (r: seq<T>)
    ensures |r| == |s| && forall i | 0 <= i < |s| :: r[i] == f(s[i])
  {
    seq(|s|, i requires 0 <= i < |s| => f(s[i]))
  }

  /** `f` does not touch what elements are ordered by. */
  ghost predicate Preserves<T(!new)>(before: (T, T) -> bool, f: T -> T)
  {
    forall a, b {:trigger f(a), f(b)} :: before(f(a), f(b)) == before(a, b)
  }

  lemma PreservesAt<T(!new)>(before: (T, T) -> bool, f: T -> T, a: T, b: T)
    requires Preserves(before, f)
    ensures before(f(a), f(b)) == before(a, b)
  {
  }

  lemma MapCons<T>(f: T -> T, x: T, s: seq<T>)
    ensures Map(f, [x] + s) == [f(x)] + Map(f, s)
  {
  }

  lemma {:induction false} InsertCommutes<T(!new)>(before: (T, T) -> bool, f: T -> T, x: T, s: seq<T>)
    requires Preserves(before, f)
    ensures Insert(before, f(x), Map(f, s)) == Map(f, Insert(before, x, s))
  {
    hide Preserves;
    MapCons(f, x, s);
    if s == [] {
      assert [x] + s == [x];
    } else {
      var rest := s[1..];
      assert s == [s[0]] + rest;
      MapCons(f, s[0], rest);
      hide Map;
      PreservesAt(before, f, x, s[0]);
      assert Map(f, s)[1..] == Map(f, rest);
      if !before(x, s[0]) {
        InsertCommutes(before, f, x, rest);
        MapCons(f, s[0], Insert(before, x, rest));
      }
    }
  }

  /** Rewriting elements without touching what they are ordered by commutes with sorting. */
  lemma {:induction false} SortCommutes<T(!new)>(before: (T, T) -> bool, f: T -> T, s: seq<T>)
    requires Preserves(before, f)
    ensures Sort(before, Map(f, s)) == Map(f, Sort(before, s))
  {
    hide Preserves, Insert;
    if s == [] {
    } else {
      var rest := s[..|s| - 1];
      SortCommutes(before, f, rest);
      assert Map(f, s)[..|s| - 1] == Map(f, rest);
      InsertCommutes(before, f, s[|s| - 1], Sort(before, rest));
    }
  }
}
