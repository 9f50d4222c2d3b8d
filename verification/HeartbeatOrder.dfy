/** The order of the official heartbeat chain, and what appending one record does to it. */
module HeartbeatOrder {
  import opened Sorting
  import opened HeartbeatState

  lemma ChainOrder()
    ensures WeakOrder(RowBefore)
  {
  }

  lemma RowBeforeIsAsymmetric(a: Row, b: Row)
    ensures !(RowBefore(a, b) && RowBefore(b, a))
  {
  }

  lemma OfficialsAreSorted(rows: seq<Row>)
    ensures Sorted(RowBefore, Officials(rows))
  {
    ChainOrder();
    SortIsSorted(RowBefore, OfficialOnly(rows));
  }

  predicate OneEach(os: seq<Row>)
    requires forall k | 0 <= k < |os| :: Official(os[k])
  {
    forall i, j | 0 <= i < j < |os| :: RowIdentity(os[i]) != RowIdentity(os[j])
  }

  /** The record sorts after every official row. */
  predicate Extends(rows: seq<Row>, p: Payload)
  {
    forall row | row in rows && Official(row) :: Earlier(ChainKey(PayloadOf(row)), ChainKey(p))
  }

  lemma SortedIsAscending(os: seq<Row>)
    requires Sorted(RowBefore, os) && (forall k | 0 <= k < |os| :: Official(os[k])) && OneEach(os)
    ensures Ascending(RowBefore, os)
  {
    forall i, j | 0 <= i < j < |os| ensures RowBefore(os[i], os[j]) {
      assert !RowBefore(os[j], os[i]) && RowIdentity(os[i]) != RowIdentity(os[j]);
    }
  }

  lemma MemberOfOfficials(rows: seq<Row>, row: Row)
    ensures row in Officials(rows) <==> row in rows && Official(row)
  {
    assert row in multiset(Officials(rows)) <==> row in Officials(rows);
    assert row in multiset(rows) <==> row in rows;
  }

  /** An official row that sorts last goes to the end of the chain. */
  lemma OfficialsGrow(rows: seq<Row>, r: Record)
    requires (forall k | 0 <= k < |Officials(rows)| :: Official(Officials(rows)[k])) && OneEach(Officials(rows))
    requires Extends(rows, r.payload)
    ensures Officials(FileOrder(rows + [Mark(r)])) == Officials(rows) + [Mark(r)]
  {
    hide FileOrder, Officials, RowIdentity;
    var os := Officials(rows);
    var grown := Officials(FileOrder(rows + [Mark(r)]));
    OfficialsAreSorted(rows);
    SortedIsAscending(os);
    forall k | 0 <= k < |os| ensures RowBefore(os[k], Mark(r)) {
      MemberOfOfficials(rows, os[k]);
    }
    assert Ascending(RowBefore, os + [Mark(r)]);
    assert multiset(grown) == multiset(os + [Mark(r)]) by {
      assert multiset(rows + [Mark(r)]) == multiset(rows) + multiset{Mark(r)};
      assert multiset(os + [Mark(r)]) == multiset(os) + multiset{Mark(r)};
    }
    OfficialsAreSorted(FileOrder(rows + [Mark(r)]));
    ChainOrder();
    hide RowBefore;
    PermutedAscends(grown, os + [Mark(r)]);
    AscendingIsUnique(RowBefore, grown, os + [Mark(r)]);
  }

  lemma AscendsStrictly(b: seq<Row>, x: Row, y: Row)
    requires Ascending(RowBefore, b) && x in b && y in b && x != y
    ensures RowBefore(x, y) || RowBefore(y, x)
  {
    hide RowBefore;
    var i :| 0 <= i < |b| && b[i] == x;
    var j :| 0 <= j < |b| && b[j] == y;
  }

  lemma PermutedAscends(a: seq<Row>, b: seq<Row>)
    requires WeakOrder(RowBefore) && Sorted(RowBefore, a) && Ascending(RowBefore, b) && multiset(a) == multiset(b)
    ensures Ascending(RowBefore, a)
  {
    hide RowBefore;
    SameElements(a, b);
    forall i, j | 0 <= i < j < |b| ensures b[i] != b[j] {
      assert RowBefore(b[i], b[j]);
    }
    DistinctByIndex(b);
    assert Distinct(a);
    hide WeakOrder;
    forall i, j | 0 <= i < j < |a| ensures RowBefore(a[i], a[j]) {
      DistinctElements(a, i, j);
      assert a[i] in b && a[j] in b;
      AscendsStrictly(b, a[i], a[j]);
    }
  }
}
